# SpeedyReader playback engine in Dafny

`SpeedyReader` is a React component that speed-reads a passage. It splits
the input text into words. A browser timer then fires once every
`60000 / speed` milliseconds, and each tick shows the next `wordChunk`
words. This project models the component's playback engine. The engine has
four parts:

- **Tokenizer and joiner** (`words.dfy`, module `Words`). `getWords` splits
  on runs of JavaScript `\s` whitespace and drops empty tokens. `join`
  builds the visible text.
- **Tick arithmetic** (`tick.dfy`, module `Tick`). This part is pure. One
  tick advances the position, computes the first word of the visible chunk
  (the `wordChunk >= n - 1` sweeping case starts at the first word), takes
  the slice with JavaScript's clamping, and decides whether to reschedule.
  It also covers whole runs of ticks: `Ticks`, `ShownWords`, `Texts`.
- **The component** (`reader.dfy`, module `SpeedyReader`). This is the
  imperative part. `Reader` is a class with the following fields:
  - the component's props, held as constants;
  - the React state (`currentPosition`, `currentText`, `isPlaying`,
    `words`) in one field, `state`;
  - the timer handle, as two flags: `pending` (a tick is scheduled and has
    not fired or been cancelled) and `timerEverSet` (the handle has been
    non-null once);
  - counters for `setTimeout`, `clearTimeout` and `onFinish` calls.

  `Mount`, `Unmount`, `Play`, `Pause`, `Reset` and `Update` are the
  component's methods. `Fire` is the body of the scheduled tick.
  `RunTimers` fires pending ticks as fake timers do, and its contract ties
  the texts it displays to the pure run of `Tick`.
- **Scenarios** (`scenarios.dfy`, module `Scenarios`). These replay the
  component's documented traces on "This is a test" as client code of the
  class.

## Model

| member | source | states |
|---|---|---|
| Words.IsWhitespace | src/SpeedyReader.js:108 | the characters that `\s` matches: tab, line feed, vertical tab, form feed, carriage return, space, no-break space, the Unicode space separators, the line and paragraph separators and the byte-order mark (definition, no contract) |
| Words.Split | src/SpeedyReader.js:108 | splitting on whitespace runs and dropping empty tokens gives only words: non-empty and free of whitespace |
| Words.GetWords | src/SpeedyReader.js:103-109 | a missing or empty sentence yields no words; every word returned is non-empty and holds no whitespace |
| Words.GetWordsConcat | src/SpeedyReader.js:103-109 | the words of `getWords`, glued together, are exactly the sentence with every whitespace character removed |
| Words.SplitConcat | src/SpeedyReader.js:108 | the same for the split itself: nothing but whitespace is lost or reordered |
| Words.SplitJoin | src/SpeedyReader.js:108 | splitting a list of words joined by single spaces gives the list back (the tokenizer inverts the joiner) |
| Words.SplitEmpty | src/SpeedyReader.js:108 | a sentence has no words if and only if all of its characters are whitespace |
| Words.SplitAtWhitespace | src/SpeedyReader.js:108 | any whitespace character separates words: splitting at it distributes over concatenation |
| Words.Join | src/SpeedyReader.js:176 | `join`: the words in order with the separator between neighbours and none at either end (definition; its partner is `Words.SplitJoin`) |
| Words.GetWordsMissing | __tests__/SpeedyReader.test.js:606-619 | `undefined`, `null` and `''` all yield no words |
| Words.GetWordsOneWord | __tests__/SpeedyReader.test.js:621-624 | "This" yields the single word "This" |
| Words.GetWordsSpaced | __tests__/SpeedyReader.test.js:626-629 | "This is a test" yields its four words |
| Words.GetWordsMixedWhitespace | __tests__/SpeedyReader.test.js:631-634 | "This \nis a  test" yields the same four words, despite the newline and the double space |
| Tick.Interval | src/SpeedyReader.js:160-161 | the delay in whole milliseconds: the largest count of which `speed` copies fit into a minute of 60000 ms |
| Tick.IntervalExamples | __tests__/SpeedyReader.test.js:319-331 | speed 1 waits 60000 ms and speed 5 waits 12000 ms; the default speed 250 waits 240 ms |
| Tick.Slice | src/SpeedyReader.js:174 | `words.slice(start, end)` for non-negative bounds: the end is clamped to the length, and the slice is empty when the start is not before the clamped end (definition; its contract is `Tick.SliceClamps`) |
| Tick.SliceClamps | src/SpeedyReader.js:174 | `slice` gives the elements from `start` on, up to `end` and the length, whichever is smaller; bounds past the end give the empty list |
| Tick.Sweeping | src/SpeedyReader.js:171 | the test `wordChunk >= numberOfWords - 1`, with `numberOfWords - 1` allowed to be -1 on an empty passage (definition, no contract) |
| Tick.Step | src/SpeedyReader.js:163-185 | the tick body as a value: the new position, the chunk's first word, the visible words and whether `update` is re-entered (definition; its contracts are `Tick.StepShape`, `Tick.StepChunk` and `Tick.StepSweep`) |
| Tick.StepShape | src/SpeedyReader.js:167-185 | for every chunk size: the position moves by exactly `wordChunk`, never clamped to the number of words; the visible words are consecutive words of the passage from the chunk's start, never past the new position; and a tick that does not reschedule has reached the end of the passage |
| Tick.StepChunk | src/SpeedyReader.js:170-185 | outside the sweeping case the chunk starts at the old position and shows the next `wordChunk` words (fewer at the end, none past it); the tick reschedules if and only if the new position is still inside the passage |
| Tick.StepSweep | src/SpeedyReader.js:170-185 | when `wordChunk >= n - 1` the chunk starts at word 0 and shows every word up to the new position; the tick reschedules if and only if `wordChunk == n - 1` |
| Tick.Ticks | src/SpeedyReader.js:162-190 | the run of ticks that follow each other through `update` has at most `fuel` ticks and at least one when there is fuel |
| Tick.Texts | src/SpeedyReader.js:176-181 | the displayed texts of a run, one per tick |
| Tick.PlaybackTicks | src/SpeedyReader.js:168-189 | outside the sweeping case, a run from a position inside the passage takes `TicksNeeded` ticks; all but the last reschedule, and the last finishes at or past the end |
| Tick.PlaybackCoversPassage | src/SpeedyReader.js:168-189 | outside the sweeping case, the chunks of a run show every remaining word exactly once, in order |
| Tick.TicksNeededIsCeiling | src/SpeedyReader.js:168-185 | the number of ticks is the remaining word count divided by the chunk size, rounded up |
| Tick.SweepFinishesAtOnce | src/SpeedyReader.js:171-189 | a chunk at least as long as the passage shows the whole passage on the first tick and finishes there |
| Tick.SweepNeverFinishes | src/SpeedyReader.js:171-186 | a chunk exactly one word shorter than the passage reschedules on every tick; the position grows by one chunk per tick without bound, and each tick shows the words from the first up to the position |
| SpeedyReader.InitialState | src/SpeedyReader.js:72-82 | position 0, empty text, playing exactly when auto-play is set, and the words of the input text |
| SpeedyReader.Reader.constructor | src/SpeedyReader.js:48-65 | the state is the initial state, and no timer has been set |
| SpeedyReader.Reader.Mount | src/SpeedyReader.js:84-89 | with auto-play, `play` runs (playing, with one tick scheduled); without it, nothing changes |
| SpeedyReader.Reader.Unmount | src/SpeedyReader.js:91-95 | the timer is cleared if one was ever set, even if it already fired; no tick is pending afterwards; nothing else changes |
| SpeedyReader.Reader.Pause | src/SpeedyReader.js:115-120 | playing stops, the old timer is cleared, and no tick is pending |
| SpeedyReader.Reader.Play | src/SpeedyReader.js:126-131 | playing starts, any old timer is cleared, and exactly one new tick is pending |
| SpeedyReader.Reader.Reset | src/SpeedyReader.js:137-143 | the state is the initial state but playing, whatever auto-play says, and a tick is pending |
| SpeedyReader.Reader.Update | src/SpeedyReader.js:150-161 | a timer ever set is cleared; a tick with delay `Interval(speed)` is scheduled exactly when playing; the state is untouched, so at most one tick is ever pending |
| SpeedyReader.Reader.Fire | src/SpeedyReader.js:162-190 | the tick: the position and text become those of `Step`, and `isPlaying` is unchanged. If the tick continues, it re-enters `update`, which schedules again only if still playing. Otherwise no tick is pending and `onFinish`, if set, is called once |
| SpeedyReader.RunTimers | src/SpeedyReader.js:162-190 | firing the pending ticks while playing displays exactly the texts of the pure run of ticks over the input's words; afterwards the position and text are those of the run's last tick and a tick is pending exactly when that tick rescheduled (with no fuel nothing changes); `onFinish` is called once if the run finished |
| Scenarios.OneWordTicks | __tests__/SpeedyReader.test.js:460-508 | with one word per tick, "This is a test" shows "This", "is", "a" and "test", and stops after the fourth |
| Scenarios.ThreeWordTicks | __tests__/SpeedyReader.test.js:38-43 | a chunk of three words on four words shows "This is a" first, then the whole passage, and never stops |
| Scenarios.SixWordTick | __tests__/SpeedyReader.test.js:45-50 | a chunk of six words on four words shows all of them once and stops |
| Scenarios.PassageTexts | src/SpeedyReader.js:176 | the texts the traces display, joined with single spaces |
| Scenarios.PassageRun | __tests__/SpeedyReader.test.js:460-508 | the run of "This is a test" one word at a time is four ticks, the last of which finishes, and it displays "This", "is", "a", "test" |
| Scenarios.StartedReader | __tests__/SpeedyReader.test.js:384-394 | a reader of "This is a test" whose flag was set from outside and whose `update` was called: position 0, one tick pending after 60000 ms |

| Scenarios.ReadWholePassage | __tests__/SpeedyReader.test.js:460-508 | a trace with no contract: without `onFinish`, four ticks show "This", "is", "a" and "test" with two, three, four and four `setTimeout` calls, and then nothing is pending |
| Scenarios.RunWholePassage | __tests__/SpeedyReader.test.js:556-579 | a trace with no contract: running the timers through the passage displays its four words, leaves position 4 and "test", nothing pending, and `onFinish` called once |
| Scenarios.ReadOneWord | __tests__/SpeedyReader.test.js:533-554 | a trace with no contract: the one-word passage is shown by one tick, which finishes and calls `onFinish` once |
| Scenarios.ChunkLongerThanPassage | __tests__/SpeedyReader.test.js:45-50 | a trace with no contract: with auto-play and a chunk of six, one tick shows the whole passage and nothing is scheduled after it |
| Scenarios.ChunkOneShortOfPassage | __tests__/SpeedyReader.test.js:38-43 | a trace with no contract: with a chunk of three, the ticks show "This is a", then the whole passage, and a tick stays pending |
| Scenarios.ClearedFlagStopsAfterTick | __tests__/SpeedyReader.test.js:384-413 | a trace with no contract: after `isPlaying` is cleared behind `update`'s back, the pending tick still shows "is" at position 2 but schedules nothing |
| Scenarios.ResumeAfterClearedFlag | __tests__/SpeedyReader.test.js:415-455 | a trace with no contract: after the flag is cleared from outside, the pending tick still shows "is" at position 2 with two `setTimeout` calls; setting the flag and calling `update` makes three, and the next tick shows "a" at position 3 with four |
| Scenarios.PauseAndResume | src/SpeedyReader.js:115-131 | a trace with no contract of `pause` and `play`: at speed 5 the delay is 12000 ms; pausing cancels the pending tick and keeps the position; playing again resumes with the next word |
| Scenarios.ResetPlays | __tests__/SpeedyReader.test.js:253-265 | a trace with no contract: without auto-play, reset restores the initial state, plays, and schedules one tick |
| Scenarios.UnmountClearsUsedTimer | __tests__/SpeedyReader.test.js:168-182 | a trace with no contract: unmounting clears a timer that was set and does not clear one that never was |

## Left out

- `render`, the JSX output, `propTypes` and `defaultProps`: these are presentation and declarations. The default values do not enter the model, since every reader gets its properties explicitly.
- The demo application and the webpack configurations: these are build and demo glue.
- Real `setTimeout`, `clearTimeout` and wall-clock time. A scheduled tick is the flag `pending`, and its firing is the method `Fire`, called explicitly. The handle's truthiness is the flag `timerEverSet`, which relies on JavaScript timer ids never being 0.
- Tick.Interval: the source divides in floating point. The model uses whole speeds and whole milliseconds, rounded down; the two agree whenever `speed` divides 60000, as in every trace of the tests.
- React `setState` batching: state updates are modelled as synchronous, as in the shallow-render tests. A test that calls `setState` from outside is modelled as a direct assignment to the `state` field.
- Changing props. React replaces `this.props` whenever the parent renders again, and `update` (src/SpeedyReader.js:160) and `getInitialState` (src/SpeedyReader.js:73) read them afresh each time. The model keeps the props as constants of the `Reader`, so a speed, chunk size or text changed while playing is not modelled. The tests exercise `componentWillReceiveProps` (`__tests__/SpeedyReader.test.js:82-156`), but the component does not define it.
- Tests that contradict the code are not modelled, and the code is followed:
  - `reset` takes no argument and always plays (lines 281-292 of the test file expect `reset(false)` not to play);
  - nothing clears `isPlaying` when a passage ends (lines 512-517, 533-545 and 556-568 expect it to be false);
  - a four-word passage read one word at a time schedules four ticks, not five (lines 509-510 and 457 expect a fifth `setTimeout`).
- Positions past the end of the passage are not excluded. The position is never clamped, so `currentPosition <= words.length` does not hold after the last tick when `wordChunk` does not divide the words left, when `wordChunk > n`, or when `wordChunk == n - 1`. With `wordChunk == n` the single tick ends at exactly `n`.
- Tick.Ticks: a run is cut off after `fuel` ticks, because a sweeping run with `wordChunk == n - 1` never ends. Every lemma about a finite run asks for enough fuel.
- Speed and chunk size must be positive (`requires speed > 0 && wordChunk > 0`). The source does not check them: on a non-empty passage a zero chunk would tick forever without moving. A zero speed makes `60000 / speed` infinite, which timers do not treat as "never": browsers turn a non-finite delay into 0 ms and Node into 1 ms, so the ticks would fire back to back.
- `getWords` on non-string truthy values (numbers, objects), which a JavaScript caller could pass: the input is an optional string.
- JavaScript strings are UTF-16. The model's strings are sequences of Unicode characters, and `\s` is the set of code points the ECMAScript standard gives for it (WhiteSpace and LineTerminator): the same set for every passage without surrogate pairs.
