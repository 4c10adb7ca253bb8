/**
 * The arithmetic of one timer tick of the reader: how far the position moves,
 * which words become visible and whether another tick follows.
 */
module Tick {
  import opened Words

  const MillisecondsInMinute: nat := 60000
  /** The separator placed between the words of a visible chunk. */
  const WhitespaceSeparator: string := " "

  function Min(a: int, b: int): int {
    if a <= b then a else b
  }

  /**
   * The delay between ticks for `speed` words per minute, in whole
   * milliseconds: the largest count whose `speed` copies fit in a minute.
   */
  function Interval(speed: nat): (ms: nat)
    requires speed > 0
    ensures ms * speed <= MillisecondsInMinute < (ms + 1) * speed
  {
    MillisecondsInMinute / speed
  }

  /** One word per minute waits a minute; five wait twelve seconds. */
  lemma IntervalExamples()
    ensures Interval(1) == 60000 && Interval(5) == 12000 && Interval(250) == 240
  {
  }

  /**
   * `Array.prototype.slice(start, end)` for non-negative bounds: the
   * elements from `start` up to `end`, both clamped to the length.
   */
  function Slice<T>(s: seq<T>, start: nat, end: nat): seq<T> {
    var e := Min(end, |s|);
    if start < e then s[start..e] else []
  }

  /**
   * The slice holds the elements from `start` on, as many as fit before
   * both `end` and the end of the sequence; bounds past the end give the
   * empty slice rather than an error.
   */
  lemma SliceClamps<T>(s: seq<T>, start: nat, end: nat)
    ensures var r := Slice(s, start, end);
      && |r| == (if start < Min(end, |s|) then Min(end, |s|) - start else 0)
      && (forall i :: 0 <= i < |r| ==> start + i < |s| && r[i] == s[start + i])
      && (end <= start || |s| <= start ==> r == [])
      && (start <= end <= |s| ==> r == s[start..end])
  {
  }

  /**
   * What one tick computes from the words and the position before it:
   * the new position, the first word of the visible chunk, the visible
   * words, and whether the tick re-enters the scheduler (otherwise the
   * passage is finished).
   */
  datatype TickResult = TickResult(position: nat, start: nat, shown: seq<string>, again: bool)
  {
    /** The visible text: the shown words joined by single spaces. */
    function Text(): string {
      Join(shown, WhitespaceSeparator)
    }
  }

  /**
   * A chunk that covers all but at most one word of the passage is shown
   * from the first word; any other chunk starts where the last one ended.
   */
  predicate Sweeping(wordCount: nat, wordChunk: nat) {
    wordChunk >= wordCount - 1
  }

  /** The body of the scheduled tick. */
  function Step(words: seq<string>, wordChunk: nat, position: nat): TickResult
    requires wordChunk > 0
  {
    var next := position + wordChunk;
    var start := if Sweeping(|words|, wordChunk) then 0 else next - wordChunk;
    TickResult(next, start, Slice(words, start, next), start + wordChunk < |words|)
  }

  /**
   * Whatever the chunk size: the position moves by exactly one chunk,
   * never clamped to the passage; the visible words are consecutive words
   * of the passage from the chunk's start, never reaching past the new
   * position; and a tick that finishes has reached the end.
   */
  lemma StepShape(words: seq<string>, wordChunk: nat, position: nat)
    requires wordChunk > 0
    ensures var t := Step(words, wordChunk, position);
      && t.position == position + wordChunk
      && t.start <= position
      && t.start + |t.shown| <= t.position
      && (t.shown != [] ==> t.start + |t.shown| <= |words| && t.shown == words[t.start..t.start + |t.shown|])
      && (!t.again ==> t.position >= |words|)
  {
  }

  /**
   * Away from the sweeping case a tick shows the next `wordChunk` words
   * after the position (fewer at the end, none past it) and continues
   * exactly while the new position is still inside the passage.
   */
  lemma StepChunk(words: seq<string>, wordChunk: nat, position: nat)
    requires wordChunk > 0 && !Sweeping(|words|, wordChunk)
    ensures var t := Step(words, wordChunk, position);
      && t.start == position
      && t.shown == (if position < |words| then words[position..Min(position + wordChunk, |words|)] else [])
      && (t.again <==> position + wordChunk < |words|)
  {
  }

  /**
   * In the sweeping case a tick shows every word from the first up to the
   * new position, and continues exactly when the chunk is one word short
   * of the passage, whatever the position.
   */
  lemma StepSweep(words: seq<string>, wordChunk: nat, position: nat)
    requires wordChunk > 0 && Sweeping(|words|, wordChunk)
    ensures var t := Step(words, wordChunk, position);
      && t.start == 0
      && t.shown == words[..Min(position + wordChunk, |words|)]
      && (t.again <==> wordChunk == |words| - 1)
  {
  }

  /**
   * The ticks that follow one another while the reader keeps playing,
   * starting at `position`: each tick re-enters the scheduler or ends the
   * run. At most `fuel` ticks are taken (a sweeping run may never end).
   */
  function Ticks(words: seq<string>, wordChunk: nat, position: nat, fuel: nat): (ts: seq<TickResult>)
    requires wordChunk > 0
    ensures |ts| <= fuel
    ensures fuel > 0 ==> |ts| > 0
    decreases fuel
  {
    if fuel == 0 then []
    else
      var t := Step(words, wordChunk, position);
      [t] + (if t.again then Ticks(words, wordChunk, t.position, fuel - 1) else [])
  }

  /** The words shown by a run of ticks, one chunk after the other. */
  function ShownWords(ts: seq<TickResult>): seq<string> {
    if ts == [] then [] else ts[0].shown + ShownWords(ts[1..])
  }

  lemma ShownWordsCons(t: TickResult, rest: seq<TickResult>)
    ensures ShownWords([t] + rest) == t.shown + ShownWords(rest)
  {
    assert ([t] + rest)[1..] == rest;
  }

  /** The texts displayed by a run of ticks, one per tick. */
  function Texts(ts: seq<TickResult>): (texts: seq<string>)
    ensures |texts| == |ts|
  {
    if ts == [] then [] else [ts[0].Text()] + Texts(ts[1..])
  }

  /**
   * A run found so far, extended by its next tick, is still a prefix of
   * the whole run; what follows is the run from the tick's new position,
   * if the tick reschedules.
   */
  lemma RunExtends(words: seq<string>, wordChunk: nat, position: nat, fuel: nat,
                   done: seq<TickResult>, whole: seq<TickResult>, next: nat, again: bool)
    requires wordChunk > 0 && fuel > 0
    requires done + Ticks(words, wordChunk, position, fuel) == whole
    requires next == Step(words, wordChunk, position).position && again == Step(words, wordChunk, position).again
    ensures (done + [Step(words, wordChunk, position)]) + (if again then Ticks(words, wordChunk, next, fuel - 1) else []) == whole
  {
    TicksUnfold(words, wordChunk, position, fuel);
  }

  /** One more tick adds its text at the end of those displayed. */
  lemma {:induction false} TextsAppend(ts: seq<TickResult>, t: TickResult)
    ensures Texts(ts + [t]) == Texts(ts) + [t.Text()]
  {
    if ts != [] {
      assert (ts + [t])[1..] == ts[1..] + [t];
      TextsAppend(ts[1..], t);
    } else {
      assert ts + [t] == [t];
    }
  }

  /** The number of ticks a run takes to cover `remaining` words, `wordChunk` at a time. */
  function TicksNeeded(remaining: nat, wordChunk: nat): nat
    requires wordChunk > 0
  {
    if remaining <= wordChunk then 1 else 1 + TicksNeeded(remaining - wordChunk, wordChunk)
  }

  /** A run is its first tick followed, if that tick reschedules, by the run from where it leaves off. */
  lemma TicksUnfold(words: seq<string>, wordChunk: nat, position: nat, fuel: nat)
    requires wordChunk > 0 && fuel > 0
    ensures var t := Step(words, wordChunk, position);
      Ticks(words, wordChunk, position, fuel)
        == [t] + (if t.again then Ticks(words, wordChunk, t.position, fuel - 1) else [])
  {
  }

  /** A tick that leaves words after it shows a full chunk and reschedules. */
  lemma ChunkContinues(words: seq<string>, wordChunk: nat, position: nat)
    requires wordChunk > 0 && !Sweeping(|words|, wordChunk)
    requires position + wordChunk < |words|
    ensures var t := Step(words, wordChunk, position);
      && t.again && t.position == position + wordChunk
      && t.shown == words[position..position + wordChunk]
  {
    StepChunk(words, wordChunk, position);
  }

  /** A tick that reaches the end of the passage shows the words left and finishes. */
  lemma ChunkFinishes(words: seq<string>, wordChunk: nat, position: nat)
    requires wordChunk > 0 && !Sweeping(|words|, wordChunk)
    requires position <= |words| <= position + wordChunk
    ensures var t := Step(words, wordChunk, position);
      && !t.again && t.position >= |words|
      && t.shown == words[position..]
  {
    StepChunk(words, wordChunk, position);
  }

  /** A run that reschedules on its first tick keeps the shape of the run after it, one tick longer. */
  lemma RescheduledFirst(t: TickResult, rest: seq<TickResult>)
    requires t.again && rest != []
    requires forall i :: 0 <= i < |rest| - 1 ==> rest[i].again
    ensures var ts := [t] + rest;
      && |ts| == 1 + |rest|
      && ts[|ts| - 1] == rest[|rest| - 1]
      && forall i :: 0 <= i < |ts| - 1 ==> ts[i].again
  {
    var ts := [t] + rest;
    forall i | 0 <= i < |ts| - 1
      ensures ts[i].again
    {
      if i > 0 {
        assert ts[i] == rest[i - 1];
      }
    }
  }

  /**
   * Playing through an unswept passage from any position inside it takes
   * one tick per chunk; every tick but the last reschedules, and the last
   * one finishes at or past the end of the passage.
   */
  lemma {:induction false} PlaybackTicks(words: seq<string>, wordChunk: nat, position: nat, fuel: nat)
    requires wordChunk > 0 && !Sweeping(|words|, wordChunk)
    requires position <= |words|
    requires fuel >= TicksNeeded(|words| - position, wordChunk)
    ensures var ts := Ticks(words, wordChunk, position, fuel);
      && |ts| == TicksNeeded(|words| - position, wordChunk)
      && (forall i :: 0 <= i < |ts| - 1 ==> ts[i].again)
      && !ts[|ts| - 1].again
      && ts[|ts| - 1].position >= |words|
    decreases |words| - position
  {
    var t := Step(words, wordChunk, position);
    var ts := Ticks(words, wordChunk, position, fuel);
    TicksUnfold(words, wordChunk, position, fuel);
    if position + wordChunk < |words| {
      ChunkContinues(words, wordChunk, position);
      var rest := Ticks(words, wordChunk, position + wordChunk, fuel - 1);
      assert TicksNeeded(|words| - position, wordChunk) == 1 + TicksNeeded(|words| - (position + wordChunk), wordChunk);
      PlaybackTicks(words, wordChunk, position + wordChunk, fuel - 1);
      RescheduledFirst(t, rest);
    } else {
      ChunkFinishes(words, wordChunk, position);
      assert ts == [t];
    }
  }

  /** Playing through an unswept passage from any position inside it shows every remaining word once, in order. */
  lemma {:induction false} PlaybackCoversPassage(words: seq<string>, wordChunk: nat, position: nat, fuel: nat)
    requires wordChunk > 0 && !Sweeping(|words|, wordChunk)
    requires position <= |words|
    requires fuel >= TicksNeeded(|words| - position, wordChunk)
    ensures ShownWords(Ticks(words, wordChunk, position, fuel)) == words[position..]
    decreases |words| - position
  {
    var t := Step(words, wordChunk, position);
    TicksUnfold(words, wordChunk, position, fuel);
    if position + wordChunk < |words| {
      ChunkContinues(words, wordChunk, position);
      var rest := Ticks(words, wordChunk, position + wordChunk, fuel - 1);
      PlaybackCoversPassage(words, wordChunk, position + wordChunk, fuel - 1);
      ShownWordsCons(t, rest);
      assert words[position..] == words[position..position + wordChunk] + words[position + wordChunk..];
    } else {
      ChunkFinishes(words, wordChunk, position);
      ShownWordsCons(t, []);
    }
  }

  /**
   * A chunk at least as long as the passage shows the whole passage on
   * the first tick and finishes there.
   */
  lemma SweepFinishesAtOnce(words: seq<string>, wordChunk: nat, position: nat, fuel: nat)
    requires wordChunk >= |words| && wordChunk > 0 && fuel > 0
    ensures var ts := Ticks(words, wordChunk, position, fuel);
      && |ts| == 1 && ts[0].shown == words && !ts[0].again
  {
  }

  /**
   * A chunk exactly one word short of the passage never finishes: every
   * tick reschedules, the position grows by one chunk per tick without
   * bound, and each tick shows the words from the first up to the position.
   */
  lemma {:induction false} SweepNeverFinishes(words: seq<string>, wordChunk: nat, position: nat, fuel: nat)
    requires wordChunk > 0 && wordChunk == |words| - 1
    ensures var ts := Ticks(words, wordChunk, position, fuel);
      && |ts| == fuel
      && forall i :: 0 <= i < fuel ==>
           && ts[i].again
           && ts[i].position == position + (i + 1) * wordChunk
           && ts[i].shown == words[..Min(position + (i + 1) * wordChunk, |words|)]
    decreases fuel
  {
    if fuel > 0 {
      var t := Step(words, wordChunk, position);
      StepSweep(words, wordChunk, position);
      var rest := Ticks(words, wordChunk, t.position, fuel - 1);
      SweepNeverFinishes(words, wordChunk, t.position, fuel - 1);
      var ts := Ticks(words, wordChunk, position, fuel);
      assert ts == [t] + rest;
      forall i | 1 <= i < fuel
        ensures ts[i].position == position + (i + 1) * wordChunk
      {
        assert ts[i] == rest[i - 1];
        assert t.position + i * wordChunk == position + (i + 1) * wordChunk;
      }
    }
  }

  /** `TicksNeeded` is the rounded-up quotient of the remaining words by the chunk size. */
  lemma {:induction false} TicksNeededIsCeiling(remaining: nat, wordChunk: nat)
    requires wordChunk > 0 && remaining > 0
    ensures (TicksNeeded(remaining, wordChunk) - 1) * wordChunk < remaining
    ensures remaining <= TicksNeeded(remaining, wordChunk) * wordChunk
    decreases remaining
  {
    if remaining > wordChunk {
      var n := TicksNeeded(remaining - wordChunk, wordChunk);
      TicksNeededIsCeiling(remaining - wordChunk, wordChunk);
      assert (n + 1 - 1) * wordChunk == (n - 1) * wordChunk + wordChunk;
      assert (n + 1) * wordChunk == n * wordChunk + wordChunk;
    }
  }
}
