/**
 * The playback engine of the `SpeedyReader` component: its state, the
 * transport operations, the timer that drives it, mounting and unmounting.
 *
 * The browser timer is modelled by the fields `pending` (a tick is
 * scheduled and has neither fired nor been cancelled) and `timerEverSet`
 * (the component's timer handle is no longer `null`); a tick firing is the
 * method `Fire`. The counters `schedules`, `clears` and `finishCalls` count
 * the calls to `setTimeout`, `clearTimeout` and the `onFinish` callback.
 */
module SpeedyReader {
  import opened Wrappers
  import opened Words
  import opened Tick

  /** The component state: `currentPosition`, `currentText`, `isPlaying`, `words`. */
  datatype PlaybackState = PlaybackState(position: nat, text: string, isPlaying: bool, words: seq<string>)

  /** `getInitialState`: nothing read yet, nothing shown, playing only with auto-play. */
  function InitialState(inputText: Option<string>, autoPlay: bool): (s: PlaybackState)
    ensures s.position == 0 && s.text == [] && s.isPlaying == autoPlay
    ensures s.words == GetWords(inputText) && AllWords(s.words)
  {
    PlaybackState(0, [], autoPlay, GetWords(inputText))
  }

  class Reader {
    // The component's properties, fixed for the life of the instance.
    const inputText: Option<string>
    const autoPlay: bool
    const speed: nat
    const wordChunk: nat
    const hasOnFinish: bool

    var state: PlaybackState
    var pending: bool
    var timerEverSet: bool
    /** The delay of the most recently scheduled tick, in milliseconds. */
    var interval: nat
    var schedules: nat
    var clears: nat
    var finishCalls: nat

    /** A tick can be pending only once a timer has been set; the words are the input's. */
    predicate Valid()
      reads this
    {
      && speed > 0 && wordChunk > 0
      && (pending ==> timerEverSet)
      && state.words == GetWords(inputText)
    }

    /**
     * What `update` does to the timer, given the state it read: the old
     * timer is cleared if one was ever set, and a tick is scheduled exactly
     * when playing, so the pending tick (if any) is always the new one.
     */
    twostate predicate Rescheduled()
      reads this
    {
      && speed > 0
      && clears == old(clears) + (if old(timerEverSet) then 1 else 0)
      && pending == state.isPlaying
      && timerEverSet == (old(timerEverSet) || state.isPlaying)
      && schedules == old(schedules) + (if state.isPlaying then 1 else 0)
      && interval == (if state.isPlaying then Interval(speed) else old(interval))
      && finishCalls == old(finishCalls)
    }

    /** The constructor: the initial state and no timer. */
    constructor (inputText: Option<string>, autoPlay: bool, speed: nat, wordChunk: nat, hasOnFinish: bool)
      requires speed > 0 && wordChunk > 0
      ensures Valid()
      ensures this.inputText == inputText && this.autoPlay == autoPlay && this.speed == speed
      ensures this.wordChunk == wordChunk && this.hasOnFinish == hasOnFinish
      ensures state == InitialState(inputText, autoPlay)
      ensures !pending && !timerEverSet && schedules == 0 && clears == 0 && finishCalls == 0
    {
      this.inputText := inputText;
      this.autoPlay := autoPlay;
      this.speed := speed;
      this.wordChunk := wordChunk;
      this.hasOnFinish := hasOnFinish;
      state := InitialState(inputText, autoPlay);
      pending, timerEverSet := false, false;
      interval, schedules, clears, finishCalls := 0, 0, 0, 0;
    }

    /** `componentDidMount`: start playing when auto-play is set, else do nothing. */
    method Mount()
      requires Valid()
      modifies this
      ensures Valid()
      ensures autoPlay ==> state == old(state).(isPlaying := true) && Rescheduled()
      ensures !autoPlay ==> unchanged(this)
    {
      if autoPlay {
        Play();
      }
    }

    /** `componentWillUnmount`: clear the timer if one was ever set, whether or not it is still pending. */
    method Unmount()
      requires Valid()
      modifies this
      ensures Valid()
      ensures !pending
      ensures clears == old(clears) + (if timerEverSet then 1 else 0)
      ensures state == old(state) && timerEverSet == old(timerEverSet)
      ensures schedules == old(schedules) && finishCalls == old(finishCalls) && interval == old(interval)
    {
      if timerEverSet {
        clears := clears + 1;
        pending := false;
      }
    }

    /** `pause`: stop playing; the pending tick is cancelled and none is scheduled. */
    method Pause()
      requires Valid()
      modifies this
      ensures Valid()
      ensures state == old(state).(isPlaying := false)
      ensures Rescheduled() && !pending
    {
      state := state.(isPlaying := false);
      Update();
    }

    /** `play`: start playing; exactly one tick is pending afterwards. */
    method Play()
      requires Valid()
      modifies this
      ensures Valid()
      ensures state == old(state).(isPlaying := true)
      ensures Rescheduled() && pending && schedules == old(schedules) + 1
    {
      state := state.(isPlaying := true);
      Update();
    }

    /** `reset`: back to the initial state, but playing whatever auto-play says, and a tick pending. */
    method Reset()
      requires Valid()
      modifies this
      ensures Valid()
      ensures state == InitialState(inputText, autoPlay).(isPlaying := true)
      ensures Rescheduled() && pending
    {
      state := InitialState(inputText, autoPlay).(isPlaying := true);
      Update();
    }

    /**
     * `update`: cancel the timer if one was ever set; if playing, schedule
     * one tick after `60000 / speed` milliseconds. The state is not touched.
     */
    method Update()
      requires Valid()
      modifies this
      ensures Valid()
      ensures state == old(state)
      ensures Rescheduled()
    {
      if timerEverSet {
        clears := clears + 1;
        pending := false;
      }
      if state.isPlaying {
        interval := Interval(speed);
        schedules := schedules + 1;
        pending, timerEverSet := true, true;
      }
    }

    /**
     * The scheduled tick fires: the position moves one chunk on, the
     * visible text becomes the chunk's words, and the tick either re-enters
     * `update` (which schedules the next tick only if still playing) or
     * reports the end of the passage to `onFinish`, if one is set.
     */
    method Fire()
      requires Valid() && pending
      modifies this
      ensures Valid()
      ensures var t := Step(old(state.words), wordChunk, old(state.position));
        && state == old(state).(position := t.position, text := t.Text())
        && (t.again ==> Rescheduled() && clears == old(clears) + 1)
        && (!t.again ==> !pending && schedules == old(schedules) && clears == old(clears))
        && timerEverSet
        && interval == (if t.again && state.isPlaying then Interval(speed) else old(interval))
        && finishCalls == old(finishCalls) + (if !t.again && hasOnFinish then 1 else 0)
    {
      pending := false;
      var t := Step(state.words, wordChunk, state.position);
      state := state.(position := t.position, text := t.Text());
      if t.again {
        Update();
      } else if hasOnFinish {
        finishCalls := finishCalls + 1;
      }
    }
  }

  /**
   * A tick that fires while playing keeps the reader playing; it is
   * followed by another pending tick exactly when it reschedules. This is
   * `Fire`'s contract narrowed to a playing reader, kept separate so that
   * the loop of `RunTimers` reasons about a small contract.
   */
  method FireWhilePlaying(r: Reader)
    requires r.Valid() && r.pending && r.state.isPlaying
    modifies r
    ensures r.Valid() && r.state.isPlaying && r.state.words == old(r.state.words)
    ensures var t := Step(old(r.state.words), r.wordChunk, old(r.state.position));
      && r.state.position == t.position && r.state.text == t.Text() && r.pending == t.again
    ensures r.finishCalls == old(r.finishCalls) + (if !r.pending && r.hasOnFinish then 1 else 0)
  {
    r.Fire();
  }

  /**
   * Lets every pending tick fire, up to `fuel` of them, as a test's fake
   * timers do, and returns the texts displayed. As long as nobody pauses,
   * the run is exactly the pure run of ticks over the input's words from
   * the starting position, and the reader is left as its last tick left it.
   */
  method RunTimers(r: Reader, fuel: nat) returns (texts: seq<string>)
    requires r.Valid() && r.pending && r.state.isPlaying
    modifies r
    ensures r.Valid() && r.state.isPlaying && r.state.words == old(r.state.words)
    ensures var ts := Ticks(GetWords(r.inputText), r.wordChunk, old(r.state.position), fuel);
      && texts == Texts(ts)
      && (fuel == 0 ==> r.state == old(r.state) && r.pending)
      && (fuel > 0 ==> && r.state.position == ts[|ts| - 1].position
                       && r.state.text == ts[|ts| - 1].Text()
                       && r.pending == ts[|ts| - 1].again)
    ensures r.finishCalls == old(r.finishCalls) + (if !r.pending && r.hasOnFinish then 1 else 0)
  {
    ghost var words, start := r.state.words, r.state.position;
    ghost var done: seq<TickResult> := [];
    texts := [];
    var k := 0;
    while k < fuel && r.pending
      invariant k <= fuel && |done| == k
      invariant r.Valid() && r.state.isPlaying && r.state.words == words
      invariant texts == Texts(done)
      invariant done + (if r.pending then Ticks(words, r.wordChunk, r.state.position, fuel - k) else [])
        == Ticks(words, r.wordChunk, start, fuel)
      invariant k == 0 ==> r.state == old(r.state) && r.pending
      invariant k > 0 ==> && r.state.position == done[k - 1].position
                          && r.state.text == done[k - 1].Text()
                          && r.pending == done[k - 1].again
      invariant r.finishCalls == old(r.finishCalls) + (if !r.pending && r.hasOnFinish then 1 else 0)
      decreases fuel - k
    {
      ghost var t := Step(words, r.wordChunk, r.state.position);
      ghost var position := r.state.position;
      FireWhilePlaying(r);
      RunExtends(words, r.wordChunk, position, fuel - k, done, Ticks(words, r.wordChunk, start, fuel), r.state.position, r.pending);
      TextsAppend(done, t);
      done := done + [t];
      texts := texts + [r.state.text];
      k := k + 1;
    }
    assert done + [] == done;
    assert done == Ticks(words, r.wordChunk, start, fuel);
  }
}
