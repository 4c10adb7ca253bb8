/**
 * The component's documented behaviour on concrete passages, as client
 * code of the engine. A direct assignment to `r.state` stands for a test
 * calling `setState` from outside, which bypasses `update`.
 */
module Scenarios {
  import opened Wrappers
  import opened Words
  import opened Tick
  import opened SpeedyReader

  /** The words of the test passage "This is a test". */
  const Passage: seq<string> := ["This", "is", "a", "test"]

  lemma OneWordTicks()
    ensures Step(Passage, 1, 0) == TickResult(1, 0, ["This"], true)
    ensures Step(Passage, 1, 1) == TickResult(2, 1, ["is"], true)
    ensures Step(Passage, 1, 2) == TickResult(3, 2, ["a"], true)
    ensures Step(Passage, 1, 3) == TickResult(4, 3, ["test"], false)
  {
  }

  lemma ThreeWordTicks()
    ensures Step(Passage, 3, 0) == TickResult(3, 0, ["This", "is", "a"], true)
    ensures Step(Passage, 3, 3) == TickResult(6, 0, Passage, true)
    ensures Step(Passage, 3, 6) == TickResult(9, 0, Passage, true)
  {
  }

  lemma SixWordTick()
    ensures Step(Passage, 6, 0) == TickResult(6, 0, Passage, false)
  {
  }

  lemma PassageTexts()
    ensures Join(["This"], " ") == "This" && Join(["is"], " ") == "is"
    ensures Join(["a"], " ") == "a" && Join(["test"], " ") == "test"
    ensures Join(["This", "is", "a"], " ") == "This is a"
    ensures Join(Passage, " ") == "This is a test"
  {
  }

  /** Playing "This is a test" one word at a time is a run of four ticks, the last of which finishes. */
  lemma PassageRun()
    ensures Ticks(Passage, 1, 0, 4) == [
      TickResult(1, 0, ["This"], true), TickResult(2, 1, ["is"], true),
      TickResult(3, 2, ["a"], true), TickResult(4, 3, ["test"], false)]
    ensures Texts(Ticks(Passage, 1, 0, 4)) == ["This", "is", "a", "test"]
  {
    OneWordTicks();
    PassageTexts();
    TicksUnfold(Passage, 1, 0, 4);
    TicksUnfold(Passage, 1, 1, 3);
    TicksUnfold(Passage, 1, 2, 2);
    TicksUnfold(Passage, 1, 3, 1);
    var t1, t2, t3, t4 := TickResult(1, 0, ["This"], true), TickResult(2, 1, ["is"], true),
      TickResult(3, 2, ["a"], true), TickResult(4, 3, ["test"], false);
    assert t1.Text() == "This" && t2.Text() == "is" && t3.Text() == "a" && t4.Text() == "test";
    assert Texts([t4]) == ["test"];
    assert [t3, t4][1..] == [t4];
    assert Texts([t3, t4]) == ["a", "test"];
    assert [t2, t3, t4][1..] == [t3, t4];
    assert Texts([t2, t3, t4]) == ["is", "a", "test"];
    assert [t1, t2, t3, t4][1..] == [t2, t3, t4];
  }

  /**
   * A reader of "This is a test" without auto-play whose flag a test has
   * set and whose `update` it has called, as the timer tests of the
   * component begin.
   */
  method StartedReader(wordChunk: nat, hasOnFinish: bool) returns (r: Reader)
    requires wordChunk > 0
    ensures fresh(r) && r.Valid() && r.wordChunk == wordChunk && r.hasOnFinish == hasOnFinish
    ensures r.state == PlaybackState(0, "", true, Passage) && r.speed == 1
    ensures r.pending && r.interval == 60000 && r.schedules == 1 && r.finishCalls == 0
  {
    GetWordsSpaced();
    r := new Reader(Some("This is a test"), false, 1, wordChunk, hasOnFinish);
    r.state := r.state.(isPlaying := true);
    r.Update();
  }

  /** Reading "This is a test" one word a minute shows the four words in turn and then stops. */
  method ReadWholePassage() {
    PassageTexts();
    OneWordTicks();
    var r := StartedReader(1, false);
    r.Fire();
    assert r.state == PlaybackState(1, "This", true, Passage);
    assert r.schedules == 2 && r.pending;
    r.Fire();
    assert r.state.position == 2 && r.state.text == "is" && r.schedules == 3;
    r.Fire();
    assert r.state.position == 3 && r.state.text == "a" && r.schedules == 4;
    r.Fire();
    assert r.state == PlaybackState(4, "test", true, Passage);
    assert r.schedules == 4 && !r.pending && r.finishCalls == 0;
  }

  /** Running the timers through the passage shows its words in turn, ends on the last and calls `onFinish` once. */
  method RunWholePassage() {
    PassageRun();
    var r := StartedReader(1, true);
    var texts := RunTimers(r, 4);
    assert texts == ["This", "is", "a", "test"];
    assert r.state == PlaybackState(4, "test", true, Passage);
    assert !r.pending && r.finishCalls == 1;
  }

  /** A one-word passage is shown by one tick, after which `onFinish` is called once. */
  method ReadOneWord() {
    GetWordsOneWord();
    var r := new Reader(Some("This"), false, 1, 1, true);
    r.state := r.state.(isPlaying := true);
    r.Update();
    r.Fire();
    assert r.state == PlaybackState(1, "This", true, ["This"]);
    assert !r.pending && r.finishCalls == 1 && r.schedules == 1;
  }

  /** A chunk of six words on four shows the whole passage at once and finishes. */
  method ChunkLongerThanPassage() {
    GetWordsSpaced();
    PassageTexts();
    SixWordTick();
    var r := new Reader(Some("This is a test"), true, 1, 6, false);
    r.Mount();
    assert r.state.isPlaying && r.pending;
    r.Fire();
    assert r.state.position == 6 && r.state.text == "This is a test";
    assert !r.pending && r.finishCalls == 0;
  }

  /** A chunk of three words on four is one short of the passage: the reader never stops. */
  method ChunkOneShortOfPassage() {
    GetWordsSpaced();
    PassageTexts();
    ThreeWordTicks();
    var r := new Reader(Some("This is a test"), true, 1, 3, false);
    r.Mount();
    r.Fire();
    assert r.state.position == 3 && r.state.text == "This is a" && r.pending;
    r.Fire();
    assert r.state.position == 6 && r.state.text == "This is a test" && r.pending;
    r.Fire();
    assert r.state.position == 9 && r.state.text == "This is a test" && r.pending;
  }

  /** A tick that fires after the flag was cleared behind `update`'s back still advances, then stops. */
  method ClearedFlagStopsAfterTick() {
    PassageTexts();
    OneWordTicks();
    var r := StartedReader(1, false);
    r.Fire();
    assert r.state.text == "This" && r.schedules == 2;
    r.state := r.state.(isPlaying := false);
    r.Fire();
    assert r.state == PlaybackState(2, "is", false, Passage);
    assert r.schedules == 2 && !r.pending;
  }

  /**
   * Clearing the flag behind `update`'s back lets the pending tick show
   * "is" and schedule nothing; setting it again and calling `update`
   * resumes with "a", after four `setTimeout` calls in all.
   */
  method ResumeAfterClearedFlag() {
    PassageTexts();
    OneWordTicks();
    var r := StartedReader(1, false);
    r.Fire();
    assert r.state == PlaybackState(1, "This", true, Passage);
    r.state := r.state.(isPlaying := false);
    r.Fire();
    assert r.state == PlaybackState(2, "is", false, Passage);
    assert r.schedules == 2 && !r.pending;
    r.state := r.state.(isPlaying := true);
    r.Update();
    assert r.schedules == 3 && r.pending;
    r.Fire();
    assert r.state == PlaybackState(3, "a", true, Passage);
    assert r.schedules == 4 && r.pending;
  }

  /** Pausing cancels the pending tick; playing again resumes from the same position. */
  method PauseAndResume() {
    GetWordsSpaced();
    PassageTexts();
    OneWordTicks();
    var r := new Reader(Some("This is a test"), true, 5, 1, false);
    r.Mount();
    assert r.interval == 12000;
    r.Fire();
    r.Pause();
    assert !r.pending && !r.state.isPlaying && r.state.position == 1;
    r.Pause();
    assert !r.pending && r.state.position == 1 && r.state.text == "This";
    r.Play();
    assert r.pending;
    r.Fire();
    assert r.state.position == 2 && r.state.text == "is";
  }

  /** Reset restores the initial state and plays even without auto-play. */
  method ResetPlays() {
    GetWordsSpaced();
    var r := new Reader(Some("This is a test"), false, 1, 1, false);
    r.Mount();
    assert !r.pending && r.schedules == 0;
    r.Reset();
    assert r.state == PlaybackState(0, "", true, Passage);
    assert r.pending && r.schedules == 1;
  }

  /** Unmounting clears the timer only if one was ever set. */
  method UnmountClearsUsedTimer() {
    var r := new Reader(Some("This is a test"), true, 1, 1, false);
    r.Mount();
    r.Unmount();
    assert r.clears == 1 && !r.pending;
    var q := new Reader(Some("This is a test"), false, 1, 1, false);
    q.Mount();
    q.Unmount();
    assert q.clears == 0;
    q.Update();
    assert q.clears == 0 && q.schedules == 0;
  }
}
