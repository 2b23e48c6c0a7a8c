/**
 * What the engine of src/main.cpp promises, stated and proved about the
 * value-level steps of RecorderModel.
 */
module RecorderProperties {
  import opened RecorderModel

  // ---------------------------------------------------------------------
  // recordInputs
  // ---------------------------------------------------------------------

  /** Capturing two batches one after the other appends what each would append. */
  lemma {:induction false} RecordableAppend(xs: seq<KeyInput>, ys: seq<KeyInput>, recordKey: KeyInput, playbackKey: KeyInput, frame: nat)
    ensures Recordable(xs + ys, recordKey, playbackKey, frame)
         == Recordable(xs, recordKey, playbackKey, frame) + Recordable(ys, recordKey, playbackKey, frame)
  {
    if xs == [] {
      assert xs + ys == ys;
    } else {
      assert (xs + ys)[0] == xs[0];
      assert (xs + ys)[1..] == xs[1..] + ys;
      RecordableAppend(xs[1..], ys, recordKey, playbackKey, frame);
    }
  }

  /** Capturing one more event appends it, tagged, unless its key is a hotkey. */
  lemma RecordableSnoc(xs: seq<KeyInput>, k: KeyInput, recordKey: KeyInput, playbackKey: KeyInput, frame: nat)
    ensures Recordable(xs + [k], recordKey, playbackKey, frame)
         == Recordable(xs, recordKey, playbackKey, frame) +
            (if !SameKey(k, recordKey) && !SameKey(k, playbackKey) then [RecordedInput(k, frame)] else [])
  {
    RecordableAppend(xs, [k], recordKey, playbackKey, frame);
    assert [k][1..] == [];
  }

  // ---------------------------------------------------------------------
  // releasePressedKeys
  // ---------------------------------------------------------------------

  /** Releasing over two stretches of the recording emits what each would, in order. */
  lemma {:induction false} ReleasesAppend(xs: seq<RecordedInput>, ys: seq<RecordedInput>)
    ensures Releases(xs + ys) == Releases(xs) + Releases(ys)
  {
    if xs == [] {
      assert xs + ys == ys;
    } else {
      assert (xs + ys)[0] == xs[0];
      assert (xs + ys)[1..] == xs[1..] + ys;
      ReleasesAppend(xs[1..], ys);
    }
  }

  // ---------------------------------------------------------------------
  // keyWasPressed
  // ---------------------------------------------------------------------

  /** Adding an event to a batch makes the target pressed exactly when that event is a press of it. */
  lemma PressedInExtend(keys: seq<KeyInput>, k: KeyInput, target: KeyInput)
    ensures PressedIn(keys + [k], target) <==> PressedIn(keys, target) || (k.kind == Press && SameKey(k, target))
  {
    if PressedIn(keys, target) {
      var i :| 0 <= i < |keys| && keys[i].kind == Press && SameKey(keys[i], target);
      assert (keys + [k])[i] == keys[i];
    }
    if k.kind == Press && SameKey(k, target) {
      assert (keys + [k])[|keys|] == k;
    }
  }

  /** keyWasPressed looks for an event equal to the target with its type set to press. */
  lemma PressedInIsPressOf(keys: seq<KeyInput>, target: KeyInput)
    ensures PressedIn(keys, target) <==> exists i :: 0 <= i < |keys| && keys[i] == target.(kind := Press)
  {
    if PressedIn(keys, target) {
      var i :| 0 <= i < |keys| && keys[i].kind == Press && SameKey(keys[i], target);
      assert keys[i] == target.(kind := Press);
    }
  }

  /** A batch of releases never counts as a press, whatever keys it releases. */
  lemma ReleaseBatchPressesNothing(keys: seq<KeyInput>, target: KeyInput)
    requires forall i :: 0 <= i < |keys| ==> keys[i].kind == Release
    ensures !PressedIn(keys, target)
  {
  }

  // ---------------------------------------------------------------------
  // recordInputs (continued)
  // ---------------------------------------------------------------------

  /** Every event of the batch whose key is neither hotkey is captured, press or release. */
  lemma {:induction false} RecordableComplete(events: seq<KeyInput>, recordKey: KeyInput, playbackKey: KeyInput, frame: nat, j: nat)
    requires j < |events|
    requires !SameKey(events[j], recordKey) && !SameKey(events[j], playbackKey)
    ensures RecordedInput(events[j], frame) in Recordable(events, recordKey, playbackKey, frame)
  {
    if j > 0 {
      assert events[1..][j - 1] == events[j];
      RecordableComplete(events[1..], recordKey, playbackKey, frame, j - 1);
    }
  }

  /** A batch that does not touch either hotkey is captured whole and in order. */
  lemma RecordableKeepsOrder(events: seq<KeyInput>, recordKey: KeyInput, playbackKey: KeyInput, frame: nat)
    requires forall j :: 0 <= j < |events| ==> !SameKey(events[j], recordKey) && !SameKey(events[j], playbackKey)
    ensures Keys(Recordable(events, recordKey, playbackKey, frame)) == events
  {
    RecordableTagsAll(events, recordKey, playbackKey, frame);
  }

  /** The element-by-element form of RecordableKeepsOrder. */
  lemma {:induction false} RecordableTagsAll(events: seq<KeyInput>, recordKey: KeyInput, playbackKey: KeyInput, frame: nat)
    requires forall j :: 0 <= j < |events| ==> !SameKey(events[j], recordKey) && !SameKey(events[j], playbackKey)
    ensures var r := Recordable(events, recordKey, playbackKey, frame);
      |r| == |events| && forall j :: 0 <= j < |r| ==> r[j].key == events[j]
  {
    if events != [] {
      RecordableTagsAll(events[1..], recordKey, playbackKey, frame);
      var rest := Recordable(events[1..], recordKey, playbackKey, frame);
      var r := Recordable(events, recordKey, playbackKey, frame);
      assert r == [RecordedInput(events[0], frame)] + rest;
      forall j | 0 < j < |r|
        ensures r[j].key == events[j]
      {
        assert r[j] == rest[j - 1] && events[1..][j - 1] == events[j];
      }
    }
  }

  /** A batch made only of hotkey events, pressed or released, captures nothing. */
  lemma {:induction false} RecordableSkipsHotkeys(events: seq<KeyInput>, recordKey: KeyInput, playbackKey: KeyInput, frame: nat)
    requires forall j :: 0 <= j < |events| ==> SameKey(events[j], recordKey) || SameKey(events[j], playbackKey)
    ensures Recordable(events, recordKey, playbackKey, frame) == []
  {
    if events != [] {
      RecordableSkipsHotkeys(events[1..], recordKey, playbackKey, frame);
    }
  }

  // ---------------------------------------------------------------------
  // playbackInputs
  // ---------------------------------------------------------------------

  lemma KeysAppend(xs: seq<RecordedInput>, ys: seq<RecordedInput>)
    ensures Keys(xs + ys) == Keys(xs) + Keys(ys)
  {
    assert |Keys(xs + ys)| == |Keys(xs) + Keys(ys)|;
    forall j | 0 <= j < |xs + ys|
      ensures Keys(xs + ys)[j] == (Keys(xs) + Keys(ys))[j]
    {
      if j < |xs| {
        assert (xs + ys)[j] == xs[j];
      } else {
        assert (xs + ys)[j] == ys[j - |xs|];
      }
    }
  }

  lemma SliceCons<T>(xs: seq<T>, i: nat, n: nat)
    requires i < n <= |xs|
    ensures xs[i..n] == [xs[i]] + xs[i + 1..n]
  {
  }

  /**
   * One call plays a contiguous stretch of the recording, in index order,
   * starting at the cursor. The loop runs out only at the end of the
   * recording, and except under Fast it returns early only before an event.
   */
  lemma {:induction false} RunPlaybackPlaysStretch(recording: seq<RecordedInput>, speed: PlaybackSpeed, index: nat, frame: nat)
    requires index <= |recording|
    ensures var r := RunPlayback(recording, speed, index, frame);
      r.out == Keys(recording[index..r.next]) &&
      (r.reachedEnd ==> r.next == |recording|) &&
      (!r.reachedEnd && speed != Fast ==> r.next < |recording|)
    decreases |recording| - index
  {
    var r := RunPlayback(recording, speed, index, frame);
    if index == |recording| {
      assert recording[index..index] == [];
    } else {
      var clock := if index == 0 && speed == TrimStartup then recording[0].frame else frame;
      if speed == Fast {
        assert r.out == [recording[index].key];
        SliceCons(recording, index, index + 1);
        assert Keys([recording[index]]) == [recording[index].key];
      } else if recording[index].frame > clock {
        assert r.out == [];
        assert recording[index..index] == [];
      } else {
        RunPlaybackPlaysStretch(recording, speed, index + 1, clock);
        var rest := RunPlayback(recording, speed, index + 1, clock);
        assert r == rest.(out := [recording[index].key] + rest.out);
        SliceCons(recording, index, rest.next);
        KeysAppend([recording[index]], recording[index + 1..rest.next]);
        assert Keys([recording[index]]) == [recording[index].key];
        assert r.out == Keys([recording[index]]) + Keys(recording[index + 1..rest.next]);
      }
    }
  }

  /**
   * Normal and TrimStartup play only events that are due (frame tag at most
   * the clock) and stop at the first one that is not, without passing it.
   * The clock is left alone, except that TrimStartup at cursor 0 first sets
   * it to the first event's frame.
   */
  lemma {:induction false} RunPlaybackPlaysOnlyDue(recording: seq<RecordedInput>, speed: PlaybackSpeed, index: nat, frame: nat)
    requires speed != Fast
    ensures var r := RunPlayback(recording, speed, index, frame);
      r.frame == (if index == 0 && speed == TrimStartup && |recording| > 0 then recording[0].frame else frame) &&
      (forall j :: index <= j < r.next && j < |recording| ==> recording[j].frame <= r.frame) &&
      (!r.reachedEnd ==> r.next < |recording| && recording[r.next].frame > r.frame)
    decreases |recording| - index
  {
    if index < |recording| {
      var clock := if index == 0 && speed == TrimStartup then recording[0].frame else frame;
      if recording[index].frame <= clock {
        RunPlaybackPlaysOnlyDue(recording, speed, index + 1, clock);
      }
    }
  }

  /**
   * The loop of playbackInputs has emitted `emitted` since it began at
   * `start`, and running on from cursor `index` and clock `frame` finishes as
   * `goal`, the run from the start, does.
   */
  ghost predicate Resumes(recording: seq<RecordedInput>, speed: PlaybackSpeed, index: nat, frame: nat,
                          goal: PlaybackRun, emitted: seq<KeyInput>, start: seq<KeyInput>)
  {
    var run := RunPlayback(recording, speed, index, frame);
    run.next == goal.next && run.frame == goal.frame && run.reachedEnd == goal.reachedEnd &&
    emitted + run.out == start + goal.out
  }

  /** Playing a due event keeps the loop on course. */
  lemma ResumesAfterDue(recording: seq<RecordedInput>, speed: PlaybackSpeed, index: nat, frame: nat, clock: nat,
                        goal: PlaybackRun, emitted: seq<KeyInput>, start: seq<KeyInput>)
    requires index < |recording| && speed != Fast
    requires clock == if index == 0 && speed == TrimStartup then recording[0].frame else frame
    requires recording[index].frame <= clock
    requires Resumes(recording, speed, index, frame, goal, emitted, start)
    ensures Resumes(recording, speed, index + 1, clock, goal, emitted + [recording[index].key], start)
  {
    var rest := RunPlayback(recording, speed, index + 1, clock).out;
    assert (emitted + [recording[index].key]) + rest == emitted + ([recording[index].key] + rest);
  }

  /** Under Fast the loop plays the event at the cursor and returns. */
  lemma ResumesFast(recording: seq<RecordedInput>, index: nat, frame: nat,
                    goal: PlaybackRun, emitted: seq<KeyInput>, start: seq<KeyInput>)
    requires index < |recording|
    requires Resumes(recording, Fast, index, frame, goal, emitted, start)
    ensures goal.next == index + 1 && goal.frame == frame && !goal.reachedEnd
    ensures emitted + [recording[index].key] == start + goal.out
  {
  }

  /** An event not yet due makes the loop return where it is. */
  lemma ResumesNotDue(recording: seq<RecordedInput>, speed: PlaybackSpeed, index: nat, frame: nat, clock: nat,
                      goal: PlaybackRun, emitted: seq<KeyInput>, start: seq<KeyInput>)
    requires index < |recording| && speed != Fast
    requires clock == if index == 0 && speed == TrimStartup then recording[0].frame else frame
    requires recording[index].frame > clock
    requires Resumes(recording, speed, index, frame, goal, emitted, start)
    ensures goal.next == index && goal.frame == clock && !goal.reachedEnd
    ensures emitted == start + goal.out
  {
    assert emitted + [] == emitted;
  }

  /** The loop runs out at the end of the recording. */
  lemma ResumesAtEnd(recording: seq<RecordedInput>, speed: PlaybackSpeed, index: nat, frame: nat,
                     goal: PlaybackRun, emitted: seq<KeyInput>, start: seq<KeyInput>)
    requires index >= |recording|
    requires Resumes(recording, speed, index, frame, goal, emitted, start)
    ensures goal.next == index && goal.frame == frame && goal.reachedEnd
    ensures emitted == start + goal.out
  {
    assert emitted + [] == emitted;
  }

  /** Under Fast a call with events left plays exactly the one at the cursor, whatever its frame. */
  lemma FastPlaysOne(recording: seq<RecordedInput>, index: nat, frame: nat)
    requires index < |recording|
    ensures var r := RunPlayback(recording, Fast, index, frame);
      r.next == index + 1 && r.out == [recording[index].key] && !r.reachedEnd
  {
  }

  /** Normal speed with every remaining event due plays the rest of the recording and runs out. */
  lemma {:induction false} NormalPlaysAllDue(recording: seq<RecordedInput>, index: nat, frame: nat)
    requires index <= |recording|
    requires FramesOrdered(recording)
    requires |recording| > 0 ==> recording[|recording| - 1].frame <= frame
    ensures var r := RunPlayback(recording, Normal, index, frame);
      r.reachedEnd && r.next == |recording| && r.out == Keys(recording[index..])
  {
    RunPlaybackPlaysStretch(recording, Normal, index, frame);
    RunPlaybackPlaysOnlyDue(recording, Normal, index, frame);
  }

  /**
   * Once the cursor is at the end (an empty recording included) a call plays
   * nothing and either rewinds cursor and clock, with loop set, or goes Idle.
   */
  lemma PlaybackAtEnd(s: AppState)
    requires s.nextPlaybackInputIndex >= |s.recording|
    ensures PlaybackStep(s).out == []
    ensures s.loop ==> PlaybackStep(s).state == s.(nextPlaybackInputIndex := 0, recordingFrameNumber := 0)
    ensures !s.loop ==> PlaybackStep(s).state == s.(mode := Idle)
  {
  }

  /** With loop set, running out of the recording puts playback where startPlayback would. */
  lemma LoopRewindsLikeStart(s: AppState)
    requires s.mode == Playback && s.loop
    requires s.nextPlaybackInputIndex >= |s.recording|
    ensures PlaybackStep(s) == Step(StartPlayback(s), [])
  {
  }

  /**
   * Fast plays the last event and returns; only the following call notices
   * the end and loops or goes Idle.
   */
  lemma FastEndIsDeferred(s: AppState)
    requires s.playbackSpeed == Fast && |s.recording| > 0
    requires s.nextPlaybackInputIndex == |s.recording| - 1
    ensures var first := PlaybackStep(s);
      first.out == [s.recording[|s.recording| - 1].key] &&
      first.state.mode == s.mode &&
      first.state.nextPlaybackInputIndex == |s.recording| &&
      PlaybackStep(first.state).out == [] &&
      PlaybackStep(first.state).state.mode == (if s.loop then s.mode else Idle)
  {
  }

  /**
   * The cursor only moves forward and never past the end of the recording,
   * except for the rewind to 0 that loop mode does at the end.
   */
  lemma PlaybackCursorAdvances(s: AppState)
    requires s.nextPlaybackInputIndex <= |s.recording|
    ensures var t := PlaybackStep(s).state;
      t.nextPlaybackInputIndex <= |s.recording| &&
      (s.nextPlaybackInputIndex <= t.nextPlaybackInputIndex ||
       (s.loop && t.nextPlaybackInputIndex == 0 && t.recordingFrameNumber == 0))
  {
  }

  /** TrimStartup at cursor 0 makes the first event due at once: the call plays it first. */
  lemma TrimStartupPlaysFirstAtOnce(s: AppState)
    requires s.playbackSpeed == TrimStartup && s.nextPlaybackInputIndex == 0 && |s.recording| > 0
    ensures PlaybackStep(s).out != [] && PlaybackStep(s).out[0] == s.recording[0].key
  {
  }

  // ---------------------------------------------------------------------
  // releasePressedKeys (continued)
  // ---------------------------------------------------------------------

  /** Every press already played gets its release, even one whose release was played too. */
  lemma {:induction false} ReleasesComplete(played: seq<RecordedInput>, j: nat)
    requires j < |played| && played[j].key.kind == Press
    ensures played[j].key.(kind := Release) in Releases(played)
  {
    if j > 0 {
      assert played[1..][j - 1] == played[j];
      ReleasesComplete(played[1..], j - 1);
    }
  }

  /** Every release emitted is the release of a key some played press pressed. */
  lemma {:induction false} ReleasesSound(played: seq<RecordedInput>, k: KeyInput)
    requires k in Releases(played)
    ensures exists j :: 0 <= j < |played| && played[j].key.kind == Press && k == played[j].key.(kind := Release)
  {
    var key := played[0].key;
    var head := if key.kind == Press then [key.(kind := Release)] else [];
    if k in head {
      assert played[0].key.kind == Press && k == played[0].key.(kind := Release);
    } else {
      ReleasesSound(played[1..], k);
      var j :| 0 <= j < |played[1..]| && played[1..][j].key.kind == Press && k == played[1..][j].key.(kind := Release);
      assert played[j + 1] == played[1..][j];
    }
  }

  /** The number of press events in a stretch of the recording. */
  function CountPresses(played: seq<RecordedInput>): nat
  {
    if played == [] then 0
    else (if played[0].key.kind == Press then 1 else 0) + CountPresses(played[1..])
  }

  /** Exactly one release per played press: no more, no fewer. */
  lemma {:induction false} ReleasesOnePerPress(played: seq<RecordedInput>)
    ensures |Releases(played)| == CountPresses(played)
  {
    if played != [] {
      ReleasesOnePerPress(played[1..]);
    }
  }

  /**
   * A press whose own release was played after it, so that the key is up
   * again, is still released again: the pass does not track held keys.
   */
  lemma ReleasesOverRelease(played: seq<RecordedInput>, j: nat, j': nat)
    requires j < j' < |played|
    requires played[j].key.kind == Press && played[j'].key == played[j].key.(kind := Release)
    ensures played[j'].key in Releases(played)
  {
    ReleasesComplete(played, j);
  }

  // ---------------------------------------------------------------------
  // The mode dispatch of the main loop
  // ---------------------------------------------------------------------

  /** Idle with the engine disabled ignores every input; only the frame advances. */
  lemma IdleDisabledIgnoresInput(s: AppState, keyEvents: seq<KeyInput>, leftPressed: bool, windowActive: bool)
    requires s.mode == Idle && !s.enabled
    ensures TickStep(s, keyEvents, leftPressed, windowActive)
         == Step(s.(recordingFrameNumber := s.recordingFrameNumber + 1), [])
  {
  }

  /**
   * Idle and enabled: the record hotkey starts a new, empty recording and the
   * playback hotkey starts playback from the top. The two checks are
   * independent; when both hotkeys are pressed in one batch the second wins,
   * and playback starts on the recording the first has just emptied.
   */
  lemma IdleTick(s: AppState, keyEvents: seq<KeyInput>, leftPressed: bool, windowActive: bool)
    requires s.mode == Idle && s.enabled
    ensures var r := TickStep(s, keyEvents, leftPressed, windowActive);
      var rec := PressedIn(keyEvents, s.startRecordingKey);
      var play := PressedIn(keyEvents, s.playbackRecordingKey);
      r.out == [] &&
      (!rec && !play ==> r.state == s.(recordingFrameNumber := s.recordingFrameNumber + 1)) &&
      (rec && !play ==> r.state == s.(mode := Recording, recording := [], recordingFrameNumber := 1)) &&
      (play ==> r.state == s.(mode := Playback, nextPlaybackInputIndex := 0, recordingFrameNumber := 1,
                              recording := if rec then [] else s.recording))
  {
  }

  /**
   * Recording: the record hotkey stops and keeps what was captured, the
   * playback hotkey switches straight to playback from the top, and any other
   * batch is captured under the current frame.
   */
  lemma RecordingTick(s: AppState, keyEvents: seq<KeyInput>, leftPressed: bool, windowActive: bool)
    requires s.mode == Recording
    ensures var r := TickStep(s, keyEvents, leftPressed, windowActive);
      var rec := PressedIn(keyEvents, s.startRecordingKey);
      var play := PressedIn(keyEvents, s.playbackRecordingKey);
      r.out == [] &&
      (rec ==> r.state == s.(mode := Idle, recordingFrameNumber := s.recordingFrameNumber + 1)) &&
      (!rec && play ==> r.state == s.(mode := Playback, nextPlaybackInputIndex := 0, recordingFrameNumber := 1)) &&
      (!rec && !play ==> r.state == s.(recording := s.recording + Recordable(keyEvents, s.startRecordingKey, s.playbackRecordingKey, s.recordingFrameNumber),
                                       recordingFrameNumber := s.recordingFrameNumber + 1))
  {
  }

  /**
   * Playback: a disabled engine drops to Idle before looking at the hotkeys
   * (and without the release pass); either hotkey releases the played presses
   * and then restarts; otherwise the scheduler runs.
   */
  lemma PlaybackTick(s: AppState, keyEvents: seq<KeyInput>, leftPressed: bool, windowActive: bool)
    requires s.mode == Playback && s.nextPlaybackInputIndex <= |s.recording|
    ensures var r := TickStep(s, keyEvents, leftPressed, windowActive);
      var rec := PressedIn(keyEvents, s.startRecordingKey);
      var play := PressedIn(keyEvents, s.playbackRecordingKey);
      var released := Releases(s.recording[..s.nextPlaybackInputIndex]);
      (!s.enabled ==> r == Step(s.(mode := Idle, recordingFrameNumber := s.recordingFrameNumber + 1), [])) &&
      (s.enabled && rec ==> r == Step(s.(mode := Recording, recording := [], recordingFrameNumber := 1), released)) &&
      (s.enabled && !rec && play ==> r == Step(s.(nextPlaybackInputIndex := 0, recordingFrameNumber := 1), released)) &&
      (s.enabled && !rec && !play ==>
        var p := PlaybackStep(s);
        r == Step(p.state.(recordingFrameNumber := p.state.recordingFrameNumber + 1), p.out))
  {
  }

  /**
   * Waiting for a hotkey: nothing happens unless the window is active. Then
   * the first event of the batch, press or release, becomes the hotkey even
   * when the mouse was clicked too; a click alone cancels; with neither the
   * mode stays.
   */
  lemma WaitingTick(s: AppState, keyEvents: seq<KeyInput>, leftPressed: bool, windowActive: bool)
    requires s.mode == WaitingForRecordKey || s.mode == WaitingForPlaybackKey
    ensures var r := TickStep(s, keyEvents, leftPressed, windowActive);
      var s' := s.(recordingFrameNumber := s.recordingFrameNumber + 1);
      r.out == [] &&
      (!windowActive || (!leftPressed && keyEvents == []) ==> r.state == s') &&
      (windowActive && keyEvents == [] && leftPressed ==> r.state == s'.(mode := Idle)) &&
      (windowActive && keyEvents != [] && s.mode == WaitingForRecordKey ==>
        r.state == s'.(mode := Idle, startRecordingKey := keyEvents[0])) &&
      (windowActive && keyEvents != [] && s.mode == WaitingForPlaybackKey ==>
        r.state == s'.(mode := Idle, playbackRecordingKey := keyEvents[0]))
  {
  }

  /**
   * What the main loop keeps true of the recording: frame tags never
   * decrease, and while recording every tag is below the frame counter, so
   * the next batch, tagged with the counter, keeps them ordered.
   */
  predicate RecordingWellFormed(s: AppState)
  {
    CursorValid(s) && FramesOrdered(s.recording) &&
    (s.mode == Recording ==> forall j :: 0 <= j < |s.recording| ==> s.recording[j].frame < s.recordingFrameNumber)
  }

  lemma TickKeepsRecordingWellFormed(s: AppState, keyEvents: seq<KeyInput>, leftPressed: bool, windowActive: bool)
    requires RecordingWellFormed(s)
    ensures RecordingWellFormed(TickStep(s, keyEvents, leftPressed, windowActive).state)
  {
    if s.mode == Recording && !PressedIn(keyEvents, s.startRecordingKey) && !PressedIn(keyEvents, s.playbackRecordingKey) {
      BatchKeepsOrder(s.recording, Recordable(keyEvents, s.startRecordingKey, s.playbackRecordingKey, s.recordingFrameNumber), s.recordingFrameNumber);
    }
  }

  /** Appending a batch tagged with a frame later than every tag so far keeps the tags ordered. */
  lemma BatchKeepsOrder(rs: seq<RecordedInput>, added: seq<RecordedInput>, frame: nat)
    requires FramesOrdered(rs) && forall j :: 0 <= j < |rs| ==> rs[j].frame < frame
    requires forall j :: 0 <= j < |added| ==> added[j].frame == frame
    ensures FramesOrdered(rs + added)
    ensures forall j :: 0 <= j < |rs + added| ==> (rs + added)[j].frame < frame + 1
  {
    var all := rs + added;
    forall i, j | 0 <= i < j < |all|
      ensures all[i].frame <= all[j].frame
    {
      if j >= |rs| {
        assert all[j] == added[j - |rs|];
        if i < |rs| {
          assert all[i] == rs[i];
        } else {
          assert all[i] == added[i - |rs|];
        }
      } else {
        assert all[i] == rs[i] && all[j] == rs[j];
      }
    }
    forall j | 0 <= j < |all|
      ensures all[j].frame < frame + 1
    {
      if j < |rs| {
        assert all[j] == rs[j];
      } else {
        assert all[j] == added[j - |rs|];
      }
    }
  }

  // ---------------------------------------------------------------------
  // Several passes of the main loop
  // ---------------------------------------------------------------------

  /** `n` passes of the main loop with no key events and no click; the outputs concatenated. */
  function QuietTicks(s: AppState, n: nat): (r: Step)
    requires CursorValid(s)
    ensures CursorValid(r.state)
    decreases n
  {
    if n == 0 then Step(s, [])
    else
      var first := TickStep(s, [], false, false);
      var rest := QuietTicks(first.state, n - 1);
      Step(rest.state, first.out + rest.out)
  }

  /** Playing `rs[i..j]` and then `rs[j..]` plays `rs[i..]`. */
  lemma KeysSplit(rs: seq<RecordedInput>, i: nat, j: nat, a: seq<KeyInput>, b: seq<KeyInput>)
    requires i <= j <= |rs| && a == Keys(rs[i..j]) && b == Keys(rs[j..])
    ensures a + b == Keys(rs[i..])
  {
    assert rs[i..] == rs[i..j] + rs[j..];
    KeysAppend(rs[i..j], rs[j..]);
  }

  /** The first pass of a run of quiet passes, split off. */
  lemma QuietTicksFirst(s: AppState, n: nat)
    requires CursorValid(s) && n > 0
    ensures var first := TickStep(s, [], false, false);
      var rest := QuietTicks(first.state, n - 1);
      QuietTicks(s, n) == Step(rest.state, first.out + rest.out)
  {
  }

  /** A quiet pass in enabled Playback is the scheduler's step followed by the frame advance. */
  lemma QuietPlaybackTick(s: AppState)
    requires s.mode == Playback && s.enabled && s.nextPlaybackInputIndex <= |s.recording|
    ensures var p := PlaybackStep(s);
      TickStep(s, [], false, false) == Step(p.state.(recordingFrameNumber := p.state.recordingFrameNumber + 1), p.out)
  {
    assert !PressedIn([], s.startRecordingKey) && !PressedIn([], s.playbackRecordingKey);
  }

  /** Idle stays Idle and silent when nothing is pressed. */
  lemma {:induction false} QuietIdleStaysIdle(s: AppState, n: nat)
    requires s.mode == Idle
    ensures QuietTicks(s, n).out == [] && QuietTicks(s, n).state.mode == Idle
    decreases n
  {
    if n > 0 {
      QuietIdleStaysIdle(TickStep(s, [], false, false).state, n - 1);
    }
  }

  /**
   * Fast playback of the events left after the cursor takes one pass of the
   * main loop per event, plays them all in order, and is still in Playback
   * then; without loop the pass after that goes Idle.
   */
  lemma {:induction false} FastPlaybackOnePassPerEvent(s: AppState)
    requires s.mode == Playback && s.enabled && s.playbackSpeed == Fast
    requires s.nextPlaybackInputIndex <= |s.recording|
    ensures var n := |s.recording| - s.nextPlaybackInputIndex;
      var r := QuietTicks(s, n);
      r.out == Keys(s.recording[s.nextPlaybackInputIndex..]) &&
      r.state.mode == Playback && r.state.nextPlaybackInputIndex == |s.recording| &&
      (!s.loop ==> QuietTicks(r.state, 1).out == [] && QuietTicks(r.state, 1).state.mode == Idle)
    decreases |s.recording| - s.nextPlaybackInputIndex
  {
    var i := s.nextPlaybackInputIndex;
    if i == |s.recording| {
      FastPlaybackAtEnd(s);
    } else {
      var s1 := s.(nextPlaybackInputIndex := i + 1, recordingFrameNumber := s.recordingFrameNumber + 1);
      FastPlaybackOnePassPerEvent(s1);
      FastRunFirst(s);
    }
  }

  /**
   * The step of FastPlaybackOnePassPerEvent: when the passes after the first
   * play the rest of the recording, end in Playback at the end and (loop
   * unset) go Idle one pass later, so does the whole run.
   */
  lemma FastRunFirst(s: AppState)
    requires s.mode == Playback && s.enabled && s.playbackSpeed == Fast
    requires s.nextPlaybackInputIndex < |s.recording|
    requires var s1 := s.(nextPlaybackInputIndex := s.nextPlaybackInputIndex + 1, recordingFrameNumber := s.recordingFrameNumber + 1);
      var r := QuietTicks(s1, |s.recording| - s1.nextPlaybackInputIndex);
      r.out == Keys(s.recording[s1.nextPlaybackInputIndex..]) &&
      r.state.mode == Playback && r.state.nextPlaybackInputIndex == |s.recording| &&
      (!s.loop ==> QuietTicks(r.state, 1).out == [] && QuietTicks(r.state, 1).state.mode == Idle)
    ensures var n := |s.recording| - s.nextPlaybackInputIndex;
      var r := QuietTicks(s, n);
      r.out == Keys(s.recording[s.nextPlaybackInputIndex..]) &&
      r.state.mode == Playback && r.state.nextPlaybackInputIndex == |s.recording| &&
      (!s.loop ==> QuietTicks(r.state, 1).out == [] && QuietTicks(r.state, 1).state.mode == Idle)
  {
    FastFirst(s, |s.recording| - s.nextPlaybackInputIndex);
    KeysCons(s.recording, s.nextPlaybackInputIndex);
  }

  /** The key inputs of the recording from `i` on: the one at `i`, then the rest. */
  lemma KeysCons(rs: seq<RecordedInput>, i: nat)
    requires i < |rs|
    ensures Keys(rs[i..]) == [rs[i].key] + Keys(rs[i + 1..])
  {
    SliceCons(rs, i, |rs|);
    KeysAppend([rs[i]], rs[i + 1..]);
    assert Keys([rs[i]]) == [rs[i].key];
  }

  /** The first of the passes in FastPlaybackOnePassPerEvent: the event at the cursor. */
  lemma FastFirst(s: AppState, n: nat)
    requires s.mode == Playback && s.enabled && s.playbackSpeed == Fast
    requires s.nextPlaybackInputIndex < |s.recording| && n > 0
    ensures var s1 := s.(nextPlaybackInputIndex := s.nextPlaybackInputIndex + 1, recordingFrameNumber := s.recordingFrameNumber + 1);
      var rest := QuietTicks(s1, n - 1);
      QuietTicks(s, n) == Step(rest.state, [s.recording[s.nextPlaybackInputIndex].key] + rest.out)
  {
    FastQuietTick(s);
    QuietTicksFirst(s, n);
  }

  /** A quiet pass of Fast playback with events left plays the next one. */
  lemma FastQuietTick(s: AppState)
    requires s.mode == Playback && s.enabled && s.playbackSpeed == Fast
    requires s.nextPlaybackInputIndex < |s.recording|
    ensures TickStep(s, [], false, false) ==
      Step(s.(nextPlaybackInputIndex := s.nextPlaybackInputIndex + 1, recordingFrameNumber := s.recordingFrameNumber + 1),
           [s.recording[s.nextPlaybackInputIndex].key])
  {
    QuietPlaybackTick(s);
  }

  /** Fast playback with the cursor at the end: nothing more, and without loop the next pass goes Idle. */
  lemma FastPlaybackAtEnd(s: AppState)
    requires s.mode == Playback && s.enabled && s.playbackSpeed == Fast
    requires s.nextPlaybackInputIndex == |s.recording|
    ensures QuietTicks(s, 0) == Step(s, [])
    ensures !s.loop ==> QuietTicks(s, 1).out == [] && QuietTicks(s, 1).state.mode == Idle
  {
    QuietPlaybackTick(s);
    QuietTicksFirst(s, 1);
    assert s.recording[|s.recording|..] == [];
  }

  /**
   * One quiet pass of Normal playback plays the due stretch after the cursor;
   * it goes Idle (loop unset) if that reaches the end, and otherwise stops
   * before an event tagged later than the clock, which then advances by one.
   */
  lemma NormalQuietTick(s: AppState)
    requires s.mode == Playback && s.enabled && s.playbackSpeed == Normal && !s.loop
    requires s.nextPlaybackInputIndex <= |s.recording|
    ensures var first := TickStep(s, [], false, false);
      var run := RunPlayback(s.recording, Normal, s.nextPlaybackInputIndex, s.recordingFrameNumber);
      first.out == Keys(s.recording[s.nextPlaybackInputIndex..run.next]) &&
      (run.reachedEnd ==> first.state.mode == Idle && run.next == |s.recording|) &&
      (!run.reachedEnd ==>
        run.next < |s.recording| && s.recording[run.next].frame > s.recordingFrameNumber &&
        first.state == s.(nextPlaybackInputIndex := run.next, recordingFrameNumber := s.recordingFrameNumber + 1))
  {
    RunPlaybackPlaysStretch(s.recording, Normal, s.nextPlaybackInputIndex, s.recordingFrameNumber);
    RunPlaybackPlaysOnlyDue(s.recording, Normal, s.nextPlaybackInputIndex, s.recordingFrameNumber);
    QuietPlaybackTick(s);
  }

  /**
   * Normal playback, not looping, of a recording whose frame tags are in
   * order: once the clock has caught up with the last tag, within the given
   * passes, it has played every remaining event in order and gone Idle.
   */
  lemma {:induction false} NormalPlaybackCompletes(s: AppState, n: nat)
    requires s.mode == Playback && s.enabled && s.playbackSpeed == Normal && !s.loop
    requires s.nextPlaybackInputIndex <= |s.recording| && FramesOrdered(s.recording)
    requires n > 0
    requires |s.recording| > 0 ==> s.recording[|s.recording| - 1].frame < s.recordingFrameNumber + n
    ensures QuietTicks(s, n).out == Keys(s.recording[s.nextPlaybackInputIndex..])
    ensures QuietTicks(s, n).state.mode == Idle
    decreases n, 1
  {
    if RunPlayback(s.recording, Normal, s.nextPlaybackInputIndex, s.recordingFrameNumber).reachedEnd {
      NormalPlaybackEndsNow(s, n);
    } else {
      NormalPlaybackWaits(s, n);
    }
  }

  /** The case of NormalPlaybackCompletes where the first pass plays to the end. */
  lemma NormalPlaybackEndsNow(s: AppState, n: nat)
    requires s.mode == Playback && s.enabled && s.playbackSpeed == Normal && !s.loop
    requires s.nextPlaybackInputIndex <= |s.recording| && n > 0
    requires RunPlayback(s.recording, Normal, s.nextPlaybackInputIndex, s.recordingFrameNumber).reachedEnd
    ensures QuietTicks(s, n).out == Keys(s.recording[s.nextPlaybackInputIndex..])
    ensures QuietTicks(s, n).state.mode == Idle
  {
    NormalQuietTick(s);
    var first := TickStep(s, [], false, false);
    QuietTicksFirst(s, n);
    QuietIdleStaysIdle(first.state, n - 1);
    assert s.recording[s.nextPlaybackInputIndex..|s.recording|] == s.recording[s.nextPlaybackInputIndex..];
  }

  /** The case of NormalPlaybackCompletes where the first pass stops at an event not yet due. */
  lemma {:induction false} NormalPlaybackWaits(s: AppState, n: nat)
    requires s.mode == Playback && s.enabled && s.playbackSpeed == Normal && !s.loop
    requires s.nextPlaybackInputIndex <= |s.recording| && FramesOrdered(s.recording)
    requires n > 0
    requires |s.recording| > 0 ==> s.recording[|s.recording| - 1].frame < s.recordingFrameNumber + n
    requires !RunPlayback(s.recording, Normal, s.nextPlaybackInputIndex, s.recordingFrameNumber).reachedEnd
    ensures QuietTicks(s, n).out == Keys(s.recording[s.nextPlaybackInputIndex..])
    ensures QuietTicks(s, n).state.mode == Idle
    decreases n, 0
  {
    var i := s.nextPlaybackInputIndex;
    var j := RunPlayback(s.recording, Normal, i, s.recordingFrameNumber).next;
    var s1 := s.(nextPlaybackInputIndex := j, recordingFrameNumber := s.recordingFrameNumber + 1);
    NormalWaitLeavesTime(s, n);
    NormalPlaybackCompletes(s1, n - 1);
    NormalWaitFirst(s, n);
  }

  /** The pass in NormalPlaybackWaits leaves a pass to spare for the rest of the recording. */
  lemma NormalWaitLeavesTime(s: AppState, n: nat)
    requires s.playbackSpeed == Normal && FramesOrdered(s.recording)
    requires |s.recording| > 0 ==> s.recording[|s.recording| - 1].frame < s.recordingFrameNumber + n
    requires !RunPlayback(s.recording, Normal, s.nextPlaybackInputIndex, s.recordingFrameNumber).reachedEnd
    ensures n - 1 > 0
    // the requires above, restated for the next pass's clock: the premise of NormalPlaybackCompletes(s1, n - 1)
    ensures s.recording[|s.recording| - 1].frame < s.recordingFrameNumber + 1 + (n - 1)
  {
    var j := RunPlayback(s.recording, Normal, s.nextPlaybackInputIndex, s.recordingFrameNumber).next;
    RunPlaybackPlaysOnlyDue(s.recording, Normal, s.nextPlaybackInputIndex, s.recordingFrameNumber);
    var last := |s.recording| - 1;
    if j < last {
      assert s.recording[j].frame <= s.recording[last].frame;
    }
  }

  /**
   * The first of the passes in NormalPlaybackWaits plays the due stretch;
   * when the passes after it play the rest and end Idle, the whole run does.
   */
  lemma NormalWaitFirst(s: AppState, n: nat)
    requires s.mode == Playback && s.enabled && s.playbackSpeed == Normal && !s.loop
    requires s.nextPlaybackInputIndex <= |s.recording| && n > 0
    requires !RunPlayback(s.recording, Normal, s.nextPlaybackInputIndex, s.recordingFrameNumber).reachedEnd
    requires var run := RunPlayback(s.recording, Normal, s.nextPlaybackInputIndex, s.recordingFrameNumber);
      var s1 := s.(nextPlaybackInputIndex := run.next, recordingFrameNumber := s.recordingFrameNumber + 1);
      QuietTicks(s1, n - 1).out == Keys(s.recording[run.next..]) && QuietTicks(s1, n - 1).state.mode == Idle
    ensures QuietTicks(s, n).out == Keys(s.recording[s.nextPlaybackInputIndex..])
    ensures QuietTicks(s, n).state.mode == Idle
  {
    var i := s.nextPlaybackInputIndex;
    var j := RunPlayback(s.recording, Normal, i, s.recordingFrameNumber).next;
    var s1 := s.(nextPlaybackInputIndex := j, recordingFrameNumber := s.recordingFrameNumber + 1);
    NormalQuietTick(s);
    QuietTicksFirst(s, n);
    KeysSplit(s.recording, i, j, Keys(s.recording[i..j]), QuietTicks(s1, n - 1).out);
  }
}
