/**
 * The recording/playback engine of the keyboard recorder (src/main.cpp) as
 * values: the application state of one session, and one function per step the
 * engine takes on it. Recordable gives the entries recordInputs appends,
 * Releases the inputs releasePressedKeys hands to the key-synthesis primitive
 * (simulateInput), StartRecording and StartPlayback the new state, and
 * RunPlayback where the playback loop stops. PlaybackStep, Dispatch and
 * TickStep return a Step: the new state together with the inputs handed to
 * simulateInput, in the order they are handed over.
 */
module RecorderModel {

  /** KeyInput::press and KeyInput::release. */
  datatype KeyType = Press | Release

  /**
   * One key transition: the hardware scancode, the "extended key" flag and
   * whether the key went down or up (the C++ field `type`, here `kind`).
   */
  datatype KeyInput = KeyInput(scancode: nat, extended: bool, kind: KeyType)

  /** A captured key transition tagged with the frame it was captured on. */
  datatype RecordedInput = RecordedInput(key: KeyInput, frame: nat)

  datatype Mode = Idle | Recording | Playback | WaitingForRecordKey | WaitingForPlaybackKey

  datatype PlaybackSpeed = Normal | TrimStartup | Fast

  /**
   * The fields of AppData. One counter, recordingFrameNumber, serves as the
   * capture clock while recording and as the replay clock while playing back.
   */
  datatype AppState = AppState(
    recording: seq<RecordedInput>,
    mode: Mode,
    playbackSpeed: PlaybackSpeed,
    startRecordingKey: KeyInput,
    playbackRecordingKey: KeyInput,
    recordingFrameNumber: nat,
    nextPlaybackInputIndex: nat,
    enabled: bool,
    loop: bool)

  /** The state after a step, and what the step passed to simulateInput. */
  datatype Step = Step(state: AppState, out: seq<KeyInput>)

  /** Two key inputs name the same physical key: equal scancode and extended flag. */
  predicate SameKey(a: KeyInput, b: KeyInput)
  {
    a.scancode == b.scancode && a.extended == b.extended
  }

  /** Some event of the batch is a press of the key `target` names. */
  predicate PressedIn(keys: seq<KeyInput>, target: KeyInput): (r: bool)
    ensures r <==> target.(kind := Press) in keys
  {
    exists i :: 0 <= i < |keys| && keys[i].kind == Press && SameKey(keys[i], target)
  }

  /** The key inputs of a stretch of the recording, in order. */
  function Keys(rs: seq<RecordedInput>): (ks: seq<KeyInput>)
    ensures |ks| == |rs|
    ensures forall j :: 0 <= j < |rs| ==> ks[j] == rs[j].key
  {
    seq(|rs|, j requires 0 <= j < |rs| => rs[j].key)
  }

  /** Frame tags never decrease along the recording. */
  predicate FramesOrdered(rs: seq<RecordedInput>)
  {
    forall i, j :: 0 <= i < j < |rs| ==> rs[i].frame <= rs[j].frame
  }

  /**
   * What recordInputs appends for one batch: every event, press or release,
   * whose key is neither hotkey, tagged with `frame`, in batch order.
   */
  function Recordable(events: seq<KeyInput>, recordKey: KeyInput, playbackKey: KeyInput, frame: nat): (r: seq<RecordedInput>)
    ensures |r| <= |events|
    ensures forall j :: 0 <= j < |r| ==>
      r[j].frame == frame && r[j].key in events &&
      !SameKey(r[j].key, recordKey) && !SameKey(r[j].key, playbackKey)
  {
    if events == [] then []
    else
      var e := events[0];
      var head := if !SameKey(e, recordKey) && !SameKey(e, playbackKey) then [RecordedInput(e, frame)] else [];
      head + Recordable(events[1..], recordKey, playbackKey, frame)
  }

  /** Where the while loop of playbackInputs leaves the cursor and the clock. */
  datatype PlaybackRun = PlaybackRun(next: nat, frame: nat, out: seq<KeyInput>, reachedEnd: bool)

  /**
   * The while loop of playbackInputs, run from cursor `index` with the clock at
   * `frame`. `reachedEnd` is true when the loop ended because the cursor
   * reached the end of the recording, false when it returned early (the next
   * event is not due yet, or Fast speed emitted its one event).
   */
  function RunPlayback(recording: seq<RecordedInput>, speed: PlaybackSpeed, index: nat, frame: nat): (r: PlaybackRun)
    ensures index <= r.next
    ensures index <= |recording| ==> r.next <= |recording|
    decreases |recording| - index
  {
    if index >= |recording| then PlaybackRun(index, frame, [], true)
    else
      var clock := if index == 0 && speed == TrimStartup then recording[0].frame else frame;
      if speed == Fast then PlaybackRun(index + 1, clock, [recording[index].key], false)
      else if recording[index].frame > clock then PlaybackRun(index, clock, [], false)
      else
        var rest := RunPlayback(recording, speed, index + 1, clock);
        rest.(out := [recording[index].key] + rest.out)
  }

  /** playbackInputs: the loop, then the end-of-recording handling if the loop ran out. */
  function PlaybackStep(s: AppState): (r: Step)
    ensures r.state.recording == s.recording && r.state.playbackSpeed == s.playbackSpeed
    ensures r.state.startRecordingKey == s.startRecordingKey && r.state.playbackRecordingKey == s.playbackRecordingKey
    ensures r.state.enabled == s.enabled && r.state.loop == s.loop
    ensures r.state.mode == s.mode || (r.state.mode == Idle && !s.loop)
    ensures s.nextPlaybackInputIndex <= |s.recording| ==> r.state.nextPlaybackInputIndex <= |s.recording|
    ensures s.nextPlaybackInputIndex <= r.state.nextPlaybackInputIndex ||
            (s.loop && r.state.nextPlaybackInputIndex == 0 && r.state.recordingFrameNumber == 0)
  {
    var run := RunPlayback(s.recording, s.playbackSpeed, s.nextPlaybackInputIndex, s.recordingFrameNumber);
    var s' := s.(nextPlaybackInputIndex := run.next, recordingFrameNumber := run.frame);
    if !run.reachedEnd then Step(s', run.out)
    else if s.loop then Step(s'.(nextPlaybackInputIndex := 0, recordingFrameNumber := 0), run.out)
    else Step(s'.(mode := Idle), run.out)
  }

  /**
   * releasePressedKeys over the part of the recording already played: one
   * release of the same key for every press, in order, whether or not a
   * release of that key was played after it.
   */
  function Releases(played: seq<RecordedInput>): (r: seq<KeyInput>)
    ensures |r| <= |played|
    ensures forall j :: 0 <= j < |r| ==> r[j].kind == Release
  {
    if played == [] then []
    else
      var k := played[0].key;
      (if k.kind == Press then [k.(kind := Release)] else []) + Releases(played[1..])
  }

  /** startRecording, less the window title. */
  function StartRecording(s: AppState): (r: AppState)
    ensures r.mode == Recording && r.recording == [] && r.recordingFrameNumber == 0
    ensures r.(mode := s.mode, recording := s.recording, recordingFrameNumber := s.recordingFrameNumber) == s
  {
    s.(mode := Recording, recordingFrameNumber := 0, recording := [])
  }

  /** startPlayback, less the window title. */
  function StartPlayback(s: AppState): (r: AppState)
    ensures r.mode == Playback && r.recording == s.recording && CursorValid(r)
    ensures r.nextPlaybackInputIndex == 0 && r.recordingFrameNumber == 0
    ensures r.(mode := s.mode, nextPlaybackInputIndex := s.nextPlaybackInputIndex, recordingFrameNumber := s.recordingFrameNumber) == s
  {
    s.(mode := Playback, recordingFrameNumber := 0, nextPlaybackInputIndex := 0)
  }

  /** In Playback mode the cursor stays inside the recording (releasePressedKeys reads below it). */
  predicate CursorValid(s: AppState)
  {
    s.mode == Playback ==> s.nextPlaybackInputIndex <= |s.recording|
  }

  /**
   * The mode dispatch of one pass of the main loop, before the frame counter
   * is advanced. `leftPressed` is the left mouse button's press edge and
   * `windowActive` whether the recorder's window has the focus.
   */
  function Dispatch(s: AppState, keyEvents: seq<KeyInput>, leftPressed: bool, windowActive: bool): (r: Step)
    requires CursorValid(s)
    ensures CursorValid(r.state)
  {
    if s.mode == Idle && s.enabled then
      var s1 := if PressedIn(keyEvents, s.startRecordingKey) then StartRecording(s) else s;
      var s2 := if PressedIn(keyEvents, s.playbackRecordingKey) then StartPlayback(s1) else s1;
      Step(s2, [])
    else if s.mode == WaitingForRecordKey && windowActive then
      var s1 := if leftPressed then s.(mode := Idle) else s;
      Step(if |keyEvents| > 0 then s1.(startRecordingKey := keyEvents[0], mode := Idle) else s1, [])
    else if s.mode == WaitingForPlaybackKey && windowActive then
      var s1 := if leftPressed then s.(mode := Idle) else s;
      Step(if |keyEvents| > 0 then s1.(playbackRecordingKey := keyEvents[0], mode := Idle) else s1, [])
    else if s.mode == Recording then
      if PressedIn(keyEvents, s.startRecordingKey) then Step(s.(mode := Idle), [])
      else if PressedIn(keyEvents, s.playbackRecordingKey) then Step(StartPlayback(s), [])
      else
        var added := Recordable(keyEvents, s.startRecordingKey, s.playbackRecordingKey, s.recordingFrameNumber);
        Step(s.(recording := s.recording + added), [])
    else if s.mode == Playback then
      if !s.enabled then Step(s.(mode := Idle), [])
      else if PressedIn(keyEvents, s.startRecordingKey) then
        Step(StartRecording(s), Releases(s.recording[..s.nextPlaybackInputIndex]))
      else if PressedIn(keyEvents, s.playbackRecordingKey) then
        Step(StartPlayback(s), Releases(s.recording[..s.nextPlaybackInputIndex]))
      else PlaybackStep(s)
    else Step(s, [])
  }

  /** One pass of the main loop: the dispatch, then the unconditional frame advance. */
  function TickStep(s: AppState, keyEvents: seq<KeyInput>, leftPressed: bool, windowActive: bool): (r: Step)
    requires CursorValid(s)
    ensures CursorValid(r.state)
  {
    var d := Dispatch(s, keyEvents, leftPressed, windowActive);
    Step(d.state.(recordingFrameNumber := d.state.recordingFrameNumber + 1), d.out)
  }
}
