/**
 * The engine of src/main.cpp as it runs: AppData is an object whose fields the
 * engine's procedures overwrite in place. Each engine procedure is proved
 * against the value-level step of RecorderModel that describes it; the
 * control-panel setters state the field they set. The ghost field `emitted`
 * is the log of what was handed to simulateInput.
 */
module Recorder {
  import opened RecorderModel
  import opened RecorderProperties

  /** keyWasPressed: a linear search for a press of `target` in the batch. */
  method KeyWasPressed(keys: seq<KeyInput>, target: KeyInput) returns (pressed: bool)
    ensures pressed <==> PressedIn(keys, target)
  {
    var i := 0;
    while i < |keys|
      invariant 0 <= i <= |keys|
      invariant forall j :: 0 <= j < i ==> !(keys[j].kind == Press && SameKey(keys[j], target))
    {
      if keys[i].kind == Press && keys[i].scancode == target.scancode && keys[i].extended == target.extended {
        return true;
      }
      i := i + 1;
    }
    return false;
  }

  class AppData {
    var recording: seq<RecordedInput>
    var mode: Mode
    var playbackSpeed: PlaybackSpeed
    var startRecordingKey: KeyInput
    var playbackRecordingKey: KeyInput
    var recordingFrameNumber: nat
    var nextPlaybackInputIndex: nat
    var enabled: bool
    var loop: bool
    /** Everything passed to simulateInput so far, oldest first. */
    ghost var emitted: seq<KeyInput>

    /** The fields as one value. */
    function State(): AppState
      reads this
    {
      AppState(recording, mode, playbackSpeed, startRecordingKey, playbackRecordingKey,
               recordingFrameNumber, nextPlaybackInputIndex, enabled, loop)
    }

    /**
     * The object invariant: the cursor stays inside the recording during
     * playback, and the frame tags are in order (below the counter while
     * recording).
     */
    ghost predicate Valid()
      reads this
    {
      RecordingWellFormed(State())
    }

    /**
     * The start of WinMain: a zeroed AppData whose two hotkeys get the
     * scancodes of F1 and F2 (looked up by the caller) and which is enabled.
     */
    constructor (recordScancode: nat, playbackScancode: nat)
      ensures Valid()
      ensures State() == AppState([], Idle, Normal, KeyInput(recordScancode, false, Press),
                                  KeyInput(playbackScancode, false, Press), 0, 0, true, false)
      ensures emitted == []
    {
      recording := [];
      mode := Idle;
      playbackSpeed := Normal;
      startRecordingKey := KeyInput(recordScancode, false, Press);
      playbackRecordingKey := KeyInput(playbackScancode, false, Press);
      recordingFrameNumber := 0;
      nextPlaybackInputIndex := 0;
      enabled := true;
      loop := false;
      emitted := [];
    }

    /** recordInputs: append each non-hotkey event of the batch, tagged with the current frame. */
    method RecordInputs(keyEvents: seq<KeyInput>)
      modifies this`recording
      ensures recording == old(recording) + Recordable(keyEvents, startRecordingKey, playbackRecordingKey, recordingFrameNumber)
    {
      for i := 0 to |keyEvents|
        invariant recording == old(recording) + Recordable(keyEvents[..i], startRecordingKey, playbackRecordingKey, recordingFrameNumber)
      {
        var key := keyEvents[i];
        RecordableSnoc(keyEvents[..i], key, startRecordingKey, playbackRecordingKey, recordingFrameNumber);
        assert keyEvents[..i + 1] == keyEvents[..i] + [key];
        if !(key.scancode == startRecordingKey.scancode && key.extended == startRecordingKey.extended)
          && !(key.scancode == playbackRecordingKey.scancode && key.extended == playbackRecordingKey.extended)
        {
          var action := RecordedInput(key, recordingFrameNumber);
          recording := recording + [action];
        }
      }
      assert keyEvents[..|keyEvents|] == keyEvents;
    }

    /** playbackInputs: emit what is due under the selected speed, then handle the end of the recording. */
    method PlaybackInputs()
      modifies this`nextPlaybackInputIndex, this`recordingFrameNumber, this`mode, this`emitted
      ensures State() == PlaybackStep(old(State())).state
      ensures emitted == old(emitted) + PlaybackStep(old(State())).out
    {
      ghost var goal := RunPlayback(recording, playbackSpeed, nextPlaybackInputIndex, recordingFrameNumber);
      while nextPlaybackInputIndex < |recording|
        invariant mode == old(mode)
        invariant Resumes(recording, playbackSpeed, nextPlaybackInputIndex, recordingFrameNumber, goal, emitted, old(emitted))
        decreases |recording| - nextPlaybackInputIndex
      {
        var inputIndex := nextPlaybackInputIndex;
        ghost var frameBefore := recordingFrameNumber;

        // TrimStartup moves the clock to the first event before playing it
        if inputIndex == 0 && playbackSpeed == TrimStartup {
          recordingFrameNumber := recording[0].frame;
        }

        if playbackSpeed == Fast {
          ResumesFast(recording, inputIndex, recordingFrameNumber, goal, emitted, old(emitted));
          emitted := emitted + [recording[inputIndex].key];
          nextPlaybackInputIndex := nextPlaybackInputIndex + 1;
          return;
        }

        if recording[inputIndex].frame > recordingFrameNumber {
          ResumesNotDue(recording, playbackSpeed, inputIndex, frameBefore, recordingFrameNumber, goal, emitted, old(emitted));
          return;
        }
        ResumesAfterDue(recording, playbackSpeed, inputIndex, frameBefore, recordingFrameNumber, goal, emitted, old(emitted));
        emitted := emitted + [recording[inputIndex].key];
        nextPlaybackInputIndex := nextPlaybackInputIndex + 1;
      }
      ResumesAtEnd(recording, playbackSpeed, nextPlaybackInputIndex, recordingFrameNumber, goal, emitted, old(emitted));
      if loop {
        nextPlaybackInputIndex := 0;
        recordingFrameNumber := 0;
      } else {
        mode := Idle;
      }
    }

    /** releasePressedKeys: a release for every press already played, in order. */
    method ReleasePressedKeys()
      requires nextPlaybackInputIndex <= |recording|
      modifies this`emitted
      ensures emitted == old(emitted) + Releases(recording[..nextPlaybackInputIndex])
    {
      for i := 0 to nextPlaybackInputIndex
        invariant emitted == old(emitted) + Releases(recording[..i])
      {
        ReleasesAppend(recording[..i], [recording[i]]);
        assert recording[..i + 1] == recording[..i] + [recording[i]];
        if recording[i].key.kind == Press {
          var release := recording[i].key.(kind := Release);
          emitted := emitted + [release];
        }
      }
    }

    /** startRecording */
    method StartRecording()
      modifies this
      ensures State() == RecorderModel.StartRecording(old(State()))
      ensures emitted == old(emitted)
    {
      mode := Recording;
      recordingFrameNumber := 0;
      recording := [];
    }

    /** startPlayback */
    method StartPlayback()
      modifies this
      ensures State() == RecorderModel.StartPlayback(old(State()))
      ensures emitted == old(emitted)
    {
      mode := Playback;
      recordingFrameNumber := 0;
      nextPlaybackInputIndex := 0;
    }

    /** One pass of the main loop of WinMain: the mode dispatch and the frame advance. */
    method Tick(keyEvents: seq<KeyInput>, leftPressed: bool, windowActive: bool)
      requires Valid()
      modifies this
      ensures Valid()
      ensures State() == TickStep(old(State()), keyEvents, leftPressed, windowActive).state
      ensures emitted == old(emitted) + TickStep(old(State()), keyEvents, leftPressed, windowActive).out
    {
      Dispatch(keyEvents, leftPressed, windowActive);
      recordingFrameNumber := recordingFrameNumber + 1;
      TickKeepsRecordingWellFormed(old(State()), keyEvents, leftPressed, windowActive);
    }

    /** The if/else chain on the mode inside the main loop of WinMain. */
    method Dispatch(keyEvents: seq<KeyInput>, leftPressed: bool, windowActive: bool)
      requires CursorValid(State())
      modifies this
      ensures State() == RecorderModel.Dispatch(old(State()), keyEvents, leftPressed, windowActive).state
      ensures emitted == old(emitted) + RecorderModel.Dispatch(old(State()), keyEvents, leftPressed, windowActive).out
    {
      if mode == Idle && enabled {
        var p := KeyWasPressed(keyEvents, startRecordingKey);
        if p {
          StartRecording();
        }
        p := KeyWasPressed(keyEvents, playbackRecordingKey);
        if p {
          StartPlayback();
        }
      } else if mode == WaitingForRecordKey && windowActive {
        if leftPressed {
          mode := Idle;
        }
        if |keyEvents| > 0 {
          startRecordingKey := keyEvents[0];
          mode := Idle;
        }
      } else if mode == WaitingForPlaybackKey && windowActive {
        if leftPressed {
          mode := Idle;
        }
        if |keyEvents| > 0 {
          playbackRecordingKey := keyEvents[0];
          mode := Idle;
        }
      } else if mode == Recording {
        var p := KeyWasPressed(keyEvents, startRecordingKey);
        if p {
          mode := Idle;
        } else {
          var q := KeyWasPressed(keyEvents, playbackRecordingKey);
          if q {
            StartPlayback();
          } else {
            RecordInputs(keyEvents);
          }
        }
      } else if mode == Playback {
        if !enabled {
          mode := Idle;
        } else {
          var p := KeyWasPressed(keyEvents, startRecordingKey);
          if p {
            ReleasePressedKeys();
            StartRecording();
          } else {
            var q := KeyWasPressed(keyEvents, playbackRecordingKey);
            if q {
              ReleasePressedKeys();
              StartPlayback();
            } else {
              PlaybackInputs();
            }
          }
        }
      }
    }

    /** The "Record key" button of the control panel. */
    method RequestRecordKey()
      requires Valid()
      modifies this`mode
      ensures mode == WaitingForRecordKey
      ensures Valid()
    {
      mode := WaitingForRecordKey;
    }

    /** The "Playback key" button of the control panel. */
    method RequestPlaybackKey()
      requires Valid()
      modifies this`mode
      ensures mode == WaitingForPlaybackKey
      ensures Valid()
    {
      mode := WaitingForPlaybackKey;
    }

    /** The playback speed radio buttons. */
    method SelectPlaybackSpeed(speed: PlaybackSpeed)
      requires Valid()
      modifies this`playbackSpeed
      ensures playbackSpeed == speed
      ensures Valid()
    {
      playbackSpeed := speed;
    }

    /** The "Loop" checkbox. */
    method SetLoop(on: bool)
      requires Valid()
      modifies this`loop
      ensures loop == on
      ensures Valid()
    {
      loop := on;
    }

    /** The "Enabled" checkbox. */
    method SetEnabled(on: bool)
      requires Valid()
      modifies this`enabled
      ensures enabled == on
      ensures Valid()
    {
      enabled := on;
    }
  }
}
