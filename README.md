# Keyboard recorder engine in Dafny

This project models the core of Keyboard Recorder, a small Windows tool that
captures key transitions and replays them. The tool runs a frame loop like a
game's: one pass of the main loop is one frame.

- In **Recording** mode the tool appends each key transition to a recording. Each one is tagged with the current frame number. The two hotkeys are never recorded.
- In **Playback** mode it hands the recorded transitions back to the key synthesiser (`simulateInput`) under one of three timing policies:
  - **Normal** replays at the original spacing.
  - **TrimStartup** first skips the idle lead-in.
  - **Fast** plays one event per frame.
- When either hotkey interrupts playback, the tool releases every key it pressed. Two other ways out of Playback release nothing:
  - disabling the engine, which goes to Idle;
  - the panel's "Record key" and "Playback key" buttons. The panel is updated in every mode while the window is active, so these buttons can switch mode in the middle of playback.
- Two waiting modes rebind the record and playback hotkeys.

The files:

- `recorder_model.dfy` (module `RecorderModel`) states the engine as values:
  - `KeyInput`, `RecordedInput` and the `AppState` record of the fields of `AppData`;
  - one function per engine step: `Recordable`, `RunPlayback`/`PlaybackStep`, `Releases`, `StartRecording`, `StartPlayback`, `Dispatch`, `TickStep`.
  
  What each step returns:
  - `Recordable` returns the entries that `recordInputs` appends.
  - `Releases` returns the inputs that `releasePressedKeys` hands to `simulateInput`.
  - `StartRecording` and `StartPlayback` return the new state.
  - `RunPlayback` returns where the playback loop stops, and what it played.
  - `PlaybackStep`, `Dispatch` and `TickStep` return a `Step`: the new state together with the inputs handed to `simulateInput`, in order.
- `recorder.dfy` (module `Recorder`) is the engine as it runs.
  - `AppData` is a class whose methods overwrite its fields the way the C++ procedures do.
  - Each of these methods is proved to leave the object, and the ghost log `emitted` of everything passed to `simulateInput`, as the matching step of `RecorderModel` computes: `RecordInputs`, `PlaybackInputs`, `ReleasePressedKeys`, `StartRecording`, `StartPlayback`, `Dispatch` and `Tick`.
  - The constructor and the five control-panel setters have no step in `RecorderModel`. Each of them states the fields it sets and keeps the object invariant `Valid`.
  - `Valid` says that the cursor stays inside the recording during playback and that the frame tags are in order, below the frame counter while recording.
  - `KeyWasPressed` is the loop search of `keyWasPressed`.
- `recorder_properties.dfy` (module `RecorderProperties`) proves what the engine promises, as lemmas about those steps, including:
  - capture order and the hotkey filter;
  - due-only and in-order playback;
  - the Fast and loop edge cases;
  - the release pass;
  - each mode's transitions;
  - the frame-order invariant of the recording;
  - multi-frame runs of Fast and Normal playback.
- `dynamic_array.dfy` (module `DynamicArrays`) is the growable array of `src/DynamicArray.h`. It is a class over a Dafny array, proved against its abstract contents.
- `platform.dfy` (module `Platform`) is the button edge detector `updateButton` of `src/Platform.h`, with its one-update-only properties.

Some behaviour of the code is easy to misread. The model follows the code in each case and proves it:

- `releasePressedKeys` releases every press already played, even one whose own release was played after it (`ReleasesOverRelease`).
- It does not track which keys are still held.
- While waiting for a hotkey, the first event of the frame becomes the new hotkey, press or release. This happens even when the mouse was also clicked in that frame (`WaitingTick`).
- Capture and playback share one frame counter.
  - The counter advances every frame in every mode, Fast included.
  - Entering Playback from Idle or Recording sets it to 0 and the same pass then adds 1. Normal playback therefore treats an event tagged `f` as due on the `f`-th pass after the one that started playback.
- Under Fast, playing the last event returns at once. The end of the recording (loop or Idle) is handled one pass later (`FastEndIsDeferred`).
- In Idle both hotkey checks run. When both hotkeys are pressed in one frame, playback starts on the recording the record hotkey has just emptied (`IdleTick`).
- Disabling the engine during playback goes to Idle without releasing anything (`PlaybackTick`).

## Model

| member | source | states |
|---|---|---|
| Recorder.KeyWasPressed | src/main.cpp:162-170 | the search answers true exactly when some event of the batch is a press whose scancode and extended flag match the target's |
| RecorderProperties.PressedInIsPressOf | src/main.cpp:165 | a match is exactly an event equal to the target with its type set to press |
| RecorderProperties.PressedInExtend | src/main.cpp:164-168 | one more event makes the target pressed exactly when it is itself a press of that key |
| RecorderModel.PressedIn | src/main.cpp:162-170 | a batch holds a press of the target's key exactly when it contains the target with its type set to press |
| RecorderProperties.ReleaseBatchPressesNothing | src/main.cpp:165 | a batch of releases never counts as a press of any key |
| RecorderModel.Recordable | src/main.cpp:95-110 | what one batch adds is no longer than the batch; every added entry is a batch event tagged with the current frame, and neither hotkey is among them |
| Recorder.AppData.RecordInputs | src/main.cpp:95-110 | the recording becomes the old recording followed by the batch's non-hotkey events, each tagged with the current frame; nothing else changes |
| RecorderProperties.RecordableAppend | src/main.cpp:97-109 | capturing two batches one after the other appends what each would append, in order |
| RecorderProperties.RecordableSnoc | src/main.cpp:99-108 | one more event is appended, tagged, exactly when its key is neither hotkey |
| RecorderProperties.RecordableComplete | src/main.cpp:101-107 | every batch event whose key is neither hotkey is captured, press or release alike |
| RecorderProperties.RecordableKeepsOrder | src/main.cpp:97-109 | a batch that does not touch either hotkey is captured whole and in batch order |
| RecorderProperties.RecordableTagsAll | src/main.cpp:97-109 | the element-by-element form: the i-th entry captured is the i-th event |
| RecorderProperties.RecordableSkipsHotkeys | src/main.cpp:100-102 | a batch made only of hotkey events, pressed or released, captures nothing |
| RecorderModel.RunPlayback | src/main.cpp:114-138 | the while loop of playbackInputs: the cursor never moves back and never passes the end of the recording |
| RecorderProperties.RunPlaybackPlaysStretch | src/main.cpp:114-138 | one call plays the contiguous stretch of the recording from the cursor to where it stops, in index order; it runs out only at the end, and except under Fast it returns early only with an event left |
| RecorderProperties.RunPlaybackPlaysOnlyDue | src/main.cpp:118-137 | Normal and TrimStartup play only events tagged at or before the clock and stop at the first later one; the clock is untouched unless TrimStartup starts at cursor 0, which sets it to the first tag |
| RecorderProperties.FastPlaysOne | src/main.cpp:124-129 | under Fast a call with events left plays exactly the event at the cursor, whatever its tag, and returns |
| RecorderProperties.NormalPlaysAllDue | src/main.cpp:131-138 | with tags in order and the last one due, Normal plays the rest of the recording and runs out |
| RecorderProperties.ResumesAfterDue | src/main.cpp:131-137 | playing a due event keeps the loop on course to the whole call's result |
| RecorderProperties.ResumesFast | src/main.cpp:124-129 | the Fast branch's early return is where the whole call ends |
| RecorderProperties.ResumesNotDue | src/main.cpp:132-135 | the not-yet-due return is where the whole call ends, with nothing more played |
| RecorderProperties.ResumesAtEnd | src/main.cpp:114-139 | the loop running out is the whole call reaching the end of the recording |
| RecorderModel.PlaybackStep | src/main.cpp:112-147 | recording, speed, hotkeys, enabled and loop are kept; the mode is kept, or goes Idle only when loop is unset; a cursor inside the recording stays inside it; the cursor never moves back, except for the loop rewind, which sets cursor and clock to 0 |
| Recorder.AppData.PlaybackInputs | src/main.cpp:112-147 | the cursor, the clock, the mode and the key inputs handed over are those of PlaybackStep; recording, speed, hotkeys and flags are untouched |
| RecorderProperties.PlaybackAtEnd | src/main.cpp:139-146 | with the cursor at the end (an empty recording included) a call plays nothing and, with loop set, rewinds cursor and clock to 0, otherwise goes Idle |
| RecorderProperties.LoopRewindsLikeStart | src/main.cpp:139-146 | with loop set, running out puts playback where startPlayback would |
| RecorderProperties.FastEndIsDeferred | src/main.cpp:124-146 | Fast plays the last event and stays in Playback; only the next call plays nothing and loops or goes Idle |
| RecorderProperties.PlaybackCursorAdvances | src/main.cpp:114-146 | the cursor only moves forward and never past the end, except for the rewind to 0 (clock 0 too) that loop does |
| RecorderProperties.TrimStartupPlaysFirstAtOnce | src/main.cpp:118-122 | TrimStartup at cursor 0 makes the first event due at once, so the call plays it first |
| RecorderModel.Releases | src/main.cpp:149-160 | the release pass emits at most one input per played event, and every one is a release |
| Recorder.AppData.ReleasePressedKeys | src/main.cpp:149-160 | the log grows by exactly Releases of the played part of the recording; no field of the engine changes |
| RecorderProperties.ReleasesAppend | src/main.cpp:153-159 | releasing over two stretches emits what each would, in order |
| RecorderProperties.ReleasesComplete | src/main.cpp:153-158 | every played press gets a release of the same key |
| RecorderProperties.ReleasesSound | src/main.cpp:153-158 | every release emitted is that of a key some played press pressed |
| RecorderProperties.ReleasesOnePerPress | src/main.cpp:153-159 | the pass emits exactly as many releases as there are played presses |
| RecorderProperties.ReleasesOverRelease | src/main.cpp:151-159 | for any played press followed later by its own release, the release pass still emits that release again |
| RecorderModel.StartRecording | src/main.cpp:172-178 | Recording mode, an empty recording and frame counter 0; every other field is kept |
| Recorder.AppData.StartRecording | src/main.cpp:172-178 | Recording mode, frame counter 0, empty recording, all else unchanged |
| RecorderModel.StartPlayback | src/main.cpp:180-186 | Playback mode, cursor and frame counter 0 and the recording kept, so the cursor is inside the recording; every other field is kept |
| Recorder.AppData.StartPlayback | src/main.cpp:180-186 | Playback mode, frame counter 0, cursor 0, recording kept, all else unchanged |
| Recorder.AppData.constructor | src/main.cpp:194-201 | the zeroed AppData: Idle, Normal speed, empty recording, counters 0, loop off, enabled, the two hotkeys on the given scancodes |
| RecorderModel.Dispatch | src/main.cpp:218-273 | the mode dispatch keeps the cursor inside the recording while in Playback |
| RecorderModel.TickStep | src/main.cpp:217-282 | a whole pass keeps that invariant too |
| Recorder.AppData.Dispatch | src/main.cpp:218-273 | the if/else chain on the mode leaves exactly the state and log of RecorderModel.Dispatch |
| Recorder.AppData.Tick | src/main.cpp:217-282 | one pass of the main loop leaves exactly the state and log of TickStep, and keeps the object invariant: cursor in range, frame tags in order |
| RecorderProperties.IdleDisabledIgnoresInput | src/main.cpp:218-227 | Idle with the engine disabled ignores every input; only the frame counter advances |
| RecorderProperties.IdleTick | src/main.cpp:218-227 | Idle and enabled: the record hotkey starts an empty recording, the playback hotkey starts playback; both can fire in one pass and the second wins |
| RecorderProperties.WaitingTick | src/main.cpp:228-245 | waiting for a hotkey acts only with the window active; any first event, press or release, becomes the hotkey and returns to Idle even with a click; a click alone cancels; with neither the mode stays |
| RecorderProperties.RecordingTick | src/main.cpp:246-256 | Recording: the record hotkey goes Idle keeping the recording, the playback hotkey starts playback from the top, any other batch is captured |
| RecorderProperties.PlaybackTick | src/main.cpp:257-273 | Playback: disabled goes Idle before any hotkey check; either hotkey emits the release pass, then restarts; otherwise the scheduler runs; the counter then advances by one |
| RecorderProperties.BatchKeepsOrder | src/main.cpp:97-109 | appending a batch tagged with a frame later than every tag so far keeps the tags in order |
| RecorderProperties.TickKeepsRecordingWellFormed | src/main.cpp:217-282 | every pass keeps the recording's frame tags non-decreasing, and while recording below the frame counter |
| RecorderProperties.QuietTicks | src/main.cpp:204-284 | runs of passes with no input keep the cursor invariant |
| RecorderProperties.QuietPlaybackTick | src/main.cpp:257-273 | a quiet pass in enabled Playback is the scheduler's call followed by the frame advance |
| RecorderProperties.QuietIdleStaysIdle | src/main.cpp:218-227 | with no input Idle stays Idle and emits nothing, for any number of passes |
| RecorderProperties.FastQuietTick | src/main.cpp:124-129 | a quiet Fast pass with events left plays the next one and moves cursor and counter on by one |
| RecorderProperties.FastFirst | src/main.cpp:124-129 | the first of a run of quiet Fast passes plays the event at the cursor, then the rest run on |
| RecorderProperties.FastPlaybackAtEnd | src/main.cpp:139-146 | Fast with the cursor at the end: without loop the next quiet pass emits nothing and goes Idle |
| RecorderProperties.FastRunFirst | src/main.cpp:124-146 | the inductive step of FastPlaybackOnePassPerEvent: if the passes after the first play the rest and end as stated, so does the whole run |
| RecorderProperties.FastPlaybackOnePassPerEvent | src/main.cpp:124-146 | Fast takes one pass per remaining event, plays them all in order and is still in Playback; without loop the pass after that goes Idle |
| RecorderProperties.NormalQuietTick | src/main.cpp:131-146 | a quiet Normal pass plays the due stretch; it goes Idle if that reaches the end, else it stops before an event tagged after the clock, which then advances by one |
| RecorderProperties.NormalPlaybackEndsNow | src/main.cpp:139-146 | when the first quiet pass reaches the end, the run plays the rest and stays Idle |
| RecorderProperties.NormalWaitLeavesTime | src/main.cpp:132-135 | a pass that stops at an event not yet due still leaves a pass to spare for the last tag |
| RecorderProperties.NormalWaitFirst | src/main.cpp:131-137 | when the first quiet Normal pass stops at an event not yet due, the run plays the due stretch and then whatever the later passes play from that event, ending where they end |
| RecorderProperties.NormalPlaybackWaits | src/main.cpp:112-147 | the waiting case of NormalPlaybackCompletes |
| RecorderProperties.NormalPlaybackCompletes | src/main.cpp:112-147 | Normal playback without loop of a recording with ordered tags plays every remaining event in order and goes Idle once the clock has passed the last tag |
| Recorder.AppData.RequestRecordKey | src/main.cpp:63 | the Record key button enters WaitingForRecordKey and keeps the object invariant |
| Recorder.AppData.RequestPlaybackKey | src/main.cpp:72 | the Playback key button enters WaitingForPlaybackKey and keeps the object invariant |
| Recorder.AppData.SelectPlaybackSpeed | src/main.cpp:79-83 | the radio buttons set the playback speed, keeping the object invariant |
| Recorder.AppData.SetLoop | src/main.cpp:88 | the Loop checkbox sets loop, keeping the object invariant |
| Recorder.AppData.SetEnabled | src/main.cpp:90 | the Enabled checkbox sets enabled, keeping the object invariant |
| DynamicArrays.DynamicArray.constructor | src/DynamicArray.h:8-9 | a zeroed array: nothing in use, nothing allocated |
| DynamicArrays.DynamicArray.Size | src/DynamicArray.h:11 | the number of elements in use |
| DynamicArrays.DynamicArray.PushBack | src/DynamicArray.h:13-20 | contents become old contents plus the element, count grows by one, count stays within capacity; a full buffer grows to (capacity + 1) * 2, above the old count, into fresh storage holding the old elements; otherwise capacity and buffer are kept |
| DynamicArrays.DynamicArray.PopBack | src/DynamicArray.h:22-26 | needs an element; returns the last one and leaves the contents without it; capacity kept |
| DynamicArrays.DynamicArray.Remove | src/DynamicArray.h:28-33 | needs an element; an index in range is removed with the order of the rest kept; an index past the end drops the last element; count shrinks by one, capacity kept |
| DynamicArrays.DynamicArray.DeepCopy | src/DynamicArray.h:35-44 | a fresh array with fresh storage, the same count and capacity and equal contents |
| DynamicArrays.DynamicArray.Clear | src/DynamicArray.h:46 | no elements in use; capacity kept |
| DynamicArrays.DynamicArray.FreeMemory | src/DynamicArray.h:48-52 | no elements in use and nothing allocated |
| DynamicArrays.DynamicArray.Last | src/DynamicArray.h:54-57 | needs an element; the last element |
| DynamicArrays.DynamicArray.At | src/DynamicArray.h:59-62 | needs an index in range; the element at that index |
| Platform.Button.constructor | src/Platform.h:26-30 | a zeroed button: up, neither pressed nor released |
| Platform.Updated | src/Platform.h:182-194 | down is the new input; pressed exactly when the button goes from up to down; released exactly when it goes from down to up |
| Platform.Button.Update | src/Platform.h:182-194 | down: down set, released cleared, pressed the negation of the previous down; up: down and pressed cleared, released the previous down |
| Platform.NeverPressedAndReleased | src/Platform.h:182-194 | no update leaves a button both pressed and released |
| Platform.AfterUpdatesEdges | src/Platform.h:182-194 | after a run of updates, down is the last update, pressed means the last two went up then down, released means down then up |
| Platform.HeldButtonPressedOnce | src/Platform.h:184-188 | pressed lasts one update: two down updates in a row leave it false |
| Platform.UpButtonReleasedOnce | src/Platform.h:189-193 | released lasts one update: two up updates in a row leave it false |

## Left out

- Rendering is not modelled: the control panel, nuklear and OpenGL (`updateGUI`, `src/GUI.h`). The panel's only effects on the engine are the five setter methods of `AppData`.
- No window plumbing is modelled, because it is I/O outside the engine:
  - window creation and the message pump;
  - window titles and `swapBuffers`;
  - the window size queries;
  - the `waitForMessages` power-saving hint;
  - `GetActiveWindow`.
- `windowActive` and the left button's press edge are parameters of `Tick`.
- The key events of a frame are a parameter of `Tick` too. `updateSystemInput` and the rest of `src/Platform.h` are not part of this model.
- `simulateInput` is defined elsewhere. It is the ghost log `emitted`: the model states what is handed over and in what order, not what the operating system does with it.
- `KeyInput` is defined elsewhere. It is a datatype with the three fields the code uses, and its `type` field is called `kind` here.
  - The zeroed hotkeys of `WinMain` get the type press. The zero value of the C++ enum is not visible, and nothing reads the hotkeys' type.
- `MapVirtualKey` is a foreign call. The scancodes of F1 and F2 are constructor parameters.
- `keyToString` is defined elsewhere and only feeds the panel's labels.
- Inside `AppData` the recording is a sequence, not a `DynamicArray`. `push_back` and `clear` on it are sequence append and the empty sequence. `DynamicArray` itself is modelled separately. The C++ also passes the key batch to `keyWasPressed` by value, so aliasing plays no part.
- Recorder.AppData.Tick: does not model the 32-bit wrap-around of `recordingFrameNumber`. The frame counter, frame tags and cursor are unbounded naturals, since the code never gets near the wrap.
- DynamicArrays.DynamicArray.PushBack: does not model `realloc` failure. It also leaves out the unsigned wrap-around of `(allocatedCount + 1) * 2`; capacity is an unbounded natural.
- DynamicArrays.DynamicArray.Remove: requires a non-empty array. On an empty one the C++ computes `count - 1` as an unsigned wrap and shifts outside the buffer, which is undefined behaviour, not a result to model.
- DynamicArrays.DynamicArray.Last: returns the element's value, not a reference the caller could write through. `At` is the same.
- DynamicArrays.DynamicArray.DeepCopy: the fresh buffer has the full capacity. Its slots past `count` hold default values, where `malloc` leaves them undefined.
- The code has no save/load of recordings and no stop-playback hotkey, so neither is modelled.
