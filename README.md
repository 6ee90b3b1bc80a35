# AudioEngine model

A Dafny model of the `AudioEngine` class of the Tap Story Android app's native
audio layer. The engine mixes any number of mono clips into an interleaved
stereo output buffer and keeps one int64 frame clock that drives playback. It
can also record microphone samples aligned to that clock. The model covers:

- the lifecycle around the two device streams: `start`, `stop`, `reset`,
  `seekToFrame` and `onErrorAfterClose`;
- the track store: `loadTrack` and `clearTracks`;
- the device callback `onAudioReady`: capture gating, the mix loop, the soft
  clip and the clock advance;
- recording control: `startRecording` and `stopRecording`, plus the three getters.

Files and modules:

- `bounded.dfy` (`Bounded`): int16/int32/int64 ranges, the raw `Sample`
  type and `Wrap64`, the two's-complement wrap of the atomic clock add.
- `tracks.dfy` (`Tracks`): the `Track` record and its well-formedness.
  It also defines what one track adds to one output frame (`Contribution`),
  the overlap guard (`Overlaps`) and the in-order sum over the track list
  (`MixedFrame`), with lemmas about them.
- `mixing.dfy` (`Mixing`): the interleaved stereo layout, the mix and
  soft-clip passes as in-place array methods, and the index-mapping lemmas.
- `engine_spec.dfy` (`EngineSpec`): the engine state as a value
  (`EngineState`), its invariant, one transition function per operation, and
  lemmas about sequences of operations.
- `audio_engine.dfy` (`Engine`): the class `AudioEngine` with the C++
  fields, whose methods update them in place. Each state-changing operation
  is proved to move the state exactly as the matching `EngineSpec`
  transition does. `CloseStreams` and the three getters have no transition:
  their contracts state their effect on the fields directly.

Modelling choices:

- Samples are raw int16 values. `loadTrack` stores `v / 32768` as a float.
  That scale is a power of two, so the stored value is exact, and integer sums
  are the exact-arithmetic image of the float mix. Full scale 1.0 is 32768
  raw units, so the clip test `|x| > 1.0` becomes `|x| > 32768`.
- The hyperbolic tangent of the soft clip is a parameter `clip: int -> int`.
  It is applied to exactly the slots beyond full scale.
- A stream handle is `Option<StreamState>`: `None` is an empty
  `shared_ptr`, otherwise the stream is Open, Started, Stopped or Closed.
- Device answers are parameters: whether each stream opens, whether each
  `start()` returns OK, what the non-blocking read returns (`captured`,
  whose length is the read count), whether the recording file opens, and
  whether the reported error is a disconnect.
- A failed open leaves the handle empty. Oboe's `openStream` releases the
  handle before it tries to open.
- `onErrorAfterClose` runs after the device layer has closed the play stream,
  so the model marks that stream Closed. Only a disconnect clears the
  running flag. After a disconnect, or after a later `stop`, a `start`
  reopens both streams. After any other error the engine still counts as
  running, and `start` returns at once (see "## Findings").
- The recording file is a sequence of samples (`sink`) plus two flags:
  `fileOpen` (the stream's `is_open()`) and `fileGood` (its fail state is clear).
  A successful `open` clears the fail state. A failed `open` sets it, and a
  write on a failed stream writes nothing.
- If `startRecording` is called while a file is open, `std::ofstream::open`
  fails. The old file stays open, but the stream enters its fail state. The
  code still sets the counter to 0 and turns recording on. From then on
  callbacks count the samples they read, but nothing reaches the file. The
  class keeps this behaviour. So the invariant is
  `fileGood ==> recordedCount == |sink|`. See "## Findings".
- The clock advance is `Wrap64(clock + numFrames)`, because
  `std::atomic<int64_t>::fetch_add` wraps. `RunAdvancesClock` gives the
  exact sum when there is no overflow.
- `OnAudioReady` requires `2 * numFrames` to fit int32, because the source
  computes `numFrames * kChannelCountOut` and `i * 2 + 1` in int32. It also
  requires the read count to be at most `numFrames`, since the read asks for
  `numFrames` samples.

## Model

| member | source | states |
|---|---|---|
| Bounded.Wrap64 | mobile/android/app/src/main/cpp/AudioEngine.cpp:284 | the atomic int64 add wraps into int64 range, agrees with exact addition when no overflow, and differs from it by a multiple of 2^64 |
| Tracks.Track.WellFormed | mobile/android/app/src/main/cpp/AudioEngine.h:10-14 | a stored track's length equals its number of samples, and its start frame and length fit the struct's int32 fields |
| Tracks.Overlaps | mobile/android/app/src/main/cpp/AudioEngine.cpp:255-258 | the per-track guard holds iff the track's span `[startFrame, startFrame + lengthFrames)` meets the window `[currentFrame, currentFrame + numFrames)` on the timeline |
| Tracks.MixedFrame | mobile/android/app/src/main/cpp/AudioEngine.cpp:253-272 | the sum, in list order, of every track's contribution to frame `i`; with n tracks it lies within n times the int16 range, which is why the output is clipped |
| Tracks.Contribution | mobile/android/app/src/main/cpp/AudioEngine.cpp:255-269 | a track adds the sample at timeline frame `currentFrame + i` when it covers that frame, and silence otherwise |
| Tracks.MixedFrameAppend | mobile/android/app/src/main/cpp/AudioEngine.cpp:253-272 | appending a track to the list adds exactly its contribution to every output frame |
| Tracks.MixedFrameConcat | mobile/android/app/src/main/cpp/AudioEngine.cpp:253-272 | the mix of a concatenated track list is the sum of the two lists' mixes |
| Tracks.MixedFrameRemove | mobile/android/app/src/main/cpp/AudioEngine.cpp:253-272 | taking one track out of the list, wherever it sits, removes exactly its contribution from every frame |
| Tracks.MixOrderIrrelevant | mobile/android/app/src/main/cpp/AudioEngine.cpp:253 | any reordering of the track list (the same tracks, each as often) gives the same frame (exact arithmetic) |
| Tracks.DuplicateTrackDoubles | mobile/android/app/src/main/cpp/AudioEngine.cpp:160-177 | loading the same track twice (ids are never stored) adds its contribution twice |
| Tracks.MixedFrameShift | mobile/android/app/src/main/cpp/AudioEngine.cpp:255-262 | a frame's value depends only on its absolute timeline position `currentFrame + i` |
| Tracks.GuardSound | mobile/android/app/src/main/cpp/AudioEngine.cpp:258 | a track the overlap guard rejects contributes silence to every frame of the window |
| Tracks.GuardExact | mobile/android/app/src/main/cpp/AudioEngine.cpp:258-262 | for a non-empty track and window, the guard holds iff some frame of the window reads an in-range sample index |
| Tracks.EmptyTrackSilent | mobile/android/app/src/main/cpp/AudioEngine.cpp:262 | a zero-length track is never heard, even when it passes the guard |
| Mixing.InterleaveAt | mobile/android/app/src/main/cpp/AudioEngine.cpp:266-268 | frame `i` of the mono mix lands on slots `2i` and `2i+1` of a buffer twice as long |
| Mixing.InterleaveRoundTrip | mobile/android/app/src/main/cpp/AudioEngine.cpp:266-268 | both the left and the right channel of the interleaved buffer give back the mono signal |
| Mixing.DuplicatedIsInterleaved | mobile/android/app/src/main/cpp/AudioEngine.cpp:266-268 | an even-length buffer whose channels agree is the interleaving of its left channel |
| Mixing.StereoMixAt | mobile/android/app/src/main/cpp/AudioEngine.cpp:248-273 | before clipping, slots `2i` and `2i+1` both equal the in-order sum over the tracks for frame `i` |
| Mixing.MonoMixSplit | mobile/android/app/src/main/cpp/AudioEngine.cpp:255-269 | mixing `a + b` frames in one callback equals mixing `a` frames and then `b` frames from `currentFrame + a` |
| Mixing.Clipped | mobile/android/app/src/main/cpp/AudioEngine.cpp:279-280 | one slot: the clip curve replaces a value beyond full scale (`|x| > 32768` raw units); any other value passes unchanged |
| Mixing.ClipAllPassesInRange | mobile/android/app/src/main/cpp/AudioEngine.cpp:275-282 | whatever the clip curve, clipping keeps the length and leaves every in-range slot unchanged |
| Mixing.ClipAllBounds | mobile/android/app/src/main/cpp/AudioEngine.cpp:275-282 | with a clip curve inside full scale, every slot ends inside full scale |
| Mixing.ClipCommutesWithInterleave | mobile/android/app/src/main/cpp/AudioEngine.cpp:275-282 | clipping slot by slot keeps the two channels equal: it commutes with interleaving |
| Mixing.CallbackOutputAt | mobile/android/app/src/main/cpp/AudioEngine.cpp:248-282 | after the callback both channels of frame `i` hold the clipped track sum for that frame |
| Mixing.StraddlingWindow | mobile/android/app/src/main/cpp/AudioEngine.cpp:255-269 | a 50-frame track at frame 100 heard through a 40-frame window at frame 80 fills output frames 20..39 with samples 0..19 |
| Mixing.HoldsMixIsStereoMix | mobile/android/app/src/main/cpp/AudioEngine.cpp:248-273 | a buffer holding the track sum in both channels of every frame equals the stereo mix |
| Mixing.AddTrack | mobile/android/app/src/main/cpp/AudioEngine.cpp:253-272 | the per-track pass, with every read and write index in bounds, turns a buffer holding the mix of `mixed` into one holding the mix of `mixed + [track]` |
| Mixing.MixInto | mobile/android/app/src/main/cpp/AudioEngine.cpp:247-273 | zeroing and then accumulating every track in place leaves the buffer equal to the stereo mix |
| Mixing.SoftClip | mobile/android/app/src/main/cpp/AudioEngine.cpp:275-282 | the in-place pass replaces exactly the out-of-range slots by their clipped value |
| EngineSpec.EngineState.Valid | mobile/android/app/src/main/cpp/AudioEngine.h:53-71 | the invariant: the clock fits int64 and the threshold int32, tracks are well formed, recording only into an open file, the counter is non-negative and equals the file's samples while the stream is good, and a running engine's play stream is Started or was Closed under it |
| EngineSpec.Fresh | mobile/android/app/src/main/cpp/AudioEngine.h:55-71 | a new engine has clock 0, is not running or recording, has no streams, counter 0 and threshold 0, and satisfies the invariant |
| EngineSpec.Halted | mobile/android/app/src/main/cpp/AudioEngine.cpp:71-78 | stopping a stream pauses it and never closes or releases it |
| EngineSpec.OpenStreams | mobile/android/app/src/main/cpp/AudioEngine.cpp:102-147 | a failed play open empties the play handle and leaves the record handle alone; otherwise both are replaced, the record handle by an open stream or nothing |
| EngineSpec.NewTrack | mobile/android/app/src/main/cpp/AudioEngine.cpp:163-173 | the built track has `lengthFrames == numSamples`, the given samples and start frame, and fits the int32 fields |
| EngineSpec.Start | mobile/android/app/src/main/cpp/AudioEngine.cpp:24-61 | no-op when running; afterwards running iff the play stream was opened or already startable and its start returned OK; a live play stream becomes Started iff it is startable and its start returned OK, and is otherwise kept; an absent or closed one is reopened and ends empty if the open fails, Open if its start fails, Started otherwise; the capture stream (after any reopening) becomes Started iff it is startable and its start returned OK, and is otherwise kept; clock, tracks and recording unchanged |
| EngineSpec.Stop | mobile/android/app/src/main/cpp/AudioEngine.cpp:63-84 | no-op when not running; otherwise clears running and pauses both streams without closing them; the clock is unchanged |
| EngineSpec.Reset | mobile/android/app/src/main/cpp/AudioEngine.cpp:86-100 | clears running, releases both stream handles and sets the clock to 0; tracks and recording state kept |
| EngineSpec.Seek | mobile/android/app/src/main/cpp/AudioEngine.cpp:207-212 | the clock becomes exactly the given int64 frame, unclamped, and nothing else changes |
| EngineSpec.LoadTrack | mobile/android/app/src/main/cpp/AudioEngine.cpp:160-177 | exactly one well-formed track is appended, earlier tracks unchanged, nothing else changes |
| EngineSpec.ClearTracks | mobile/android/app/src/main/cpp/AudioEngine.cpp:179-183 | the track list becomes empty and nothing else changes |
| EngineSpec.StartRecording | mobile/android/app/src/main/cpp/AudioEngine.cpp:185-196 | sets the threshold and zeroes the counter; the file is open afterwards iff it was or it opens, the stream state is good iff a closed file opened, a new file starts empty; recording turns on iff a file is open afterwards and is never turned off |
| EngineSpec.StopRecording | mobile/android/app/src/main/cpp/AudioEngine.cpp:198-205 | recording off and the file closed; counter, threshold and written samples kept |
| EngineSpec.CaptureGate | mobile/android/app/src/main/cpp/AudioEngine.cpp:226-236 | a callback captures exactly when the capture stream is Started, the read returned samples, recording is on, the file is open and the clock snapshot is at or past the threshold |
| EngineSpec.Capture | mobile/android/app/src/main/cpp/AudioEngine.cpp:226-242 | when the capture stream is started, the read returned samples, recording is on, the file is open and the clock snapshot is at or past the threshold, the counter grows by exactly the samples read and the sink by those samples if the stream state is good; otherwise nothing changes |
| EngineSpec.Callback | mobile/android/app/src/main/cpp/AudioEngine.cpp:221-242 | capture is gated on the clock value read on entry and grows counter and sink exactly as `Capture` does, otherwise neither changes; afterwards the clock is the wrapped snapshot plus `numFrames`, and streams, tracks, file and recording flags are unchanged |
| EngineSpec.ErrorAfterClose | mobile/android/app/src/main/cpp/AudioEngine.cpp:288-296 | only a disconnect clears running; the play stream closed by the device stays Closed |
| EngineSpec.RecordStartFailureDoesNotBlock | mobile/android/app/src/main/cpp/AudioEngine.cpp:37-46 | whether the engine runs, and the play stream's state, do not depend on the record stream's start result |
| EngineSpec.StopStartResumes | mobile/android/app/src/main/cpp/AudioEngine.cpp:63-84 | `stop` then `start` keeps the clock that `stop` saw |
| EngineSpec.StopStartRestarts | mobile/android/app/src/main/cpp/AudioEngine.cpp:71-78 | after `stop`, a `start` whose play start succeeds runs again on the paused stream |
| EngineSpec.ResetRestartsFromZero | mobile/android/app/src/main/cpp/AudioEngine.cpp:86-100 | after `reset` the next `start` begins at frame 0, and it runs iff the play stream opens and starts |
| EngineSpec.SeekThenCallback | mobile/android/app/src/main/cpp/AudioEngine.cpp:207-236 | after a seek the next callback gates capture (counter and sink) against the target frame and advances the clock from it |
| EngineSpec.EarlyCaptureDiscarded | mobile/android/app/src/main/cpp/AudioEngine.cpp:234-241 | while the clock is before the threshold, a callback neither writes nor counts samples |
| EngineSpec.SessionCountsItsSink | mobile/android/app/src/main/cpp/AudioEngine.cpp:185-241 | a session started by a successful open of a closed file stays recording and counts exactly the samples its file holds, through any run of callbacks |
| EngineSpec.RunKeepsRecordingState | mobile/android/app/src/main/cpp/AudioEngine.cpp:221-242 | a run of callbacks never opens, closes or fails the file and never switches recording on or off |
| EngineSpec.DoubleStartCountsUnwrittenSamples | mobile/android/app/src/main/cpp/AudioEngine.cpp:185-196 | as written: after a second `startRecording` on an open file, a callback past the threshold counts every sample read while the file gets none |
| EngineSpec.StartRecordingReopen | mobile/android/app/src/main/cpp/AudioEngine.cpp:185-196 | intended: closing any open file first, the file is open, good and recording iff it opens, and a new session starts with an empty file and counter 0 |
| EngineSpec.ReopenedSessionCountsItsSink | mobile/android/app/src/main/cpp/AudioEngine.cpp:185-241 | intended: from any state, a session whose file opens counts exactly the samples its file holds through any run of callbacks |
| EngineSpec.WedgedAfterNonDisconnectError | mobile/android/app/src/main/cpp/AudioEngine.cpp:288-296 | as written: after a non-disconnect error a running engine keeps running on a closed play stream, and `start` changes nothing |
| EngineSpec.ErrorAfterCloseStops | mobile/android/app/src/main/cpp/AudioEngine.cpp:288-296 | intended: every error stops the engine, the play stream stays Closed, nothing else changes |
| EngineSpec.ErrorThenStartReopens | mobile/android/app/src/main/cpp/AudioEngine.cpp:24-61 | intended: after any error the next `start` reopens, ending empty, Open or Started as the open and start succeed, and runs iff both succeed |
| EngineSpec.RunAdvancesClock | mobile/android/app/src/main/cpp/AudioEngine.cpp:284 | a run of callbacks with no seek and no overflow advances the clock by exactly the frames delivered, and leaves tracks, running flag and streams unchanged |
| EngineSpec.RunCounterGrows | mobile/android/app/src/main/cpp/AudioEngine.cpp:239 | over a run of callbacks the counter never decreases and the sink only grows by appending |
| Engine.AudioEngine.constructor | mobile/android/app/src/main/cpp/AudioEngine.h:55-71 | the fields start at their declared initial values |
| Engine.AudioEngine.Start | mobile/android/app/src/main/cpp/AudioEngine.cpp:24-61 | the fields move as `EngineSpec.Start` prescribes and the invariant is kept |
| Engine.AudioEngine.Stop | mobile/android/app/src/main/cpp/AudioEngine.cpp:63-84 | the fields move as `EngineSpec.Stop` prescribes |
| Engine.AudioEngine.Reset | mobile/android/app/src/main/cpp/AudioEngine.cpp:86-100 | the fields move as `EngineSpec.Reset` prescribes |
| Engine.AudioEngine.OpenStreams | mobile/android/app/src/main/cpp/AudioEngine.cpp:102-147 | the stream handles move as `EngineSpec.OpenStreams` prescribes |
| Engine.AudioEngine.CloseStreams | mobile/android/app/src/main/cpp/AudioEngine.cpp:149-158 | both stream handles are released |
| Engine.AudioEngine.LoadTrack | mobile/android/app/src/main/cpp/AudioEngine.cpp:160-177 | the copy loop builds the track, and the list grows as `EngineSpec.LoadTrack` prescribes |
| Engine.AudioEngine.ClearTracks | mobile/android/app/src/main/cpp/AudioEngine.cpp:179-183 | the list is emptied as `EngineSpec.ClearTracks` prescribes |
| Engine.AudioEngine.StartRecording | mobile/android/app/src/main/cpp/AudioEngine.cpp:185-196 | the session fields move as `EngineSpec.StartRecording` prescribes |
| Engine.AudioEngine.StopRecording | mobile/android/app/src/main/cpp/AudioEngine.cpp:198-205 | the session fields move as `EngineSpec.StopRecording` prescribes |
| Engine.AudioEngine.SeekToFrame | mobile/android/app/src/main/cpp/AudioEngine.cpp:207-212 | the clock moves as `EngineSpec.Seek` prescribes |
| Engine.AudioEngine.OnAudioReady | mobile/android/app/src/main/cpp/AudioEngine.cpp:215-286 | the state moves as `EngineSpec.Callback` prescribes, and the output buffer is the clipped stereo mix at the clock value read on entry |
| Engine.AudioEngine.OnErrorAfterClose | mobile/android/app/src/main/cpp/AudioEngine.cpp:288-296 | the state moves as `EngineSpec.ErrorAfterClose` prescribes |
| Engine.AudioEngine.GetCurrentFrame | mobile/android/app/src/main/cpp/AudioEngine.h:40 | returns the stored clock, an int64 value, and changes nothing |
| Engine.AudioEngine.GetRecordingStartFrame | mobile/android/app/src/main/cpp/AudioEngine.h:36 | returns the stored int32 threshold widened, and changes nothing |
| Engine.AudioEngine.GetRecordedSampleCount | mobile/android/app/src/main/cpp/AudioEngine.h:37 | returns the stored counter, which equals the samples in the file while the file stream is in a good state, and changes nothing |

## Findings

| source | as written | input that shows it | evidently intended | confidence | as-written member | corrected member |
|---|---|---|---|---|---|---|
| mobile/android/app/src/main/cpp/AudioEngine.cpp:185-196 | `startRecording` on an open file: `open` fails and sets the fail state, yet the counter is reset and recording is switched on, so later callbacks count samples that are never written (:234-239) | `startRecording(p, 0)`, `startRecording(q, 0)` with no `stopRecording` between, then a callback at clock 0 that reads 10 samples: counter 10, no sample written | close the open file before opening the new one, so the counter always matches the file | high (not executed) | EngineSpec.DoubleStartCountsUnwrittenSamples | EngineSpec.StartRecordingReopen |
| mobile/android/app/src/main/cpp/AudioEngine.cpp:288-296 | `onErrorAfterClose` clears the running flag only for `ErrorDisconnected`, though the device layer has closed the play stream for every error; `start` then returns at :25-28 before it can reopen (:33) | a running engine gets `onErrorAfterClose(stream, ErrorTimeout)`, then `start()`: the play stream stays Closed, no callback runs, and nothing plays until `stop()` | stop the engine on every error that closes the stream, so that the next `start` reopens it | medium (not executed) | EngineSpec.WedgedAfterNonDisconnectError | EngineSpec.ErrorAfterCloseStops |

The class `Engine.AudioEngine` keeps the behaviour as written in both cases.
For the first, the corrected transition and
`EngineSpec.ReopenedSessionCountsItsSink` state what the counter then
promises. For the second, `EngineSpec.ErrorThenStartReopens` states that a
`start` after any error reopens the streams.

## Left out

- Device I/O: the Oboe builder settings (sample rate, format, sharing and
  performance modes, input preset) and the stream objects themselves. Only the
  handle states and the success of each open, start and read remain.
- Logging. None of it affects state.
- The `std::ofstream` byte layout, and write failures other than the fail
  state a failed `open` leaves behind (a full disk, for one).
- Floating point: the int16-to-float scale is exact and dropped, float
  summation rounding is replaced by exact integer sums, and `tanh` is the
  `clip` parameter.
- Concurrency: the track mutex, the atomics and the race between seek and the
  clock advance. All operations are sequential calls on one object.
- The per-callback scratch buffer allocation. The read result is the
  `captured` parameter.
- The destructor's call to `stop`.
- Signed int64 overflow of `currentFrame - startFrame`, `trackOffset + numFrames`
  and `trackOffset + i` for clocks within 2^31 of the int64 limits. That is
  undefined behaviour in C++; the model uses exact integers there.
- Overflow of the int64 recorded-sample counter. It is unbounded in the model.
- Stream states other than Open, Started, Stopped and Closed (Starting,
  Pausing, Disconnected, ...). The model assumes `stop()` on a non-closed
  stream leaves it Stopped and a failed `start()` leaves its state unchanged.
- mobile/android/app/src/main/cpp/native-lib.cpp: JNI marshalling and the
  global engine instance, which pass straight through to the engine.
