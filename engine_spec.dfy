/** The engine's observable state as a value, and one transition function per
    engine operation. The class in module Engine is proved to follow these
    transitions; the lemmas here state what the transitions promise, alone and
    in sequence. */
module EngineSpec {
  import opened Bounded
  import opened Tracks

  datatype Option<T> = None | Some(value: T)

  /** The states of an audio stream that the engine inspects or causes. */
  datatype StreamState = Open | Started | Stopped | Closed

  /** What the audio device answers during `start`: whether each stream opens
      (asked only when the engine opens streams) and whether each `start()`
      call returns OK. */
  datatype DeviceOutcomes = DeviceOutcomes(
    playOpens: bool, recordOpens: bool, recordStarts: bool, playStarts: bool)

  /** Everything the engine's operations read or write. `sink` is the sample
      content of the recording file the engine last opened; `fileOpen` says
      whether that file is still open, and `fileGood` whether the file
      stream's fail state is clear (a write on a failed stream writes nothing). */
  datatype EngineState = EngineState(
    clock: int,
    running: bool,
    play: Option<StreamState>,
    record: Option<StreamState>,
    tracks: seq<Track>,
    recording: bool,
    fileOpen: bool,
    fileGood: bool,
    recordStart: int,
    recordedCount: int,
    sink: seq<Sample>)
  {
    /** The invariant every operation keeps: the fields fit their C++ widths,
        tracks are well formed, recording only into an open file, the counter
        equals what the sink holds while the file stream is in a good state,
        and a running engine's play stream is started (or was closed under it
        by a non-disconnect error). */
    predicate Valid() {
      && IsInt64(clock)
      && IsInt32(recordStart)
      && AllWellFormed(tracks)
      && (recording ==> fileOpen)
      && 0 <= recordedCount
      && (fileGood ==> recordedCount == |sink|)
      && (running ==> play == Some(Started) || play == Some(Closed))
    }
  }

  /** The state of a newly constructed engine. */
  function Fresh(): (e: EngineState)
    ensures e.Valid()
  {
    EngineState(0, false, None, None, [], false, false, true, 0, 0, [])
  }

  /** `start` opens streams only when the play handle is absent or closed. */
  predicate NeedsOpen(play: Option<StreamState>) {
    play == None || play == Some(Closed)
  }

  /** A stream in one of the two states from which `start` starts it. */
  predicate Startable(s: Option<StreamState>) {
    s == Some(Open) || s == Some(Stopped)
  }

  /** A stream after its `stop()`: paused, never closed; a closed stream stays closed. */
  function Halted(s: Option<StreamState>): (r: Option<StreamState>)
    ensures r.Some? <==> s.Some?
    ensures r.Some? ==> (r.value == Closed <==> s.value == Closed)
    ensures r.Some? && s.value != Closed ==> r.value == Stopped
  {
    match s
    case None => None
    case Some(Closed) => Some(Closed)
    case Some(_) => Some(Stopped)
  }

  /** `openStreams`: a failed play open leaves the play handle empty and the
      record handle untouched; otherwise both handles are replaced, the
      record one by an open stream or nothing. */
  function OpenStreams(e: EngineState, playOpens: bool, recordOpens: bool): (r: EngineState)
    requires e.Valid() && !e.running
    ensures r.Valid()
    ensures r.play == (if playOpens then Some(Open) else None)
    ensures r.record == (if !playOpens then e.record else if recordOpens then Some(Open) else None)
    ensures r == e.(play := r.play, record := r.record)
  {
    if !playOpens then e.(play := None)
    else e.(play := Some(Open), record := if recordOpens then Some(Open) else None)
  }

  /** `start`. */
  function Start(e: EngineState, o: DeviceOutcomes): (r: EngineState)
    requires e.Valid()
    ensures r.Valid()
    ensures e.running ==> r == e
    // the engine runs afterwards exactly when it ran, or the play stream was
    // (re)opened or already startable and its start() returned OK
    ensures r.running <==>
              e.running
              || (o.playStarts && (if NeedsOpen(e.play) then o.playOpens else Startable(e.play)))
    // a live play stream is never reopened: it is started when startable and
    // its start() returns OK, and is otherwise kept
    ensures !e.running && !NeedsOpen(e.play) ==>
              r.play == (if Startable(e.play) && o.playStarts then Some(Started) else e.play)
    // an absent or closed one is reopened: empty when the open fails, Open
    // when its start() fails, Started otherwise
    ensures !e.running && NeedsOpen(e.play) ==>
              r.play == (if !o.playOpens then None else if o.playStarts then Some(Started) else Some(Open))
    // the capture stream is started first, whenever it is startable and its
    // start() returns OK, after any reopening; a live one is never reopened
    ensures !e.running && !NeedsOpen(e.play) ==>
              r.record == (if Startable(e.record) && o.recordStarts then Some(Started) else e.record)
    ensures !e.running && NeedsOpen(e.play) ==>
              var rec := OpenStreams(e, o.playOpens, o.recordOpens).record;
              r.record == (if Startable(rec) && o.recordStarts then Some(Started) else rec)
    ensures r.clock == e.clock && r.tracks == e.tracks
    ensures r.recording == e.recording && r.fileOpen == e.fileOpen && r.fileGood == e.fileGood
    ensures r.sink == e.sink
    ensures r.recordStart == e.recordStart && r.recordedCount == e.recordedCount
  {
    if e.running then e
    else
      var withStreams := if NeedsOpen(e.play) then OpenStreams(e, o.playOpens, o.recordOpens) else e;
      // the capture stream is started first, to warm up; a failure is only logged
      var warmed :=
        if Startable(withStreams.record) && o.recordStarts then withStreams.(record := Some(Started))
        else withStreams;
      if Startable(warmed.play) && o.playStarts then warmed.(play := Some(Started), running := true)
      else warmed
  }

  /** `stop`. */
  function Stop(e: EngineState): (r: EngineState)
    requires e.Valid()
    ensures r.Valid()
    ensures !e.running ==> r == e
    ensures e.running ==> !r.running && r.play == Halted(e.play) && r.record == Halted(e.record)
    ensures r == e.(running := r.running, play := r.play, record := r.record)
  {
    if !e.running then e
    else e.(running := false, play := Halted(e.play), record := Halted(e.record))
  }

  /** `reset`: stop both streams, close and release them, rewind the clock. */
  function Reset(e: EngineState): (r: EngineState)
    requires e.Valid()
    ensures r.Valid()
    ensures !r.running && r.play == None && r.record == None && r.clock == 0
    ensures r.tracks == e.tracks && r.recording == e.recording && r.fileOpen == e.fileOpen
    ensures r.fileGood == e.fileGood
    ensures r.recordStart == e.recordStart && r.recordedCount == e.recordedCount && r.sink == e.sink
  {
    e.(running := false, play := None, record := None, clock := 0)
  }

  /** `seekToFrame`: the clock takes any int64 value, unclamped. */
  function Seek(e: EngineState, frame: int): (r: EngineState)
    requires e.Valid() && IsInt64(frame)
    ensures r.Valid()
    ensures r.clock == frame && r == e.(clock := frame)
  {
    e.(clock := frame)
  }

  /** The track `loadTrack` builds from `numSamples == |samples|` raw samples. */
  function NewTrack(samples: seq<Sample>, startFrame: int): (t: Track)
    requires IsInt32(startFrame) && |samples| <= INT32_MAX
    ensures t.WellFormed()
    ensures t.lengthFrames == |samples| && t.data == samples && t.startFrame == startFrame
  {
    Track(samples, startFrame, |samples|)
  }

  /** `loadTrack`: the id is not stored, so loads accumulate. */
  function LoadTrack(e: EngineState, trackId: string, samples: seq<Sample>, startFrame: int): (r: EngineState)
    requires e.Valid() && IsInt32(startFrame) && |samples| <= INT32_MAX
    ensures r.Valid()
    ensures |r.tracks| == |e.tracks| + 1 && r.tracks[..|e.tracks|] == e.tracks
    ensures r.tracks[|e.tracks|] == NewTrack(samples, startFrame)
    ensures r == e.(tracks := r.tracks)
  {
    e.(tracks := e.tracks + [NewTrack(samples, startFrame)])
  }

  /** `clearTracks`. */
  function ClearTracks(e: EngineState): (r: EngineState)
    requires e.Valid()
    ensures r.Valid()
    ensures r.tracks == [] && r == e.(tracks := [])
  {
    e.(tracks := [])
  }

  /** `startRecording`: the threshold and the counter are always set. Opening
      succeeds only on a closed file, and a successful open clears the stream
      state and starts an empty file. Opening an already open file fails: the
      file stays open but the stream enters its fail state. Recording is
      switched on exactly when a file is open afterwards and is never switched
      off here. */
  function StartRecording(e: EngineState, startFrame: int, opens: bool): (r: EngineState)
    requires e.Valid() && IsInt32(startFrame)
    ensures r.Valid()
    ensures r.recordStart == startFrame && r.recordedCount == 0
    ensures r.fileOpen <==> e.fileOpen || opens
    ensures r.fileGood <==> !e.fileOpen && opens
    ensures r.recording <==> e.recording || r.fileOpen
    ensures r.sink == (if !e.fileOpen && opens then [] else e.sink)
    ensures r == e.(recordStart := r.recordStart, recordedCount := 0, fileOpen := r.fileOpen,
                    fileGood := r.fileGood, recording := r.recording, sink := r.sink)
  {
    var openedNow := !e.fileOpen && opens;
    var nowOpen := e.fileOpen || opens;
    e.(recordStart := startFrame,
       recordedCount := 0,
       fileOpen := nowOpen,
       fileGood := openedNow,
       sink := if openedNow then [] else e.sink,
       recording := e.recording || nowOpen)
  }

  /** `stopRecording`: the counter, threshold and written samples remain. */
  function StopRecording(e: EngineState): (r: EngineState)
    requires e.Valid()
    ensures r.Valid()
    ensures !r.recording && !r.fileOpen
    ensures r == e.(recording := false, fileOpen := false)
  {
    e.(recording := false, fileOpen := false)
  }

  /** The capture gate of one callback, evaluated at the clock snapshot
      `currentFrame`, for a read that returned `readCount` samples. */
  predicate CaptureGate(e: EngineState, currentFrame: int, readCount: int) {
    e.record == Some(Started) && readCount > 0 && e.recording && e.fileOpen
    && currentFrame >= e.recordStart
  }

  /** The capture step of one callback: `captured` is what the non-blocking
      read returned (at most `numFrames` samples). Past the gate the samples
      are counted; they reach the sink only if the file stream is good. */
  function Capture(e: EngineState, currentFrame: int, captured: seq<Sample>): (r: EngineState)
    requires e.Valid()
    ensures r.Valid()
    ensures CaptureGate(e, currentFrame, |captured|) ==>
              r.recordedCount == e.recordedCount + |captured|
              && r.sink == (if e.fileGood then e.sink + captured else e.sink)
    ensures !CaptureGate(e, currentFrame, |captured|) ==> r == e
    ensures r == e.(sink := r.sink, recordedCount := r.recordedCount)
  {
    if CaptureGate(e, currentFrame, |captured|) then
      e.(sink := if e.fileGood then e.sink + captured else e.sink,
         recordedCount := e.recordedCount + |captured|)
    else e
  }

  /** The state change of one `onAudioReady` call: capture against the clock
      snapshot, then advance the clock (an atomic int64 add) by `numFrames`. */
  function Callback(e: EngineState, numFrames: int, captured: seq<Sample>): (r: EngineState)
    requires e.Valid() && IsInt32(numFrames)
    ensures r.Valid()
    ensures r.clock == Wrap64(e.clock + numFrames)
    ensures r.tracks == e.tracks && r.running == e.running
    ensures r.play == e.play && r.record == e.record
    ensures r.recording == e.recording && r.recordStart == e.recordStart
    ensures r.fileOpen == e.fileOpen && r.fileGood == e.fileGood
    // capture is gated on the clock value read on entry
    ensures CaptureGate(e, e.clock, |captured|) ==>
              r.recordedCount == e.recordedCount + |captured|
              && r.sink == (if e.fileGood then e.sink + captured else e.sink)
    ensures !CaptureGate(e, e.clock, |captured|) ==>
              r.recordedCount == e.recordedCount && r.sink == e.sink
  {
    var currentFrame := e.clock;
    var captureDone := Capture(e, currentFrame, captured);
    captureDone.(clock := Wrap64(currentFrame + numFrames))
  }

  /** `onErrorAfterClose`: the device layer has already closed the play
      stream that reported the error; only a disconnect stops the engine. */
  function ErrorAfterClose(e: EngineState, disconnected: bool): (r: EngineState)
    requires e.Valid()
    ensures r.Valid()
    ensures r.running <==> e.running && !disconnected
    ensures r.play == (if e.play.Some? then Some(Closed) else None)
    ensures r == e.(running := r.running, play := r.play)
  {
    e.(running := e.running && !disconnected,
       play := if e.play.Some? then Some(Closed) else None)
  }

  // ---------------------------------------------------------------------
  // Properties of operation sequences
  // ---------------------------------------------------------------------

  /** The result of `start` does not depend on whether the capture stream
      started: a record-start failure never blocks playback. */
  lemma RecordStartFailureDoesNotBlock(e: EngineState, o: DeviceOutcomes)
    requires e.Valid()
    ensures Start(e, o).running == Start(e, o.(recordStarts := false)).running
    ensures Start(e, o).play == Start(e, o.(recordStarts := false)).play
  {
  }

  /** `stop` then `start` resumes at the clock value `stop` saw. */
  lemma StopStartResumes(e: EngineState, o: DeviceOutcomes)
    requires e.Valid()
    ensures Stop(e).Valid()
    ensures Start(Stop(e), o).clock == e.clock
  {
  }

  /** Once `stop` has paused a started play stream, a `start` whose play
      start returns OK runs the engine again without reopening anything. */
  lemma StopStartRestarts(e: EngineState, o: DeviceOutcomes)
    requires e.Valid() && e.running && e.play == Some(Started) && o.playStarts
    ensures Stop(e).Valid()
    ensures Start(Stop(e), o).running && Start(Stop(e), o).play == Some(Started)
    ensures Start(Stop(e), o).tracks == e.tracks
  {
  }

  /** After `reset`, the next `start` reopens the streams and the next
      callback mixes from frame 0. */
  lemma ResetRestartsFromZero(e: EngineState, o: DeviceOutcomes)
    requires e.Valid()
    ensures Reset(e).Valid() && Start(Reset(e), o).clock == 0
    ensures Start(Reset(e), o).running <==> o.playOpens && o.playStarts
  {
  }

  /** A seek leaves tracks and recording untouched, and the next callback
      gates its capture against the target frame and advances from it. */
  lemma SeekThenCallback(e: EngineState, frame: int, numFrames: int, captured: seq<Sample>)
    requires e.Valid() && IsInt64(frame) && IsInt32(numFrames)
    ensures Seek(e, frame).tracks == e.tracks && Seek(e, frame).recording == e.recording
    ensures Callback(Seek(e, frame), numFrames, captured).clock == Wrap64(frame + numFrames)
    ensures Callback(Seek(e, frame), numFrames, captured).sink
            == if CaptureGate(e, frame, |captured|) && e.fileGood then e.sink + captured else e.sink
    ensures Callback(Seek(e, frame), numFrames, captured).recordedCount
            == if CaptureGate(e, frame, |captured|) then e.recordedCount + |captured| else e.recordedCount
  {
  }

  /** Recording gating: while the clock is before the threshold nothing is
      written or counted, whatever the read returned. */
  lemma EarlyCaptureDiscarded(e: EngineState, numFrames: int, captured: seq<Sample>)
    requires e.Valid() && IsInt32(numFrames) && e.clock < e.recordStart
    ensures Callback(e, numFrames, captured).sink == e.sink
    ensures Callback(e, numFrames, captured).recordedCount == e.recordedCount
  {
  }

  /** A session started by a successful open of a closed file counts exactly
      the samples its file holds, through any run of callbacks. */
  lemma SessionCountsItsSink(e: EngineState, startFrame: int, steps: seq<Step>)
    requires e.Valid() && IsInt32(startFrame) && StepsFit(steps)
    requires !e.fileOpen
    ensures var r := Run(StartRecording(e, startFrame, true), steps);
            r.recording && r.recordedCount == |r.sink|
  {
    RunKeepsRecordingState(StartRecording(e, startFrame, true), steps);
  }

  /** Source discrepancy, as written: a second `startRecording` while the
      file is open fails to open, but re-arms recording; the next callback past
      the threshold counts every sample read while the file receives none. */
  lemma DoubleStartCountsUnwrittenSamples(
    e: EngineState, startFrame: int, numFrames: int, captured: seq<Sample>)
    requires e.Valid() && !e.fileOpen && e.record == Some(Started)
    requires IsInt32(startFrame) && startFrame <= e.clock && IsInt32(numFrames)
    requires |captured| > 0
    ensures var twice := StartRecording(StartRecording(e, startFrame, true), startFrame, true);
            var r := Callback(twice, numFrames, captured);
            r.recording && r.recordedCount == |captured| && r.sink == []
  {
  }

  /** The evidently intended `startRecording`: an open file is closed before
      the new one is opened, so the new session always gets its own file. */
  function StartRecordingReopen(e: EngineState, startFrame: int, opens: bool): (r: EngineState)
    requires e.Valid() && IsInt32(startFrame)
    ensures r.Valid()
    ensures r.recordStart == startFrame && r.recordedCount == 0
    ensures r.fileOpen <==> opens
    ensures r.fileGood <==> opens
    ensures r.recording <==> opens
    ensures opens ==> r.sink == []
  {
    StartRecording(StopRecording(e), startFrame, opens)
  }

  /** With the intended `startRecording`, every session whose file opens
      counts exactly the samples its file holds, whatever came before. */
  lemma ReopenedSessionCountsItsSink(e: EngineState, startFrame: int, steps: seq<Step>)
    requires e.Valid() && IsInt32(startFrame) && StepsFit(steps)
    ensures var r := Run(StartRecordingReopen(e, startFrame, true), steps);
            r.recording && r.recordedCount == |r.sink|
  {
    SessionCountsItsSink(StopRecording(e), startFrame, steps);
  }

  /** Source discrepancy, as written: after any error other than a
      disconnect the play stream is closed but the engine still counts as
      running, so `start` returns at once and the engine stays silent until
      a `stop`. */
  lemma WedgedAfterNonDisconnectError(e: EngineState, o: DeviceOutcomes)
    requires e.Valid() && e.running
    ensures var failed := ErrorAfterClose(e, false);
            failed.running && failed.play == Some(Closed) && Start(failed, o) == failed
  {
  }

  /** The evidently intended `onErrorAfterClose`: every error that closes
      the play stream stops the engine, not only a disconnect. */
  function ErrorAfterCloseStops(e: EngineState, disconnected: bool): (r: EngineState)
    requires e.Valid()
    ensures r.Valid()
    ensures !r.running
    ensures r.play == (if e.play.Some? then Some(Closed) else None)
    ensures r == e.(running := false, play := r.play)
  {
    e.(running := false, play := if e.play.Some? then Some(Closed) else None)
  }

  /** With the intended `onErrorAfterClose`, the next `start` after any error
      reopens the streams and runs exactly when the new play stream opens and
      starts. */
  lemma ErrorThenStartReopens(e: EngineState, disconnected: bool, o: DeviceOutcomes)
    requires e.Valid()
    ensures var r := Start(ErrorAfterCloseStops(e, disconnected), o);
            (r.running <==> o.playOpens && o.playStarts)
            && r.play == (if !o.playOpens then None else if o.playStarts then Some(Started) else Some(Open))
  {
  }

  /** One callback step: frames the device asks for and samples it read. */
  datatype Step = Step(numFrames: nat, captured: seq<Sample>)

  function TotalFrames(steps: seq<Step>): nat {
    if steps == [] then 0 else TotalFrames(steps[..|steps| - 1]) + steps[|steps| - 1].numFrames
  }

  predicate StepsFit(steps: seq<Step>) {
    forall k :: 0 <= k < |steps| ==> IsInt32(steps[k].numFrames)
  }

  /** A run of consecutive callbacks with no other operation in between. */
  function Run(e: EngineState, steps: seq<Step>): (r: EngineState)
    requires e.Valid() && StepsFit(steps)
    ensures r.Valid()
  {
    if steps == [] then e
    else
      var last := steps[|steps| - 1];
      Callback(Run(e, steps[..|steps| - 1]), last.numFrames, last.captured)
  }

  /** Clock monotonicity: with no seek in between and no int64 overflow, a run
      of callbacks advances the clock by exactly the frames delivered, and
      never touches tracks, running flag or streams. */
  lemma {:induction false} RunAdvancesClock(e: EngineState, steps: seq<Step>)
    requires e.Valid() && StepsFit(steps)
    requires e.clock + TotalFrames(steps) <= INT64_MAX
    ensures Run(e, steps).clock == e.clock + TotalFrames(steps)
    ensures Run(e, steps).tracks == e.tracks && Run(e, steps).running == e.running
    ensures Run(e, steps).play == e.play && Run(e, steps).record == e.record
  {
    if steps != [] {
      var front := steps[..|steps| - 1];
      assert StepsFit(front);
      RunAdvancesClock(e, front);
    }
  }

  /** Callbacks never open, close or fail the recording file, nor switch
      recording on or off. */
  lemma {:induction false} RunKeepsRecordingState(e: EngineState, steps: seq<Step>)
    requires e.Valid() && StepsFit(steps)
    ensures Run(e, steps).recording == e.recording
    ensures Run(e, steps).fileOpen == e.fileOpen && Run(e, steps).fileGood == e.fileGood
  {
    if steps != [] {
      var front := steps[..|steps| - 1];
      assert StepsFit(front);
      RunKeepsRecordingState(e, front);
    }
  }

  /** The recorded counter never decreases during a run of callbacks. */
  lemma {:induction false} RunCounterGrows(e: EngineState, steps: seq<Step>)
    requires e.Valid() && StepsFit(steps)
    ensures e.recordedCount <= Run(e, steps).recordedCount
    ensures e.sink <= Run(e, steps).sink
  {
    if steps != [] {
      var front := steps[..|steps| - 1];
      assert StepsFit(front);
      RunCounterGrows(e, front);
    }
  }
}
