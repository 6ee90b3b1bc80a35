/** The engine object: the fields of the C++ class, updated in place by its
    methods. Every method keeps `Valid()`; each state-changing operation moves
    `Snapshot()` exactly as the matching transition of module EngineSpec
    prescribes, and `CloseStreams` and the getters state their effect on the
    fields directly. Device answers
    (did a stream open, did `start()` return OK, what did a read return, which
    error was reported) arrive as parameters. */
module Engine {
  import opened Bounded
  import opened Tracks
  import opened Mixing
  import opened EngineSpec

  class AudioEngine {
    var playStream: Option<StreamState>
    var recordStream: Option<StreamState>
    var tracks: seq<Track>
    var recording: bool
    /** Whether the recording file is open. */
    var fileOpen: bool
    /** Whether the file stream's fail state is clear. */
    var fileGood: bool
    /** The samples written to the recording file last opened. */
    var sink: seq<Sample>
    var recordStart: int
    var recordedCount: int
    var clock: int
    var running: bool

    function Snapshot(): EngineState
      reads this
    {
      EngineState(clock, running, playStream, recordStream, tracks, recording, fileOpen,
                  fileGood, recordStart, recordedCount, sink)
    }

    predicate Valid()
      reads this
    {
      Snapshot().Valid()
    }

    constructor ()
      ensures Valid() && Snapshot() == Fresh()
    {
      playStream, recordStream := None, None;
      tracks := [];
      recording, fileOpen, fileGood, sink := false, false, true, [];
      recordStart, recordedCount := 0, 0;
      clock := 0;
      running := false;
    }

    method Start(outcomes: DeviceOutcomes)
      requires Valid()
      modifies this
      ensures Valid() && Snapshot() == EngineSpec.Start(old(Snapshot()), outcomes)
    {
      if running {
        return;
      }
      if playStream == None || playStream == Some(Closed) {
        OpenStreams(outcomes.playOpens, outcomes.recordOpens);
      }
      // start the microphone first so that it is warm when playback begins
      if recordStream.Some? {
        var state := recordStream.value;
        if state == Stopped || state == Open {
          if outcomes.recordStarts {
            recordStream := Some(Started);
          }
        }
      }
      // the speaker stream drives the callback
      if playStream.Some? {
        var state := playStream.value;
        if state == Stopped || state == Open {
          if outcomes.playStarts {
            playStream := Some(Started);
            running := true;
          }
        }
      }
    }

    method Stop()
      requires Valid()
      modifies this
      ensures Valid() && Snapshot() == EngineSpec.Stop(old(Snapshot()))
    {
      if !running {
        return;
      }
      running := false;
      // pause the streams without closing them; the clock stays where it is
      playStream := Halted(playStream);
      recordStream := Halted(recordStream);
    }

    method Reset()
      requires Valid()
      modifies this
      ensures Valid() && Snapshot() == EngineSpec.Reset(old(Snapshot()))
    {
      running := false;
      playStream := Halted(playStream);
      recordStream := Halted(recordStream);
      CloseStreams();
      clock := 0;
    }

    /** The play handle is replaced by the opened stream, or emptied when the
        open fails, in which case the record handle is left as it was. */
    method OpenStreams(playOpens: bool, recordOpens: bool)
      requires Valid() && !running
      modifies this`playStream, this`recordStream
      ensures Valid() && Snapshot() == EngineSpec.OpenStreams(old(Snapshot()), playOpens, recordOpens)
    {
      if !playOpens {
        playStream := None;
        return;
      }
      playStream := Some(Open);
      // without a capture stream the engine plays but cannot record
      recordStream := if recordOpens then Some(Open) else None;
    }

    method CloseStreams()
      requires Valid() && !running
      modifies this`playStream, this`recordStream
      ensures Valid() && playStream == None && recordStream == None
    {
      playStream := None;
      recordStream := None;
    }

    method LoadTrack(trackId: string, samples: seq<Sample>, startFrame: int)
      requires Valid() && IsInt32(startFrame) && |samples| <= INT32_MAX
      modifies this
      ensures Valid() && Snapshot() == EngineSpec.LoadTrack(old(Snapshot()), trackId, samples, startFrame)
    {
      var numSamples := |samples|;
      var data := new Sample[numSamples];
      var i := 0;
      while i < numSamples
        modifies data
        invariant 0 <= i <= numSamples
        invariant data[..i] == samples[..i]
      {
        data[i] := samples[i];
        i := i + 1;
      }
      assert data[..] == data[..numSamples] && samples[..numSamples] == samples;
      var track := Track(data[..], startFrame, numSamples);
      assert track == NewTrack(samples, startFrame);
      tracks := tracks + [track];
    }

    method ClearTracks()
      requires Valid()
      modifies this
      ensures Valid() && Snapshot() == EngineSpec.ClearTracks(old(Snapshot()))
    {
      tracks := [];
    }

    /** `opens` is whether the file at `filePath` can be opened for writing. */
    method StartRecording(filePath: string, startFrame: int, opens: bool)
      requires Valid() && IsInt32(startFrame)
      modifies this
      ensures Valid() && Snapshot() == EngineSpec.StartRecording(old(Snapshot()), startFrame, opens)
    {
      recordStart := startFrame;
      recordedCount := 0;
      // opening a file that is already open fails and leaves it open, but
      // puts the stream in its fail state; a successful open clears that state
      if !fileOpen && opens {
        fileOpen := true;
        fileGood := true;
        sink := [];
      } else {
        fileGood := false;
      }
      if fileOpen {
        recording := true;
      }
    }

    method StopRecording()
      requires Valid()
      modifies this
      ensures Valid() && Snapshot() == EngineSpec.StopRecording(old(Snapshot()))
    {
      recording := false;
      if fileOpen {
        fileOpen := false;
      }
    }

    method SeekToFrame(frame: int)
      requires Valid() && IsInt64(frame)
      modifies this
      ensures Valid() && Snapshot() == EngineSpec.Seek(old(Snapshot()), frame)
    {
      clock := frame;
    }

    /** One device callback. `out` is the device's buffer of `2 * numFrames`
        interleaved slots, `captured` what a non-blocking read of the capture
        stream returns, and `clip` the soft-clip curve. */
    method OnAudioReady(out: array<int>, numFrames: int, captured: seq<Sample>, clip: int -> int)
      requires Valid()
      requires 0 <= numFrames && IsInt32(2 * numFrames) && out.Length == 2 * numFrames
      requires |captured| <= numFrames
      modifies this, out
      ensures Valid() && Snapshot() == Callback(old(Snapshot()), numFrames, captured)
      ensures out[..] == ClipAll(StereoMix(tracks, old(clock), numFrames), clip)
    {
      var currentFrame := clock;
      // 1. capture, gated by the clock snapshot
      if recordStream == Some(Started) {
        var readCount := |captured|;
        if readCount > 0 && recording && fileOpen {
          if currentFrame >= recordStart {
            // a write on a stream in its fail state writes nothing
            if fileGood {
              sink := sink + captured;
            }
            recordedCount := recordedCount + readCount;
          }
        }
      }
      // 2. mix at the same snapshot, then soft-clip
      MixInto(out, tracks, currentFrame, numFrames);
      SoftClip(out, clip);
      clock := Wrap64(clock + numFrames);
    }

    /** Called after the device layer has closed the play stream that failed. */
    method OnErrorAfterClose(disconnected: bool)
      requires Valid()
      modifies this
      ensures Valid() && Snapshot() == ErrorAfterClose(old(Snapshot()), disconnected)
    {
      playStream := if playStream.Some? then Some(Closed) else None;
      if disconnected {
        running := false;
      }
    }

    method GetCurrentFrame() returns (frame: int)
      requires Valid()
      ensures frame == clock && IsInt64(frame)
    {
      frame := clock;
    }

    /** The int32 threshold, widened. */
    method GetRecordingStartFrame() returns (frame: int)
      requires Valid()
      ensures frame == recordStart && IsInt32(frame)
    {
      frame := recordStart;
    }

    method GetRecordedSampleCount() returns (count: int)
      requires Valid()
      ensures count == recordedCount && 0 <= count
      ensures fileGood ==> count == |sink|
    {
      count := recordedCount;
    }
  }
}
