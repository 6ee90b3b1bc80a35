/** The output side of one audio callback: the interleaved stereo buffer
    (frame i occupies slots 2i and 2i+1), the mix that fills it, and the soft
    clip applied to the slots that exceed full scale. */
module Mixing {
  import opened Tracks

  /** Float full scale 1.0 expressed in raw 16-bit units (1.0 == 32768 / 32768). */
  const FULL_SCALE: int := 0x8000

  /** The mono mix of a callback window of `numFrames` frames. */
  function MonoMix(tracks: seq<Track>, currentFrame: int, numFrames: nat): seq<int>
    requires AllWellFormed(tracks)
  {
    seq(numFrames, i requires 0 <= i < numFrames => MixedFrame(tracks, currentFrame, i))
  }

  /** Mono to interleaved stereo: every frame is copied to left and right. */
  function Interleave(mono: seq<int>): seq<int> {
    if mono == [] then [] else [mono[0], mono[0]] + Interleave(mono[1..])
  }

  /** The left channel (even slots) of an interleaved buffer. */
  function Left(stereo: seq<int>): seq<int> {
    if |stereo| < 2 then [] else [stereo[0]] + Left(stereo[2..])
  }

  /** The right channel (odd slots) of an interleaved buffer. */
  function Right(stereo: seq<int>): seq<int> {
    if |stereo| < 2 then [] else [stereo[1]] + Right(stereo[2..])
  }

  /** What one callback writes before clipping. */
  function StereoMix(tracks: seq<Track>, currentFrame: int, numFrames: nat): seq<int>
    requires AllWellFormed(tracks)
  {
    Interleave(MonoMix(tracks, currentFrame, numFrames))
  }

  /** The index mapping: frame `i` lands on slots `2i` (left) and `2i+1` (right). */
  lemma {:induction false} InterleaveAt(mono: seq<int>, i: int)
    requires 0 <= i < |mono|
    ensures |Interleave(mono)| == 2 * |mono|
    ensures Interleave(mono)[2 * i] == mono[i] && Interleave(mono)[2 * i + 1] == mono[i]
  {
    if i > 0 {
      InterleaveAt(mono[1..], i - 1);
    } else if |mono| > 1 {
      InterleaveAt(mono[1..], 0);
    }
  }

  lemma {:induction false} InterleaveLength(mono: seq<int>)
    ensures |Interleave(mono)| == 2 * |mono|
  {
    if mono != [] {
      InterleaveLength(mono[1..]);
    }
  }

  /** Both channels of an interleaved buffer give back the mono signal. */
  lemma {:induction false} InterleaveRoundTrip(mono: seq<int>)
    ensures Left(Interleave(mono)) == mono && Right(Interleave(mono)) == mono
  {
    if mono != [] {
      InterleaveLength(mono[1..]);
      var s := Interleave(mono);
      assert s[2..] == Interleave(mono[1..]);
      InterleaveRoundTrip(mono[1..]);
    }
  }

  /** Conversely, an even-length buffer whose channels agree is the
      interleaving of its left channel. */
  lemma {:induction false} DuplicatedIsInterleaved(stereo: seq<int>)
    requires |stereo| % 2 == 0 && Left(stereo) == Right(stereo)
    ensures Interleave(Left(stereo)) == stereo
  {
    if |stereo| >= 2 {
      var rest := stereo[2..];
      assert Left(stereo) == [stereo[0]] + Left(rest);
      assert Right(stereo) == [stereo[1]] + Right(rest);
      assert Left(stereo)[1..] == Left(rest);
      DuplicatedIsInterleaved(rest);
    }
  }

  /** Every frame of the window appears identically in both channels and is
      the sum over the track list. */
  lemma StereoMixAt(tracks: seq<Track>, currentFrame: int, numFrames: nat, i: int)
    requires AllWellFormed(tracks)
    requires 0 <= i < numFrames
    ensures |StereoMix(tracks, currentFrame, numFrames)| == 2 * numFrames
    ensures StereoMix(tracks, currentFrame, numFrames)[2 * i] == MixedFrame(tracks, currentFrame, i)
    ensures StereoMix(tracks, currentFrame, numFrames)[2 * i + 1] == MixedFrame(tracks, currentFrame, i)
  {
    InterleaveAt(MonoMix(tracks, currentFrame, numFrames), i);
  }

  /** Splitting a window into two consecutive callbacks yields the same
      signal: the mix does not depend on the callback size. */
  lemma MonoMixSplit(tracks: seq<Track>, currentFrame: int, a: nat, b: nat)
    requires AllWellFormed(tracks)
    ensures MonoMix(tracks, currentFrame, a + b)
            == MonoMix(tracks, currentFrame, a) + MonoMix(tracks, currentFrame + a, b)
  {
    var whole := MonoMix(tracks, currentFrame, a + b);
    var parts := MonoMix(tracks, currentFrame, a) + MonoMix(tracks, currentFrame + a, b);
    forall k | 0 <= k < a + b ensures whole[k] == parts[k] {
      if k >= a {
        MixedFrameShift(tracks, currentFrame, a, k - a);
      }
    }
  }

  /** One slot after clipping: `clip` (the hyperbolic tangent in the source)
      replaces values beyond full scale, others pass through. */
  function Clipped(clip: int -> int, x: int): int {
    if x > FULL_SCALE || x < -FULL_SCALE then clip(x) else x
  }

  function ClipAll(stereo: seq<int>, clip: int -> int): seq<int> {
    seq(|stereo|, k requires 0 <= k < |stereo| => Clipped(clip, stereo[k]))
  }

  /** Clipping, whatever the clip curve, leaves the length and every
      in-range slot untouched. */
  lemma ClipAllPassesInRange(stereo: seq<int>, clip: int -> int)
    ensures |ClipAll(stereo, clip)| == |stereo|
    ensures forall k :: 0 <= k < |stereo| && -FULL_SCALE <= stereo[k] <= FULL_SCALE ==>
              ClipAll(stereo, clip)[k] == stereo[k]
  {
  }

  /** When the clip curve stays within full scale, clipping brings every slot
      within full scale. */
  lemma ClipAllBounds(stereo: seq<int>, clip: int -> int)
    requires forall x :: -FULL_SCALE <= clip(x) <= FULL_SCALE
    ensures |ClipAll(stereo, clip)| == |stereo|
    ensures forall k :: 0 <= k < |stereo| ==> -FULL_SCALE <= ClipAll(stereo, clip)[k] <= FULL_SCALE
  {
  }

  /** Clipping is applied slot by slot, so a duplicated mono signal stays
      duplicated: clipping the stereo buffer equals interleaving the clipped mono. */
  lemma {:induction false} ClipCommutesWithInterleave(mono: seq<int>, clip: int -> int)
    ensures ClipAll(Interleave(mono), clip) == Interleave(ClipAll(mono, clip))
  {
    if mono != [] {
      InterleaveLength(mono[1..]);
      InterleaveLength(ClipAll(mono[1..], clip));
      ClipCommutesWithInterleave(mono[1..], clip);
      assert ClipAll(mono, clip)[1..] == ClipAll(mono[1..], clip);
      assert Interleave(mono)[2..] == Interleave(mono[1..]);
      var lhs := ClipAll(Interleave(mono), clip);
      assert lhs[2..] == ClipAll(Interleave(mono)[2..], clip);
    }
  }

  /** What the callback leaves in frame `i`: the same value in both channels,
      the track sum passed through the clip curve when it exceeds full scale. */
  lemma CallbackOutputAt(tracks: seq<Track>, currentFrame: int, numFrames: nat, clip: int -> int, i: int)
    requires AllWellFormed(tracks) && 0 <= i < numFrames
    ensures |ClipAll(StereoMix(tracks, currentFrame, numFrames), clip)| == 2 * numFrames
    ensures ClipAll(StereoMix(tracks, currentFrame, numFrames), clip)[2 * i]
            == ClipAll(StereoMix(tracks, currentFrame, numFrames), clip)[2 * i + 1]
            == Clipped(clip, MixedFrame(tracks, currentFrame, i))
  {
    StereoMixAt(tracks, currentFrame, numFrames, i);
  }

  /** A track placed at frame 100 with 50 samples, heard through a callback
      of 40 frames at frame 80, fills output frames 20..39 with its samples
      0..19 and leaves frames 0..19 silent. */
  lemma StraddlingWindow(t: Track, i: int)
    requires t.WellFormed() && t.startFrame == 100 && t.lengthFrames == 50
    requires 0 <= i < 40
    ensures AllWellFormed([t])
    ensures MonoMix([t], 80, 40)[i] == if i < 20 then 0 else t.data[i - 20]
  {
    assert [t][..0] == [];
    assert MixedFrame([t], 80, i) == Contribution(t, 80, i);
  }

  /** `buf` holds, in both channels of each of its `numFrames` frames, the
      mix of `tracks`. */
  predicate HoldsMix(buf: seq<int>, tracks: seq<Track>, currentFrame: int, numFrames: nat)
    requires AllWellFormed(tracks)
  {
    |buf| == 2 * numFrames
    && forall j :: 0 <= j < numFrames ==>
         buf[2 * j] == MixedFrame(tracks, currentFrame, j)
         && buf[2 * j + 1] == MixedFrame(tracks, currentFrame, j)
  }

  /** A buffer holding the mix in both channels is exactly the stereo mix. */
  lemma HoldsMixIsStereoMix(buf: seq<int>, tracks: seq<Track>, currentFrame: int, numFrames: nat)
    requires AllWellFormed(tracks) && HoldsMix(buf, tracks, currentFrame, numFrames)
    ensures buf == StereoMix(tracks, currentFrame, numFrames)
  {
    InterleaveLength(MonoMix(tracks, currentFrame, numFrames));
    forall k | 0 <= k < |buf|
      ensures buf[k] == StereoMix(tracks, currentFrame, numFrames)[k]
    {
      StereoMixAt(tracks, currentFrame, numFrames, k / 2);
    }
  }

  /** The per-track body of the mix loop: if the track passes the overlap
      guard, add each in-range sample to both channels of its frame. */
  method AddTrack(out: array<int>, mixed: seq<Track>, track: Track, currentFrame: int, numFrames: int)
    requires AllWellFormed(mixed) && track.WellFormed()
    requires 0 <= numFrames && HoldsMix(out[..], mixed, currentFrame, numFrames)
    modifies out
    ensures AllWellFormed(mixed + [track])
    ensures HoldsMix(out[..], mixed + [track], currentFrame, numFrames)
  {
    var offset := currentFrame - track.startFrame;
    if offset < track.lengthFrames && offset + numFrames > 0 {
      var i := 0;
      while i < numFrames
        invariant 0 <= i <= numFrames
        invariant forall j :: 0 <= j < i ==>
                    out[2 * j] == MixedFrame(mixed + [track], currentFrame, j)
                    && out[2 * j + 1] == MixedFrame(mixed + [track], currentFrame, j)
        invariant forall j :: i <= j < numFrames ==>
                    out[2 * j] == MixedFrame(mixed, currentFrame, j)
                    && out[2 * j + 1] == MixedFrame(mixed, currentFrame, j)
      {
        MixedFrameAppend(mixed, track, currentFrame, i);
        var sampleIndex := offset + i;
        if 0 <= sampleIndex < track.lengthFrames {
          var sample := track.data[sampleIndex];
          out[i * 2] := out[i * 2] + sample;
          out[i * 2 + 1] := out[i * 2 + 1] + sample;
        }
        i := i + 1;
      }
    } else {
      forall j | 0 <= j < numFrames
        ensures MixedFrame(mixed + [track], currentFrame, j) == MixedFrame(mixed, currentFrame, j)
      {
        MixedFrameAppend(mixed, track, currentFrame, j);
        GuardSound(track, currentFrame, numFrames, j);
      }
    }
    MixedFrameAppend(mixed, track, currentFrame, 0);
  }

  /** Zero the buffer and add every track's overlapping samples to both
      channels of each frame, as the callback's mix loop does in place. */
  method MixInto(out: array<int>, tracks: seq<Track>, currentFrame: int, numFrames: int)
    requires AllWellFormed(tracks)
    requires 0 <= numFrames && out.Length == 2 * numFrames
    modifies out
    ensures out[..] == StereoMix(tracks, currentFrame, numFrames)
  {
    forall k | 0 <= k < out.Length {
      out[k] := 0;
    }
    var t := 0;
    while t < |tracks|
      invariant 0 <= t <= |tracks|
      invariant HoldsMix(out[..], tracks[..t], currentFrame, numFrames)
    {
      assert tracks[..t + 1] == tracks[..t] + [tracks[t]];
      AddTrack(out, tracks[..t], tracks[t], currentFrame, numFrames);
      t := t + 1;
    }
    assert tracks[..|tracks|] == tracks;
    HoldsMixIsStereoMix(out[..], tracks, currentFrame, numFrames);
  }

  /** The soft-clip pass over all `2 * numFrames` slots, in place. */
  method SoftClip(out: array<int>, clip: int -> int)
    modifies out
    ensures out[..] == ClipAll(old(out[..]), clip)
  {
    var i := 0;
    while i < out.Length
      invariant 0 <= i <= out.Length
      invariant forall k :: 0 <= k < i ==> out[k] == Clipped(clip, old(out[k]))
      invariant forall k :: i <= k < out.Length ==> out[k] == old(out[k])
    {
      var sample := out[i];
      if sample > FULL_SCALE || sample < -FULL_SCALE {
        out[i] := clip(sample);
      }
      i := i + 1;
    }
  }
}
