/** The track model and the per-frame mix arithmetic: where a track sits on the
    timeline, which of its samples falls on a given output frame, and the sum
    over the track list that an output frame receives. */
module Tracks {
  import opened Bounded

  /** A loaded mono clip: its samples, the timeline frame where it begins and
      its length in frames. */
  datatype Track = Track(data: seq<Sample>, startFrame: int, lengthFrames: int)
  {
    /** The stored length equals the number of samples, and both position and
        length fit the int32 fields that hold them. */
    predicate WellFormed() {
      lengthFrames == |data| && IsInt32(startFrame) && IsInt32(lengthFrames)
    }
  }

  predicate AllWellFormed(tracks: seq<Track>) {
    forall k :: 0 <= k < |tracks| ==> tracks[k].WellFormed()
  }

  /** Sample index into `t` for output frame `i` of a callback that starts at
      timeline frame `currentFrame`. */
  function SampleIndex(t: Track, currentFrame: int, i: int): int {
    currentFrame - t.startFrame + i
  }

  /** What track `t` adds to output frame `i`: the sample at the timeline frame
      `currentFrame + i` when the track covers it, otherwise silence. */
  function Contribution(t: Track, currentFrame: int, i: int): (r: int)
    requires t.WellFormed()
    ensures t.startFrame <= currentFrame + i < t.startFrame + t.lengthFrames ==>
              r == t.data[currentFrame + i - t.startFrame]
    ensures !(t.startFrame <= currentFrame + i < t.startFrame + t.lengthFrames) ==> r == 0
  {
    var idx := SampleIndex(t, currentFrame, i);
    if 0 <= idx < t.lengthFrames then t.data[idx] else 0
  }

  /** The overlap guard evaluated once per track and callback: the track's
      span [startFrame, startFrame + lengthFrames) meets the window
      [currentFrame, currentFrame + numFrames) on the timeline. */
  predicate Overlaps(t: Track, currentFrame: int, numFrames: int)
    ensures Overlaps(t, currentFrame, numFrames) <==>
              currentFrame < t.startFrame + t.lengthFrames && t.startFrame < currentFrame + numFrames
  {
    var offset := currentFrame - t.startFrame;
    offset < t.lengthFrames && offset + numFrames > 0
  }

  /** The sum, in list order, of every track's contribution to output frame
      `i`. Each track adds at most one int16 sample, so n tracks can reach n
      times full scale: the reason the output is clipped. */
  function MixedFrame(tracks: seq<Track>, currentFrame: int, i: int): (r: int)
    requires AllWellFormed(tracks)
    ensures |tracks| * INT16_MIN <= r <= |tracks| * INT16_MAX
  {
    if tracks == [] then 0
    else MixedFrame(tracks[..|tracks| - 1], currentFrame, i)
         + Contribution(tracks[|tracks| - 1], currentFrame, i)
  }

  /** Appending a track adds exactly its contribution to every frame. */
  lemma MixedFrameAppend(tracks: seq<Track>, t: Track, currentFrame: int, i: int)
    requires AllWellFormed(tracks) && t.WellFormed()
    ensures AllWellFormed(tracks + [t])
    ensures MixedFrame(tracks + [t], currentFrame, i)
            == MixedFrame(tracks, currentFrame, i) + Contribution(t, currentFrame, i)
  {
    assert (tracks + [t])[..|tracks|] == tracks;
  }

  /** The mix of a concatenated track list is the sum of the two mixes. */
  lemma {:induction false} MixedFrameConcat(a: seq<Track>, b: seq<Track>, currentFrame: int, i: int)
    requires AllWellFormed(a) && AllWellFormed(b)
    ensures AllWellFormed(a + b)
    ensures MixedFrame(a + b, currentFrame, i)
            == MixedFrame(a, currentFrame, i) + MixedFrame(b, currentFrame, i)
  {
    if b == [] {
      assert a + b == a;
    } else {
      var front, last := b[..|b| - 1], b[|b| - 1];
      assert b == front + [last];
      assert a + b == (a + front) + [last];
      MixedFrameConcat(a, front, currentFrame, i);
      MixedFrameAppend(a + front, last, currentFrame, i);
    }
  }

  /** Every track of a list with the same tracks as a well-formed list is
      well formed. */
  lemma SameTracksWellFormed(a: seq<Track>, b: seq<Track>)
    requires AllWellFormed(a) && multiset(a) == multiset(b)
    ensures AllWellFormed(b)
  {
    forall k | 0 <= k < |b| ensures b[k].WellFormed() {
      assert b[k] in multiset(a);
      var j :| 0 <= j < |a| && a[j] == b[k];
    }
  }

  /** Taking the track at position `k` out of a list removes exactly its
      contribution. */
  lemma MixedFrameRemove(b: seq<Track>, k: int, currentFrame: int, i: int)
    requires AllWellFormed(b) && 0 <= k < |b|
    ensures AllWellFormed(b[..k] + b[k + 1..])
    ensures MixedFrame(b, currentFrame, i)
            == MixedFrame(b[..k] + b[k + 1..], currentFrame, i) + Contribution(b[k], currentFrame, i)
  {
    var before, after := b[..k], b[k + 1..];
    assert b == before + [b[k]] + after;
    assert AllWellFormed(before) && AllWellFormed(after);
    MixedFrameConcat(before, after, currentFrame, i);
    MixedFrameAppend(before, b[k], currentFrame, i);
    MixedFrameConcat(before + [b[k]], after, currentFrame, i);
  }

  /** Summation order does not matter: any reordering of the track list
      (the same tracks, each as often) gives the same frame. */
  lemma {:induction false} MixOrderIrrelevant(a: seq<Track>, b: seq<Track>, currentFrame: int, i: int)
    requires AllWellFormed(a) && multiset(a) == multiset(b)
    ensures AllWellFormed(b)
    ensures MixedFrame(a, currentFrame, i) == MixedFrame(b, currentFrame, i)
    decreases |a|
  {
    SameTracksWellFormed(a, b);
    if a == [] {
      assert |b| == |multiset(b)| == 0;
    } else {
      var front, last := a[..|a| - 1], a[|a| - 1];
      assert a == front + [last];
      assert last in multiset(b);
      var k :| 0 <= k < |b| && b[k] == last;
      var rest := b[..k] + b[k + 1..];
      assert b == b[..k] + [last] + b[k + 1..];
      assert multiset(front) == multiset(rest) by {
        assert multiset(a) == multiset(front) + multiset{last};
        assert multiset(b) == multiset(b[..k]) + multiset{last} + multiset(b[k + 1..]);
        assert multiset(rest) == multiset(b[..k]) + multiset(b[k + 1..]);
        assert multiset(front) == multiset(a) - multiset{last};
        assert multiset(rest) == multiset(b) - multiset{last};
      }
      MixedFrameRemove(b, k, currentFrame, i);
      MixOrderIrrelevant(front, rest, currentFrame, i);
    }
  }

  /** A track loaded twice (track ids are never compared) is heard twice as loud. */
  lemma DuplicateTrackDoubles(tracks: seq<Track>, t: Track, currentFrame: int, i: int)
    requires AllWellFormed(tracks) && t.WellFormed()
    ensures AllWellFormed(tracks + [t] + [t])
    ensures MixedFrame(tracks + [t] + [t], currentFrame, i)
            == MixedFrame(tracks, currentFrame, i) + 2 * Contribution(t, currentFrame, i)
  {
    MixedFrameAppend(tracks, t, currentFrame, i);
    MixedFrameAppend(tracks + [t], t, currentFrame, i);
  }

  /** A frame depends only on its absolute timeline position: output frame
      `a + j` of a callback at `currentFrame` equals output frame `j` of a
      callback at `currentFrame + a`. */
  lemma {:induction false} MixedFrameShift(tracks: seq<Track>, currentFrame: int, a: int, j: int)
    requires AllWellFormed(tracks)
    ensures MixedFrame(tracks, currentFrame, a + j) == MixedFrame(tracks, currentFrame + a, j)
  {
    if tracks != [] {
      MixedFrameShift(tracks[..|tracks| - 1], currentFrame, a, j);
    }
  }

  /** First output frame of the window at which `t` is heard, when it is heard. */
  function FirstAudibleFrame(t: Track, currentFrame: int): int {
    var offset := currentFrame - t.startFrame;
    if offset < 0 then -offset else 0
  }

  /** The guard never drops a track that would be heard: outside the guard,
      the track contributes silence to every frame of the window. */
  lemma GuardSound(t: Track, currentFrame: int, numFrames: int, i: int)
    requires t.WellFormed()
    requires 0 <= i < numFrames
    requires !Overlaps(t, currentFrame, numFrames)
    ensures Contribution(t, currentFrame, i) == 0
  {
  }

  /** The guard is exact for non-empty tracks and windows: it holds if and
      only if some frame of the window reads a sample of the track. */
  lemma GuardExact(t: Track, currentFrame: int, numFrames: int)
    requires t.WellFormed()
    requires t.lengthFrames > 0 && numFrames > 0
    ensures Overlaps(t, currentFrame, numFrames)
            <==> exists i :: 0 <= i < numFrames
                             && 0 <= SampleIndex(t, currentFrame, i) < t.lengthFrames
  {
    if Overlaps(t, currentFrame, numFrames) {
      var i := FirstAudibleFrame(t, currentFrame);
      assert 0 <= i < numFrames && 0 <= SampleIndex(t, currentFrame, i) < t.lengthFrames;
    }
  }

  /** A zero-length track passes the guard for some windows but is never heard. */
  lemma EmptyTrackSilent(t: Track, currentFrame: int, i: int)
    requires t.WellFormed() && t.lengthFrames == 0
    ensures Contribution(t, currentFrame, i) == 0
  {
  }
}
