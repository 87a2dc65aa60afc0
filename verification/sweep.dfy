/** The sweep reveal: how much of each segment is drawn at an animation
    progress.

  The animation runs an integer progress from 0 to 360. On each frame every
  segment is drawn in full once the progress has passed its end, drawn from
  its start up to the progress once the progress has passed its start, and
  not drawn otherwise. Progress, starts and extents share one numeric scale.
 */
module Sweep {
  import opened RingLayout

  /** The extent of the segment drawn at this progress, with the strict
      comparisons of `drawCircle`: past the end draws it all, past the start draws up
      to the progress, and anything else draws nothing (extent 0). */
  function VisibleExtent(seg: Segment, progress: int): (v: real)
    ensures seg.extent >= 0.0 ==> 0.0 <= v <= seg.extent
    ensures seg.extent >= 0.0 && progress as real <= seg.start ==> v == 0.0
    ensures seg.extent >= 0.0 && progress as real >= seg.End() ==> v == seg.extent
    ensures seg.start < progress as real < seg.End() ==> v == progress as real - seg.start
  {
    var p := progress as real;
    if p > seg.start + seg.extent then seg.extent
    else if p > seg.start then p - seg.start
    else 0.0
  }

  /** The segment is partly drawn: the progress lies strictly inside it. */
  predicate Partial(seg: Segment, progress: int)
  {
    seg.start < progress as real < seg.End()
  }

  /** The drawn extent never shrinks while the progress grows. */
  lemma VisibleMonotone(seg: Segment, p: int, q: int)
    requires seg.extent >= 0.0
    requires p <= q
    ensures VisibleExtent(seg, p) <= VisibleExtent(seg, q)
  {
  }

  /** The drawn extent is below the full extent exactly while the progress
      has not reached the segment's end. */
  lemma VisibleFullIff(seg: Segment, progress: int)
    requires seg.extent >= 0.0
    ensures VisibleExtent(seg, progress) == seg.extent <==> seg.extent == 0.0 || progress as real >= seg.End()
  {
  }

  /** In a frame over segments laid end to end with a non-negative gap, at
      most one segment is partly drawn. */
  lemma FrameAtMostOnePartial(segs: seq<Segment>, first: real, gap: real, progress: int, i: nat, j: nat)
    requires Chained(segs, first, gap)
    requires ExtentsNonNegative(segs)
    requires gap >= 0.0
    requires i < j < |segs|
    ensures !(Partial(segs[i], progress) && Partial(segs[j], progress))
  {
    ChainedNoOverlap(segs, first, gap, i, j);
  }

  /** In a frame over segments laid end to end with a non-negative gap, the
      segments before a partly drawn one are drawn in full and the segments
      after it are not drawn. */
  lemma FrameAroundPartial(segs: seq<Segment>, first: real, gap: real, progress: int, k: nat, i: nat)
    requires Chained(segs, first, gap)
    requires ExtentsNonNegative(segs)
    requires gap >= 0.0
    requires k < |segs| && i < |segs|
    requires Partial(segs[k], progress)
    ensures i < k ==> VisibleExtent(segs[i], progress) == segs[i].extent
    ensures k < i ==> VisibleExtent(segs[i], progress) == 0.0
  {
    if i < k {
      ChainedNoOverlap(segs, first, gap, i, k);
    } else if k < i {
      ChainedNoOverlap(segs, first, gap, k, i);
    }
  }

  /** Once the progress has passed the end of the last of a run of segments
      laid end to end with a non-negative gap, every segment is drawn in full. */
  lemma FrameFullyDrawn(segs: seq<Segment>, first: real, gap: real, progress: int, i: nat)
    requires Chained(segs, first, gap)
    requires ExtentsNonNegative(segs)
    requires gap >= 0.0
    requires i < |segs|
    requires segs[|segs| - 1].End() <= progress as real
    ensures VisibleExtent(segs[i], progress) == segs[i].extent
  {
    if i < |segs| - 1 {
      ChainedNoOverlap(segs, first, gap, i, |segs| - 1);
    }
  }

  /** The frame drawn at a progress: the visible extent of every segment, in
      draw order. */
  method VisibleExtents(segs: seq<Segment>, progress: int) returns (vs: seq<real>)
    ensures |vs| == |segs|
    ensures forall i :: 0 <= i < |segs| ==> vs[i] == VisibleExtent(segs[i], progress)
    ensures forall i :: 0 <= i < |segs| && segs[i].extent >= 0.0 ==> 0.0 <= vs[i] <= segs[i].extent
  {
    vs := [];
    var i := 0;
    while i < |segs|
      invariant 0 <= i <= |segs|
      invariant |vs| == i
      invariant forall k :: 0 <= k < i ==> vs[k] == VisibleExtent(segs[k], progress)
    {
      vs := vs + [VisibleExtent(segs[i], progress)];
      i := i + 1;
    }
  }
}
