/** Segment layout of the ring chart.

  The chart turns an ordered list of integer weights into arcs. Every value
  receives its share of 100 units minus one section gap, clamped at zero, and
  a cursor that starts at the gap walks around the ring placing the arcs one
  after another, each followed by a gap. Floats are exact reals here, and the
  integers are unbounded.
 */
module RingLayout {

  /** One input datum: an integer weight and the caption shown next to it. */
  datatype DataPoint = DataPoint(value: int, caption: string)

  /** The chart settings the layout reads: the section gap, the stroke width,
      whether line ends are rounded, and how many colours the palette holds
      (a colour is modelled by its palette slot). */
  datatype Config = Config(gap: real, strokeWidth: real, roundCaps: bool, paletteSize: nat)

  /** One arc of the ring, in the same units as the gap. */
  datatype Segment = Segment(start: real, extent: real, color: nat, strokeWidth: real, roundCaps: bool)
  {
    /** Where the arc stops. */
    function End(): real
    {
      start + extent
    }
  }

  /** Sum of the first n weights, as a left fold starting from 0. With no
      negative weight, the sum is never negative and bounds every weight it
      has taken in. */
  function PrefixTotal(data: seq<DataPoint>, n: nat): (r: int)
    requires n <= |data|
    ensures n == 0 ==> r == 0
    ensures NonNegative(data) ==> r >= 0
    ensures NonNegative(data) ==> forall k :: 0 <= k < n ==> data[k].value <= r
  {
    if n == 0 then 0 else PrefixTotal(data, n - 1) + data[n - 1].value
  }

  /** Sum of all the weights: 0 for no data; with no negative weight, never
      negative and at least every single weight. */
  function Total(data: seq<DataPoint>): (r: int)
    ensures |data| == 0 ==> r == 0
    ensures NonNegative(data) ==> r >= 0
    ensures NonNegative(data) ==> forall k :: 0 <= k < |data| ==> data[k].value <= r
  {
    PrefixTotal(data, |data|)
  }

  predicate NonNegative(data: seq<DataPoint>)
  {
    forall i :: 0 <= i < |data| ==> data[i].value >= 0
  }

  /** The data the layout can divide by: no negative weight, and a positive
      total whenever there is any datum at all. */
  predicate ValidData(data: seq<DataPoint>)
  {
    NonNegative(data) && (|data| > 0 ==> Total(data) > 0)
  }

  /** The share of a weight, on a scale where the whole total is 100. */
  function Share(value: int, total: int): real
    requires total != 0
  {
    (value * 100) as real / total as real
  }

  /** The extent of one segment: its share less the gap, never negative. */
  function Extent(value: int, total: int, gap: real): (e: real)
    requires total != 0
    ensures e >= 0.0
    ensures e >= Share(value, total) - gap
    ensures e == 0.0 || e == Share(value, total) - gap
    ensures Share(value, total) >= gap ==> e == Share(value, total) - gap
  {
    var percent := Share(value, total) - gap;
    if percent < 0.0 then 0.0 else percent
  }

  /** Sum of the extents of the first n segments. */
  function PrefixExtent(segs: seq<Segment>, n: nat): real
    requires n <= |segs|
  {
    if n == 0 then 0.0 else PrefixExtent(segs, n - 1) + segs[n - 1].extent
  }

  /** The length of n gaps laid end to end (n times the gap, summed one gap
      at a time so that proofs about it stay linear). */
  function Gaps(n: nat, gap: real): real
  {
    if n == 0 then 0.0 else Gaps(n - 1, gap) + gap
  }

  /** Sum of the extents of all segments. */
  function ExtentSum(segs: seq<Segment>): real
  {
    PrefixExtent(segs, |segs|)
  }

  /** The layout walk from a cursor position and a palette index onward. */
  function LayoutFrom(data: seq<DataPoint>, total: int, cursor: real, index: nat, cfg: Config): (r: seq<Segment>)
    requires |data| > 0 ==> total != 0 && cfg.paletteSize > 0
    ensures |r| == |data|
    ensures |r| > 0 ==> r[0].start == cursor
    // The successor pair (i, j) is bound explicitly so that the quantifier
    // triggers on r[i] and r[j] together; the single-index form with r[i - 1]
    // makes every instance create the next term, a matching loop.
    ensures forall i, j :: 0 <= i < j < |r| && j == i + 1 ==> r[j].start == r[i].End() + cfg.gap
    ensures forall i :: 0 <= i < |r| ==> r[i].extent == Extent(data[i].value, total, cfg.gap)
    ensures forall i :: 0 <= i < |r| ==> r[i].color == (index + i) % cfg.paletteSize
    ensures forall i :: 0 <= i < |r| ==> r[i].strokeWidth == cfg.strokeWidth && r[i].roundCaps == cfg.roundCaps
    decreases |data|
  {
    if |data| == 0 then []
    else
      var percent := Extent(data[0].value, total, cfg.gap);
      var seg := Segment(cursor, percent, index % cfg.paletteSize, cfg.strokeWidth, cfg.roundCaps);
      [seg] + LayoutFrom(data[1..], total, cursor + percent + cfg.gap, index + 1, cfg)
  }

  /** The full layout: the walk starts at the gap with palette slot 0. */
  function Layout(data: seq<DataPoint>, cfg: Config): (r: seq<Segment>)
    requires ValidData(data)
    requires |data| > 0 ==> cfg.paletteSize > 0
    ensures |r| == |data|
    ensures |data| == 0 ==> r == []
    ensures |r| > 0 ==> r[0].start == cfg.gap
    // Successor pair bound explicitly for triggering, as in LayoutFrom.
    ensures forall i, j :: 0 <= i < j < |r| && j == i + 1 ==> r[j].start == r[i].End() + cfg.gap
    ensures forall i :: 0 <= i < |r| ==> r[i].extent == Extent(data[i].value, Total(data), cfg.gap)
    ensures forall i :: 0 <= i < |r| ==> r[i].extent >= 0.0
    ensures forall i :: 0 <= i < |r| ==> r[i].color == i % cfg.paletteSize
    ensures forall i :: 0 <= i < |r| ==> r[i].strokeWidth == cfg.strokeWidth && r[i].roundCaps == cfg.roundCaps
  {
    LayoutFrom(data, Total(data), cfg.gap, 0, cfg)
  }

  /** Segments laid end to end: the first starts at `first`, and every later
      one starts one gap after the end of its predecessor (the successor pair
      is bound explicitly for triggering, as in LayoutFrom). */
  ghost predicate Chained(segs: seq<Segment>, first: real, gap: real)
  {
    && (|segs| > 0 ==> segs[0].start == first)
    && (forall i, j :: 0 <= i < j < |segs| && j == i + 1 ==> segs[j].start == segs[i].End() + gap)
  }

  predicate ExtentsNonNegative(segs: seq<Segment>)
  {
    forall i :: 0 <= i < |segs| ==> segs[i].extent >= 0.0
  }

  /** The total of non-negative weights is non-negative, and it is positive
      exactly when some weight is positive. */
  lemma TotalPositiveIff(data: seq<DataPoint>)
    requires NonNegative(data)
    ensures Total(data) >= 0
    ensures Total(data) > 0 <==> exists i :: 0 <= i < |data| && data[i].value > 0
  {
    PrefixTotalPositiveIff(data, |data|);
  }

  lemma {:induction false} PrefixTotalPositiveIff(data: seq<DataPoint>, n: nat)
    requires NonNegative(data)
    requires n <= |data|
    ensures PrefixTotal(data, n) >= 0
    ensures PrefixTotal(data, n) > 0 <==> exists i :: 0 <= i < n && data[i].value > 0
  {
    if n > 0 {
      PrefixTotalPositiveIff(data, n - 1);
    }
  }

  /** The start of every chained segment in closed form: the first start plus
      the extents before it plus one gap per earlier segment. */
  lemma {:induction false} ChainedStarts(segs: seq<Segment>, first: real, gap: real, i: nat)
    requires Chained(segs, first, gap)
    requires i < |segs|
    ensures segs[i].start == first + PrefixExtent(segs, i) + Gaps(i, gap)
  {
    if i > 0 {
      ChainedStarts(segs, first, gap, i - 1);
    }
  }

  /** Chained segments with a non-negative gap and non-negative extents never
      overlap: every segment ends no later than any later one starts. */
  lemma {:induction false} ChainedNoOverlap(segs: seq<Segment>, first: real, gap: real, i: nat, j: nat)
    requires Chained(segs, first, gap)
    requires ExtentsNonNegative(segs)
    requires gap >= 0.0
    requires i < j < |segs|
    ensures segs[i].End() <= segs[j].start
    ensures segs[i].start <= segs[j].start
    decreases j - i
  {
    if i + 1 < j {
      ChainedNoOverlap(segs, first, gap, i + 1, j);
    }
  }

  lemma ShareAdd(a: int, b: int, total: int)
    requires total != 0
    ensures Share(a, total) + Share(b, total) == Share(a + b, total)
  {
    var t := total as real;
    assert (a * 100) as real + (b * 100) as real == ((a + b) * 100) as real;
    assert (a * 100) as real / t + (b * 100) as real / t == ((a * 100) as real + (b * 100) as real) / t;
  }

  /** Every extent plus its trailing gap covers at least the datum's share,
      so over any prefix the extents and gaps add up to at least the prefix's
      share of 100. */
  lemma {:induction false} PrefixCoverage(data: seq<DataPoint>, segs: seq<Segment>, total: int, gap: real, n: nat)
    requires total != 0
    requires |segs| == |data|
    requires n <= |data|
    requires forall k :: 0 <= k < |segs| ==> segs[k].extent == Extent(data[k].value, total, gap)
    ensures PrefixExtent(segs, n) + Gaps(n, gap) >= Share(PrefixTotal(data, n), total)
  {
    if n > 0 {
      var k := n - 1;
      PrefixCoverage(data, segs, total, gap, k);
      PrefixStep(data, segs, total, gap, k);
      assert segs[k].extent + gap >= Share(data[k].value, total);
    }
  }

  /** When no datum of the prefix is clamped, every extent plus its gap is
      exactly the datum's share, and the prefix adds up to its share of 100. */
  lemma {:induction false} PrefixCoverageExact(data: seq<DataPoint>, segs: seq<Segment>, total: int, gap: real, n: nat)
    requires total != 0
    requires |segs| == |data|
    requires n <= |data|
    requires forall k :: 0 <= k < |segs| ==> segs[k].extent == Extent(data[k].value, total, gap)
    requires forall k :: 0 <= k < n ==> Share(data[k].value, total) >= gap
    ensures PrefixExtent(segs, n) + Gaps(n, gap) == Share(PrefixTotal(data, n), total)
  {
    if n > 0 {
      var k := n - 1;
      PrefixCoverageExact(data, segs, total, gap, k);
      PrefixStep(data, segs, total, gap, k);
      assert segs[k].extent + gap == Share(data[k].value, total);
    }
  }

  /** Extending a prefix by one datum adds its extent and one gap on the
      segment side and its share on the data side. */
  lemma PrefixStep(data: seq<DataPoint>, segs: seq<Segment>, total: int, gap: real, k: nat)
    requires total != 0
    requires |segs| == |data|
    requires k < |data|
    ensures PrefixExtent(segs, k + 1) + Gaps(k + 1, gap)
            == PrefixExtent(segs, k) + Gaps(k, gap) + (segs[k].extent + gap)
    ensures Share(PrefixTotal(data, k + 1), total)
            == Share(PrefixTotal(data, k), total) + Share(data[k].value, total)
  {
    ShareAdd(PrefixTotal(data, k), data[k].value, total);
  }

  /** No datum is clamped: every share is at least the gap. */
  predicate NoneClamped(data: seq<DataPoint>, gap: real)
    requires ValidData(data)
  {
    forall k :: 0 <= k < |data| ==> Share(data[k].value, Total(data)) >= gap
  }

  /** Empty data gives a zero total and no segments. */
  lemma LayoutEmpty(data: seq<DataPoint>, cfg: Config)
    requires |data| == 0
    ensures ValidData(data)
    ensures Total(data) == 0
    ensures Layout(data, cfg) == []
  {
  }

  /** Segments of one layout never overlap and their starts never decrease
      when the gap is not negative. */
  lemma LayoutNoOverlap(data: seq<DataPoint>, cfg: Config, i: nat, j: nat)
    requires ValidData(data)
    requires |data| > 0 ==> cfg.paletteSize > 0
    requires cfg.gap >= 0.0
    requires i < j < |data|
    ensures Layout(data, cfg)[i].End() <= Layout(data, cfg)[j].start
    ensures Layout(data, cfg)[i].start <= Layout(data, cfg)[j].start
  {
    ChainedNoOverlap(Layout(data, cfg), cfg.gap, cfg.gap, i, j);
  }

  /** Segment i starts after the gap, the extents of the earlier segments and
      one gap per earlier segment; when no datum is clamped, that is the gap
      plus the share of the earlier weights. */
  lemma LayoutStarts(data: seq<DataPoint>, cfg: Config, i: nat)
    requires ValidData(data)
    requires |data| > 0 ==> cfg.paletteSize > 0
    requires i < |data|
    ensures Layout(data, cfg)[i].start
            == cfg.gap + PrefixExtent(Layout(data, cfg), i) + Gaps(i, cfg.gap)
    ensures NoneClamped(data, cfg.gap)
            ==> Layout(data, cfg)[i].start == cfg.gap + Share(PrefixTotal(data, i), Total(data))
  {
    var r := Layout(data, cfg);
    ChainedStarts(r, cfg.gap, cfg.gap, i);
    if NoneClamped(data, cfg.gap) {
      PrefixCoverageExact(data, r, Total(data), cfg.gap, i);
    }
  }

  /** Where the last segment ends: the sum of all extents plus one gap per
      segment, which is at least 100, and exactly 100 when nothing is clamped. */
  lemma LayoutSpan(data: seq<DataPoint>, cfg: Config)
    requires ValidData(data)
    requires |data| > 0
    requires cfg.paletteSize > 0
    ensures Layout(data, cfg)[|data| - 1].End()
            == ExtentSum(Layout(data, cfg)) + Gaps(|data|, cfg.gap)
    ensures ExtentSum(Layout(data, cfg)) + Gaps(|data|, cfg.gap) >= 100.0
    ensures NoneClamped(data, cfg.gap) ==> Layout(data, cfg)[|data| - 1].End() == 100.0
  {
    var r := Layout(data, cfg);
    var n := |data|;
    ChainedStarts(r, cfg.gap, cfg.gap, n - 1);
    PrefixCoverage(data, r, Total(data), cfg.gap, n);
    if NoneClamped(data, cfg.gap) {
      PrefixCoverageExact(data, r, Total(data), cfg.gap, n);
    }
    ShareWhole(Total(data));
  }

  /** The whole total is 100 percent of itself. */
  lemma ShareWhole(total: int)
    requires total != 0
    ensures Share(total, total) == 100.0
  {
    var t := total as real;
    assert (total * 100) as real == 100.0 * t;
    assert (100.0 * t) / t == 100.0;
  }

  /** n gaps laid end to end measure n times the gap. */
  lemma {:induction false} GapsIsProduct(n: nat, gap: real)
    ensures Gaps(n, gap) == (n as real) * gap
  {
    if n > 0 {
      GapsIsProduct(n - 1, gap);
    }
  }

  /** The extents of a layout plus one gap per segment cover at least the
      whole 100, whatever was clamped. */
  lemma LayoutCoversHundred(data: seq<DataPoint>, cfg: Config)
    requires ValidData(data)
    requires |data| > 0
    requires cfg.paletteSize > 0
    ensures ExtentSum(Layout(data, cfg)) + (|data| as real) * cfg.gap >= 100.0
  {
    LayoutSpan(data, cfg);
    GapsIsProduct(|data|, cfg.gap);
  }
}
