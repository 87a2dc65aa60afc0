/** The chart's own state: the data list, its total, the laid-out segments
    and the animation progress, with the two operations that change them. */
module Chart {
  import opened RingLayout
  import opened Sweep

  /** The fields the chart keeps between frames. */
  datatype ChartState = ChartState(data: seq<DataPoint>, total: int, segments: seq<Segment>, progress: int)

  /** The fields as constructed: no data and no progress, with the derived
      fields agreeing with the (empty) data under every configuration. */
  function Initial(): (r: ChartState)
    ensures r.data == [] && r.progress == 0
    ensures forall cfg: Config :: Consistent(r, cfg)
  {
    ChartState([], 0, [], 0)
  }

  /** Data the layout accepts under this configuration. */
  predicate Acceptable(data: seq<DataPoint>, cfg: Config)
  {
    ValidData(data) && (|data| > 0 ==> cfg.paletteSize > 0)
  }

  /** The derived fields are the ones the data determines. */
  predicate Consistent(s: ChartState, cfg: Config)
  {
    Acceptable(s.data, cfg) && s.total == Total(s.data) && s.segments == Layout(s.data, cfg)
  }

  /** New data: the list replaces the old one, the total and the segments
      are recomputed from it, and the progress is kept. */
  function SetData(s: ChartState, cfg: Config, list: seq<DataPoint>): (s': ChartState)
    requires Acceptable(list, cfg)
    ensures s'.data == list
    ensures s'.progress == s.progress
    ensures Consistent(s', cfg)
    ensures |s'.segments| == |list|
  {
    ChartState(list, Total(list), Layout(list, cfg), s.progress)
  }

  /** One animation frame: the animator hands over its current value, which
      becomes the progress; the data, total and segments are not touched. */
  function Tick(s: ChartState, value: int): (r: ChartState)
    requires 0 <= value <= 360
    ensures r.progress == value
    ensures r.data == s.data && r.total == s.total && r.segments == s.segments
  {
    s.(progress := value)
  }

  /** The constructed fields agree with their (empty) data under any
      configuration, and the animation has not started. */
  lemma InitialConsistent(cfg: Config)
    ensures Consistent(Initial(), cfg)
    ensures Initial().progress == 0
  {
    LayoutEmpty([], cfg);
  }

  /** What SetData produces depends on the old state only through the
      progress: the data part is a function of the new list alone. */
  lemma SetDataForgetsOldData(s1: ChartState, s2: ChartState, cfg: Config, list: seq<DataPoint>)
    requires Acceptable(list, cfg)
    ensures SetData(s1, cfg, list).total == SetData(s2, cfg, list).total
    ensures SetData(s1, cfg, list).segments == SetData(s2, cfg, list).segments
    ensures s1.progress == s2.progress ==> SetData(s1, cfg, list) == SetData(s2, cfg, list)
  {
  }

  /** Setting the same data twice is the same as setting it once. */
  lemma SetDataIdempotent(s: ChartState, cfg: Config, list: seq<DataPoint>)
    requires Acceptable(list, cfg)
    ensures SetData(SetData(s, cfg, list), cfg, list) == SetData(s, cfg, list)
  {
  }

  /** A frame changes the progress and nothing else, so it keeps the derived
      fields in step with the data. */
  lemma TickKeepsLayout(s: ChartState, cfg: Config, value: int)
    requires 0 <= value <= 360
    ensures Tick(s, value).progress == value
    ensures Tick(s, value).data == s.data
    ensures Tick(s, value).total == s.total
    ensures Tick(s, value).segments == s.segments
    ensures Consistent(s, cfg) <==> Consistent(Tick(s, value), cfg)
  {
  }

  /** With a non-negative gap, at most one segment is partly drawn in any
      frame. */
  lemma AtMostOnePartial(s: ChartState, cfg: Config, i: nat, j: nat)
    requires Consistent(s, cfg)
    requires cfg.gap >= 0.0
    requires i < j < |s.segments|
    ensures !(Partial(s.segments[i], s.progress) && Partial(s.segments[j], s.progress))
  {
    FrameAtMostOnePartial(s.segments, cfg.gap, cfg.gap, s.progress, i, j);
  }

  /** With a non-negative gap, every segment before a partly drawn one is
      drawn in full and every segment after it is not drawn at all. */
  lemma AroundPartial(s: ChartState, cfg: Config, k: nat, i: nat)
    requires Consistent(s, cfg)
    requires cfg.gap >= 0.0
    requires k < |s.segments| && i < |s.segments|
    requires Partial(s.segments[k], s.progress)
    ensures i < k ==> VisibleExtent(s.segments[i], s.progress) == s.segments[i].extent
    ensures k < i ==> VisibleExtent(s.segments[i], s.progress) == 0.0
  {
    FrameAroundPartial(s.segments, cfg.gap, cfg.gap, s.progress, k, i);
  }

  /** With a non-negative gap, once the progress has passed the end of the
      last segment, the whole chart is drawn. */
  lemma FullyDrawn(s: ChartState, cfg: Config, i: nat)
    requires Consistent(s, cfg)
    requires cfg.gap >= 0.0
    requires i < |s.segments|
    requires s.segments[|s.segments| - 1].End() <= s.progress as real
    ensures VisibleExtent(s.segments[i], s.progress) == s.segments[i].extent
  {
    FrameFullyDrawn(s.segments, cfg.gap, cfg.gap, s.progress, i);
  }

  /** When no datum is clamped and the gap is not negative, the layout ends
      at 100, so every frame from progress 100 on shows every segment in
      full; in particular the last frame of the animation, at 360, does. */
  lemma FullyDrawnFromHundred(s: ChartState, cfg: Config, i: nat)
    requires Consistent(s, cfg)
    requires cfg.gap >= 0.0
    requires i < |s.segments|
    requires NoneClamped(s.data, cfg.gap)
    requires s.progress >= 100
    ensures VisibleExtent(s.segments[i], s.progress) == s.segments[i].extent
  {
    LayoutSpan(s.data, cfg);
    FullyDrawn(s, cfg, i);
  }
}
