# Ring chart layout and sweep reveal

A model of the `PieChart` custom view of CustomView, an Android ring
("donut") chart. The view takes an ordered list of integer weights with
captions, turns them into arcs around a ring, and reveals the arcs with an
animated sweep whose integer progress runs from 0 to 360.

The model covers the two parts of the view that compute something:

- **Segment layout** (`calculatePercentageOfData`). The weights are summed
  into a total. A cursor starts at the section gap. Each weight gets an
  extent of `value * 100 / total - gap`, clamped at 0. It becomes a segment
  that starts at the cursor and takes palette slot `index % paletteSize`,
  together with the configured stroke width and rounded-cap flag. The cursor
  then moves on by the extent plus one gap.
- **Visible extent** (the branches of `drawCircle`). At progress `p`, a
  segment is drawn in full once `p` has passed its end. It is drawn from its
  start up to `p` once `p` has passed its start. Otherwise it is not drawn.
  The model lifts this into the pure function `Sweep.VisibleExtent` and
  leaves the drawing calls out.

Around these sits the view's state: the data list, its total, the segments
and the animation progress. `setDataChart` replaces the data and recomputes
the total and the segments. Each animator frame replaces only the progress.

Modules:

- `RingLayout` (layout.dfy) holds the data types, the layout and its properties.
- `Sweep` (sweep.dfy) holds the visible-extent rule and the per-frame extents.
- `Chart` (chart.dfy) holds the state record, `SetData`, the frame update and
  whole-frame properties.
- `Demo` (demo.dfy) holds worked examples: the demo screen's data, a single
  datum, and palette cycling.

Modelling choices:

- Kotlin `Float` values are exact `real`s. Kotlin `Int` values are unbounded `int`s.
- Starts and extents are in "percent" units, and `drawCircle` passes them
  unchanged to `drawArc` as degrees. The progress runs to 360. All three are
  kept on the one numeric scale, with no conversion. One consequence is proved
  in `Chart.FullyDrawnFromHundred`: with a non-negative gap and nothing
  clamped, the layout ends at 100, so the chart is fully drawn once the
  progress reaches 100.
- A colour is modelled by its palette slot. The palette itself is modelled only
  by its size.
- The layout requires non-negative weights. It also requires a positive total
  whenever the list is non-empty, because `calculatePercentageOfData` divides by the total as a
  float and a zero total gives NaN. An empty list is allowed: it gives total 0
  and no segments, with no division.
- The palette must be non-empty only when there is data. `calculatePercentageOfData` evaluates
  `index % pieChartColors.size` once per datum, so an empty palette fails only
  for a non-empty list.
- `setDataChart` accepts negative weights; the model requires non-negative ones.
- `setDataChart` has no zero-total guard: a non-empty list with total 0 divides
  by zero as a float. The model makes a positive total a precondition and adds
  no error path.
- `drawCircle` compares with strict `>`. `Sweep.VisibleExtent` is that rule, and
  its contract proves it equals the rule stated with `<=`/`>=` (0 up to the
  start, the full extent from the end on) for a non-negative extent.
- Each `startAnimation` call starts a new `ValueAnimator` and keeps no reference
  to earlier ones, which keep writing the progress until they finish
  (PieChart.kt:280-291). `Chart.Tick` accepts any value in 0..360, so
  interleaved frames from several animators are covered.
- The sum `Gaps(n, gap)` is `n` gaps added one at a time. `RingLayout.GapsIsProduct`
  proves it equals `n * gap`. The layout lemmas use this form so that their
  proofs stay linear.

## Model

| member | source | states |
|---|---|---|
| RingLayout.Extent | app/src/main/java/com/example/customview/presentation/customView/PieChart.kt:411-412 | an extent is never negative, is at least the datum's share (`value*100/total`) less the gap, and is exactly that when the share reaches the gap; otherwise it is 0 |
| RingLayout.LayoutFrom | app/src/main/java/com/example/customview/presentation/customView/PieChart.kt:409-423 | walking the data from a cursor and a palette index yields one segment per datum in order; the first starts at the cursor; each later one starts one gap after the previous end; segment i has the clamped extent of datum i and colour `(index + i) mod paletteSize`; every segment has the configured stroke and cap |
| RingLayout.Layout | app/src/main/java/com/example/customview/presentation/customView/PieChart.kt:406-424 | the full layout has exactly one segment per datum, in input order; empty data gives no segments; the first segment starts at the gap; each later one starts exactly one gap after its predecessor's end; every extent is the clamped share and non-negative; segment i takes palette slot `i mod paletteSize`; stroke width and cap flag are passed through unchanged |
| RingLayout.PrefixTotal | app/src/main/java/com/example/customview/presentation/customView/PieChart.kt:407 | the fold over the first n weights starts at 0; with no negative weight it is never negative and is at least every weight it has taken in |
| RingLayout.Total | app/src/main/java/com/example/customview/presentation/customView/PieChart.kt:407 | the total of no data is 0; with no negative weight the total is never negative and is at least every single weight |
| RingLayout.TotalPositiveIff | app/src/main/java/com/example/customview/presentation/customView/PieChart.kt:407 | the folded total of non-negative weights is non-negative, and it is positive if and only if some weight is positive |
| RingLayout.ChainedStarts | app/src/main/java/com/example/customview/presentation/customView/PieChart.kt:409-421 | for segments laid end to end with a gap, segment i starts at the first start plus the extents of the i earlier segments plus i gaps |
| RingLayout.ChainedNoOverlap | app/src/main/java/com/example/customview/presentation/customView/PieChart.kt:409-421 | for segments laid end to end with non-negative extents and a non-negative gap, every segment ends no later than any later segment starts, and starts never decrease |
| RingLayout.PrefixCoverage | app/src/main/java/com/example/customview/presentation/customView/PieChart.kt:407-421 | over any prefix of the data, the extents plus one gap per datum are at least the prefix's share of 100 |
| RingLayout.PrefixCoverageExact | app/src/main/java/com/example/customview/presentation/customView/PieChart.kt:407-421 | when no datum of the prefix is clamped, the extents plus one gap per datum equal exactly the prefix's share of 100 |
| RingLayout.LayoutEmpty | app/src/main/java/com/example/customview/presentation/customView/PieChart.kt:407-410 | an empty data list is accepted, totals 0 and lays out as no segments |
| RingLayout.LayoutNoOverlap | app/src/main/java/com/example/customview/presentation/customView/PieChart.kt:409-421 | with a non-negative gap, no two segments of a layout overlap, and starts are non-decreasing in input order |
| RingLayout.LayoutStarts | app/src/main/java/com/example/customview/presentation/customView/PieChart.kt:409-421 | segment i starts at the gap plus the earlier extents plus i gaps; when no datum is clamped, this is the gap plus the share of the earlier weights (`gap + (sum of earlier values)*100/total`) |
| RingLayout.LayoutSpan | app/src/main/java/com/example/customview/presentation/customView/PieChart.kt:407-421 | the last segment ends at the sum of the extents plus one gap per segment; that is at least 100, and exactly 100 when no datum is clamped |
| RingLayout.LayoutCoversHundred | app/src/main/java/com/example/customview/presentation/customView/PieChart.kt:407-421 | for non-empty data, `sum(extents) + n*gap >= 100` |
| RingLayout.GapsIsProduct | app/src/main/java/com/example/customview/presentation/customView/PieChart.kt:421 | the cursor's advance by one gap per segment adds up to `n * gap` after n segments |
| Sweep.VisibleExtent | app/src/main/java/com/example/customview/presentation/customView/PieChart.kt:296-316 | the drawn extent at integer progress p is `p - start` strictly inside the segment; for a non-negative extent it is 0 when `p <= start` and the full extent when `p >= start + extent`, and it always lies in `[0, extent]`, so the code's strict comparisons agree with the three-way rule at both boundaries |
| Sweep.VisibleMonotone | app/src/main/java/com/example/customview/presentation/customView/PieChart.kt:298-314 | for a segment with a non-negative extent (as every layout segment has), the drawn extent never decreases as the progress grows |
| Sweep.VisibleFullIff | app/src/main/java/com/example/customview/presentation/customView/PieChart.kt:298-314 | for a segment with a non-negative extent (as every layout segment has), it is shown at its full extent if and only if its extent is 0 or the progress has reached its end |
| Sweep.VisibleExtents | app/src/main/java/com/example/customview/presentation/customView/PieChart.kt:296-316 | the frame loop visits every segment in order and yields, for each one, its visible extent, which lies within `[0, extent]` |
| Sweep.FrameAtMostOnePartial | app/src/main/java/com/example/customview/presentation/customView/PieChart.kt:297-314 | over segments laid end to end (as the cursor of lines 409-421 places them) with a non-negative gap, no two segments are partly drawn in the same frame |
| Sweep.FrameAroundPartial | app/src/main/java/com/example/customview/presentation/customView/PieChart.kt:297-314 | over segments laid end to end with a non-negative gap, every segment before a partly drawn one is drawn in full and every segment after it is not drawn |
| Sweep.FrameFullyDrawn | app/src/main/java/com/example/customview/presentation/customView/PieChart.kt:297-305 | over segments laid end to end with a non-negative gap, once the progress passes the last end every segment is drawn in full |
| Chart.SetData | app/src/main/java/com/example/customview/presentation/customView/PieChart.kt:271-274 | new data replaces the list; the total and the segments come out consistent with the new list; the animation progress is unchanged |
| Chart.Initial | app/src/main/java/com/example/customview/presentation/customView/PieChart.kt:123-127 | the constructed fields hold no data and progress 0, and agree with that empty data under every configuration |
| Chart.InitialConsistent | app/src/main/java/com/example/customview/presentation/customView/PieChart.kt:123-127 | the constructed fields (no data, total 0, no segments, progress 0) are consistent for every configuration |
| Chart.SetDataForgetsOldData | app/src/main/java/com/example/customview/presentation/customView/PieChart.kt:271-274 | the total and segments after `setDataChart` depend on the new list alone, not on the previous data |
| Chart.SetDataIdempotent | app/src/main/java/com/example/customview/presentation/customView/PieChart.kt:271-274 | setting the same data twice gives the same state as setting it once |
| Chart.Tick | app/src/main/java/com/example/customview/presentation/customView/PieChart.kt:285-288 | an animator frame makes the animated value (0..360) the progress and leaves the data, total and segments untouched |
| Chart.TickKeepsLayout | app/src/main/java/com/example/customview/presentation/customView/PieChart.kt:285-288 | an animator frame sets the progress to the animated value and leaves the data, total and segments as they were, so consistency is kept in both directions |
| Chart.AtMostOnePartial | app/src/main/java/com/example/customview/presentation/customView/PieChart.kt:297-314 | with a non-negative gap, at most one segment of a frame is partly drawn |
| Chart.AroundPartial | app/src/main/java/com/example/customview/presentation/customView/PieChart.kt:297-314 | with a non-negative gap, every segment before a partly drawn one is drawn in full, and every segment after it is not drawn |
| Chart.FullyDrawn | app/src/main/java/com/example/customview/presentation/customView/PieChart.kt:297-305 | with a non-negative gap, once the progress passes the end of the last segment, every segment is drawn in full |
| Chart.FullyDrawnFromHundred | app/src/main/java/com/example/customview/presentation/customView/PieChart.kt:282-316 | with a non-negative gap and no datum clamped, every frame from progress 100 on, including the final frame at 360, shows every segment in full |
| Demo.DemoLayout | app/src/main/java/com/example/customview/presentation/activity/MainActivity.kt:24-30 | the demo data 4, 5, 10 with gap 3 totals 19; it has starts 3, 3 + 400/19 and 3 + 900/19, and extents 400/19 - 3, 500/19 - 3 and 1000/19 - 3; the last segment ends at 100 |
| Demo.SingleDatum | app/src/main/java/com/example/customview/presentation/customView/PieChart.kt:409-421 | a single positive datum is valid data and starts at the gap; with a gap of at most 100 it takes 100 less the gap; with a gap in (0, 100] it starts after 0 and ends at exactly 100, so the first gap stays uncovered |
| Demo.AlternatingColours | app/src/main/java/com/example/customview/presentation/customView/PieChart.kt:417 | five segments on a two-colour palette take slots 0, 1, 0, 1, 0 |

## Left out

- Float rounding, NaN and Infinity are not modelled. All arithmetic is exact over the reals, and a zero total with non-empty data is a precondition.
- Kotlin `Int` overflow in `value * 100` and in the folded total is not modelled; the integers are unbounded.
- `startAnimation` is left out apart from its update listener: `ValueAnimator`, its 1500 ms duration, `FastOutSlowInInterpolator` and `invalidate()` belong to the platform. The progress is an input integer in 0..360, and `Chart.Tick` is the listener's assignment.
- The drawing calls themselves (`drawArc`, `drawText`, paints, `circleRect`) are left out; a frame is modelled as the list of visible extents.
- View measurement and geometry are left out, because they are host layout lifecycle with float pixel maths: `onMeasure`, `resolveDefaultSize`, `calculateViewHeight`, `calculateCircleRadius`, `getWidthOfAmountText`.
- Attribute loading, `initPains` and `Color.parseColor` are left out; a colour is its palette slot.
- Save and restore through `PieChartState` are left out as platform state plumbing. `onRestoreInstanceState` sets `dataList` without recomputing the total or the segments; that path is not modelled.
- `MainActivity` and `PieChartRepository` are left out as UI wiring and an interface with no logic. The demo data is used only as a worked example.
- The animators' own lifetimes are not modelled: several animators started by repeated `startAnimation` calls appear only as a sequence of `Chart.Tick` frames.
