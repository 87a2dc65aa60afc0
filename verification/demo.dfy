/** Worked examples of the layout on concrete data. */
module Demo {
  import opened RingLayout

  /** The demo screen's data: weights 4, 5 and 10. */
  function DemoData(): seq<DataPoint>
  {
    [DataPoint(4, "a"), DataPoint(5, "b"), DataPoint(10, "c")]
  }

  /** With the default gap of 3, the demo data totals 19 and lays out as
      three arcs starting at 3, 3 + 400/19 and 3 + 900/19, each as long as
      its share less 3. */
  lemma DemoLayout(cfg: Config)
    requires cfg.gap == 3.0
    requires cfg.paletteSize > 0
    ensures Total(DemoData()) == 19
    ensures |Layout(DemoData(), cfg)| == 3
    ensures Layout(DemoData(), cfg)[0].start == 3.0
    ensures Layout(DemoData(), cfg)[1].start == 3.0 + 400.0 / 19.0
    ensures Layout(DemoData(), cfg)[2].start == 3.0 + 900.0 / 19.0
    ensures Layout(DemoData(), cfg)[0].extent == 400.0 / 19.0 - 3.0
    ensures Layout(DemoData(), cfg)[1].extent == 500.0 / 19.0 - 3.0
    ensures Layout(DemoData(), cfg)[2].extent == 1000.0 / 19.0 - 3.0
    ensures Layout(DemoData(), cfg)[2].End() == 100.0
  {
    var data := DemoData();
    assert PrefixTotal(data, 1) == 4;
    assert PrefixTotal(data, 2) == 9;
    assert Total(data) == 19;
    assert NoneClamped(data, cfg.gap);
    LayoutStarts(data, cfg, 1);
    LayoutStarts(data, cfg, 2);
    LayoutSpan(data, cfg);
  }

  /** A single datum's arc starts at the gap. With a gap of at most 100 it
      takes the whole 100 less one gap (a larger gap clamps it to 0), so with
      a gap in (0, 100] it ends at 100 and the stretch before the gap stays
      uncovered. */
  lemma SingleDatum(cfg: Config, v: int)
    requires v > 0
    requires cfg.paletteSize > 0
    ensures ValidData([DataPoint(v, "")])
    ensures Layout([DataPoint(v, "")], cfg)[0].start == cfg.gap
    ensures cfg.gap <= 100.0 ==> Layout([DataPoint(v, "")], cfg)[0].extent == 100.0 - cfg.gap
    ensures 0.0 < cfg.gap <= 100.0 ==> 0.0 < Layout([DataPoint(v, "")], cfg)[0].start
                                       && Layout([DataPoint(v, "")], cfg)[0].End() == 100.0
  {
    var data := [DataPoint(v, "")];
    assert PrefixTotal(data, 1) == v;
    ShareWhole(v);
  }

  /** Five segments on a two-colour palette alternate between the colours. */
  lemma AlternatingColours(cfg: Config)
    requires cfg.paletteSize == 2
    ensures ValidData([DataPoint(1, ""), DataPoint(1, ""), DataPoint(1, ""), DataPoint(1, ""), DataPoint(1, "")])
    ensures var r := Layout([DataPoint(1, ""), DataPoint(1, ""), DataPoint(1, ""), DataPoint(1, ""), DataPoint(1, "")], cfg);
            [r[0].color, r[1].color, r[2].color, r[3].color, r[4].color] == [0, 1, 0, 1, 0]
  {
    var data := [DataPoint(1, ""), DataPoint(1, ""), DataPoint(1, ""), DataPoint(1, ""), DataPoint(1, "")];
    assert PrefixTotal(data, 2) == 2;
    assert PrefixTotal(data, 4) == 4;
    assert Total(data) == 5;
  }
}
