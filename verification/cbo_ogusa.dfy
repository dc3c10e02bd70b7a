/**
 * The CBO and OG-USA debt forecast plot (`gen_tseries_frcst` in the
 * two-forecast script): every series is windowed and labelled, but only the
 * first two are drawn, in fixed red and blue.
 */
module CboOgusaPlot {
  import opened Wrappers
  import opened Seqs
  import opened Windows
  import opened Frames

  /** One hover point: `year`, `debt_gdp`, `frcst_label`. */
  datatype LabelledPoint = LabelledPoint(year: int, debt: Num, dateLabel: string)

  /** One series' points: the windowed rows where it is present, each tagged with the label. */
  function LabelledSeries(window: seq<Row>, v: string, dateLabel: string): (ps: seq<LabelledPoint>)
    ensures |ps| == |SeriesRows(window, v)|
    ensures forall i :: 0 <= i < |ps| ==>
      ps[i].dateLabel == dateLabel && ps[i].year == SeriesRows(window, v)[i].year &&
      ps[i].debt == Num(SeriesRows(window, v)[i].cells[v])
  {
    Map(SeriesRows(window, v), (r: Row) => LabelledPoint(r.year, Cell(r, v), dateLabel))
  }

  /** Series `m` is a column and has a legend label. */
  predicate Passes(columns: set<string>, vars: seq<string>, labels: seq<string>, m: nat)
  {
    m < |vars| && vars[m] in columns && m < |labels|
  }

  /**
   * The first failure of the series loop from position `k` on: a missing
   * series column (`KeyError`), then a missing legend label (`IndexError`).
   */
  function SeriesFailure(f: Frame, vars: seq<string>, labels: seq<string>, k: nat): (e: Option<Failure>)
    decreases |vars| - k
    ensures e.None? <==> forall m :: k <= m < |vars| ==> Passes(f.columns, vars, labels, m)
    ensures e.Some? ==> (exists m :: (k <= m < |vars| && (
      (vars[m] !in f.columns && e.value == KeyError(vars[m])) ||
      (vars[m] in f.columns && m >= |labels| && e.value == IndexError)) &&
      forall m' :: k <= m' < m ==> Passes(f.columns, vars, labels, m')))
  {
    if k >= |vars| then None
    else if vars[k] !in f.columns then assert !Passes(f.columns, vars, labels, k); Some(KeyError(vars[k]))
    else if k >= |labels| then assert !Passes(f.columns, vars, labels, k); Some(IndexError)
    else
      SeriesStep(f.columns, vars, labels, k);
      SeriesFailure(f, vars, labels, k + 1)
  }

  lemma SeriesStep(columns: set<string>, vars: seq<string>, labels: seq<string>, k: nat)
    requires Passes(columns, vars, labels, k)
    ensures (forall m :: k <= m < |vars| ==> Passes(columns, vars, labels, m))
      <==> (forall m :: k + 1 <= m < |vars| ==> Passes(columns, vars, labels, m))
  {
    if forall m :: k + 1 <= m < |vars| ==> Passes(columns, vars, labels, m) {
      forall m | k <= m < |vars|
        ensures Passes(columns, vars, labels, m)
      {
        if m > k {
          assert k + 1 <= m;
        }
      }
    }
  }

  /** Every series labelled with its legend label, in order. */
  function AllSeries(window: seq<Row>, vars: seq<string>, labels: seq<string>): (ss: seq<seq<LabelledPoint>>)
    requires |vars| <= |labels|
    ensures |ss| == |vars|
    ensures forall k :: 0 <= k < |vars| ==> ss[k] == LabelledSeries(window, vars[k], labels[k])
  {
    seq(|vars|, k requires 0 <= k < |vars| => LabelledSeries(window, vars[k], labels[k]))
  }

  /** What the figure is built from: its ranges, every labelled series, and the two drawn ones. */
  datatype Figure = Figure(xRange: YearRange, yLow: Num, yHigh: Num, series: seq<seq<LabelledPoint>>,
                           red: seq<LabelledPoint>, blue: seq<LabelledPoint>)

  /**
   * `gen_tseries_frcst`: the series loop, then the two fixed draws of
   * `cds_list[0]` and `cds_list[1]`, which fail with `IndexError` when fewer
   * than two series were given. Further series are labelled but not drawn.
   */
  method GenTseriesFrcst(f: Frame, vars: seq<string>, labels: seq<string>, start: Bound, end: Bound)
    returns (r: Result<Figure>)
    ensures SeriesFailure(f, vars, labels, 0).Some? ==> r == Err(SeriesFailure(f, vars, labels, 0).value)
    ensures SeriesFailure(f, vars, labels, 0).None? && |vars| < 2 ==> r == Err(IndexError)
    ensures r.Ok? <==> SeriesFailure(f, vars, labels, 0).None? && 2 <= |vars|
    ensures r.Ok? ==> r.value.xRange == XRange(f, start, end)
    ensures r.Ok? ==> (r.value.yLow.NaN? <==> SomeSeriesEmpty(WindowRows(f, start, end), vars))
    ensures r.Ok? ==> (r.value.yHigh.NaN? <==> SomeSeriesEmpty(WindowRows(f, start, end), vars))
    ensures r.Ok? && r.value.yLow.Num? ==>
      r.value.yLow.v <= 95.0 && BelowAll(WindowRows(f, start, end), vars, r.value.yLow.v + 5.0)
    ensures r.Ok? && r.value.yHigh.Num? ==>
      r.value.yHigh.v >= 5.0 && AboveAll(WindowRows(f, start, end), vars, r.value.yHigh.v - 5.0)
    ensures r.Ok? ==> |vars| <= |labels|
    ensures r.Ok? && |vars| <= |labels| ==> r.value.series == AllSeries(WindowRows(f, start, end), vars, labels)
    ensures r.Ok? ==> r.value.red == r.value.series[0] && r.value.blue == r.value.series[1]
  {
    var failure := SeriesFailure(f, vars, labels, 0);
    if failure.Some? {
      return Err(failure.value);
    }
    var x := CollectSeries(f, vars, start, end, 100.0, 0.0);
    var n := |vars|;
    if n < 2 {
      return Err(IndexError);
    }
    assert Passes(f.columns, vars, labels, n - 1);
    var series := AllSeries(x.window, vars, labels);
    r := Ok(Figure(XRange(f, start, end), Offset(x.bounds.lo, -5.0), Offset(x.bounds.hi, 5.0),
      series, series[0], series[1]));
  }
}
