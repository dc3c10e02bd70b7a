/**
 * The CBO forecast plot (`gen_tseries_frcst` in the forecasts script): each
 * forecast series is drawn from a full window while the axes follow a main
 * window, every point is tagged as a forecast with its legend label, and the
 * line colours are spread evenly from shade 200 down to shade 0.
 */
module ForecastPlots {
  import opened Wrappers
  import opened Seqs
  import opened Windows
  import opened Frames

  /** One hover point of a forecast series: `year`, `debt_gdp`, `frcst`, `frcst_label`. */
  datatype Point = Point(year: int, debt: Num, frcst: int, dateLabel: string)

  /** The name of a series' forecast-flag column. */
  function FlagColumn(v: string): string
  {
    v + "_frcst"
  }

  /** The row has both the series value and its forecast flag (`dropna` over both). */
  function HasForecast(v: string): Row -> bool
  {
    (r: Row) => v in r.cells && FlagColumn(v) in r.cells
  }

  /**
   * One series' points: the full-window rows where the series and its flag
   * are present, in order. The chained assignment sets the flag to 1 on
   * every row, whatever the data said, and every row carries the label.
   */
  function ForecastPoints(full: seq<Row>, v: string, dateLabel: string): (ps: seq<Point>)
    ensures |ps| == |Filter(full, HasForecast(v))|
    ensures forall i :: 0 <= i < |ps| ==> ps[i].frcst == 1 && ps[i].dateLabel == dateLabel
    ensures forall i :: 0 <= i < |ps| ==>
      var src := Filter(full, HasForecast(v))[i];
      ps[i].year == src.year && ps[i].debt == Num(src.cells[v])
  {
    Map(Filter(full, HasForecast(v)), (r: Row) => Point(r.year, Cell(r, v), 1, dateLabel))
  }

  /** Series `m` has its column, its forecast-flag column and a legend label. */
  predicate Passes(columns: set<string>, vars: seq<string>, labels: seq<string>, m: nat)
  {
    m < |vars| && vars[m] in columns && FlagColumn(vars[m]) in columns && m < |labels|
  }

  /** Series `m` fails with `e`: its missing column, else its missing flag column, else its missing label. */
  predicate FailsWith(columns: set<string>, vars: seq<string>, labels: seq<string>, m: nat, e: Failure)
    requires m < |vars|
  {
    if vars[m] !in columns then e == KeyError(vars[m])
    else if FlagColumn(vars[m]) !in columns then e == KeyError(FlagColumn(vars[m]))
    else m >= |labels| && e == IndexError
  }

  /** `e` is the failure of the first series from `k` on that does not pass. */
  predicate FirstFailure(columns: set<string>, vars: seq<string>, labels: seq<string>, k: nat, e: Failure)
  {
    exists m :: k <= m < |vars| && FailsWith(columns, vars, labels, m, e) &&
      forall m' :: k <= m' < m ==> Passes(columns, vars, labels, m')
  }

  /**
   * The first failure of the series loop from position `k` on: a missing
   * series column, then a missing flag column, then a missing legend label.
   */
  function LoopFailure(f: Frame, vars: seq<string>, labels: seq<string>, k: nat): (e: Option<Failure>)
    decreases |vars| - k
    ensures e.None? <==> forall m :: k <= m < |vars| ==> Passes(f.columns, vars, labels, m)
    ensures e.Some? ==> k < |vars| && FirstFailure(f.columns, vars, labels, k, e.value)
    ensures e.None? ==> |vars| <= k || |vars| <= |labels|
  {
    if k >= |vars| then None
    else if vars[k] !in f.columns then
      assert !Passes(f.columns, vars, labels, k) && FailsWith(f.columns, vars, labels, k, KeyError(vars[k]));
      Some(KeyError(vars[k]))
    else if FlagColumn(vars[k]) !in f.columns then
      assert !Passes(f.columns, vars, labels, k) && FailsWith(f.columns, vars, labels, k, KeyError(FlagColumn(vars[k])));
      Some(KeyError(FlagColumn(vars[k])))
    else if k >= |labels| then
      assert !Passes(f.columns, vars, labels, k) && FailsWith(f.columns, vars, labels, k, IndexError);
      Some(IndexError)
    else
      LoopStep(f.columns, vars, labels, k);
      LoopFailure(f, vars, labels, k + 1)
  }

  /**
   * When series `k` passes, every series from `k` on passes exactly when
   * every one after it does, and the first failure after it is the first
   * failure from it.
   */
  lemma LoopStep(columns: set<string>, vars: seq<string>, labels: seq<string>, k: nat)
    requires Passes(columns, vars, labels, k)
    ensures (forall m :: k <= m < |vars| ==> Passes(columns, vars, labels, m))
      <==> (forall m :: k + 1 <= m < |vars| ==> Passes(columns, vars, labels, m))
    ensures forall e :: FirstFailure(columns, vars, labels, k + 1, e) ==> FirstFailure(columns, vars, labels, k, e)
  {
    if forall m :: k + 1 <= m < |vars| ==> Passes(columns, vars, labels, m) {
      forall m | k <= m < |vars|
        ensures Passes(columns, vars, labels, m)
      {
        if m > k {
          assert k + 1 <= m;
        }
      }
    }
    forall e | FirstFailure(columns, vars, labels, k + 1, e)
      ensures FirstFailure(columns, vars, labels, k, e)
    {
      var m :| k + 1 <= m < |vars| && FailsWith(columns, vars, labels, m, e) &&
        forall m' :: k + 1 <= m' < m ==> Passes(columns, vars, labels, m');
      assert forall m' :: k <= m' < m ==> Passes(columns, vars, labels, m');
    }
  }

  /** `np.round`: to the nearest integer, halves to the even neighbour. */
  function RoundHalfEven(x: real): (n: int)
    ensures x - 0.5 <= n as real <= x + 0.5
    ensures n as real - x == 0.5 || x - n as real == 0.5 ==> n % 2 == 0
    ensures x == x.Floor as real ==> n == x.Floor
  {
    var fl := x.Floor;
    var d := x - fl as real;
    if d < 0.5 then fl
    else if d > 0.5 then fl + 1
    else if fl % 2 == 0 then fl else fl + 1
  }

  /** Rounding keeps order. */
  lemma RoundMonotone(x: real, y: real)
    requires x <= y
    ensures RoundHalfEven(x) <= RoundHalfEven(y)
  {
    if x < y {
      assert RoundHalfEven(x) as real < RoundHalfEven(y) as real + 1.0;
    }
  }

  /** `color_ind` of series `k` of `n`: `round(slope * k + 200)` with `slope = -200 / (n - 1)`. */
  function ColourIndex(k: nat, n: nat): int
    requires 2 <= n && k < n
  {
    RoundHalfEven(Shade(k, n))
  }

  /** `slope * k + intercept` before rounding. */
  function Shade(k: nat, n: nat): real
    requires 2 <= n && k < n
  {
    (-200.0 / (n - 1) as real) * k as real + 200.0
  }

  /** A non-positive slope times a non-negative step is non-positive. */
  lemma SlopeStep(s: real, q: real)
    requires s <= 0.0 && 0.0 <= q
    ensures s * q <= 0.0
  {}

  /** The unrounded shade lies between 0 and 200 and falls as `k` grows. */
  lemma ShadeOrdered(j: nat, k: nat, n: nat)
    requires 2 <= n && j <= k < n
    ensures 0.0 <= Shade(k, n) <= Shade(j, n) <= 200.0
  {
    var d := (n - 1) as real;
    var s := -200.0 / d;
    assert s * d == -200.0;
    SlopeStep(s, k as real - j as real);
    assert s * k as real == s * j as real + s * (k as real - j as real);
    SlopeStep(s, j as real);
    SlopeStep(s, d - k as real);
    assert s * d == s * k as real + s * (d - k as real);
  }

  /** The first series gets shade 200, the last shade 0. */
  lemma {:induction false} ColourEnds(n: nat)
    requires 2 <= n
    ensures ColourIndex(0, n) == 200
    ensures ColourIndex(n - 1, n) == 0
  {
    var d := (n - 1) as real;
    assert (-200.0 / d) * d == -200.0;
    assert (-200.0 / d) * (n - 1) as real + 200.0 == 0.0;
  }

  /** Later series never get a darker shade index, and every index is in [0, 200]. */
  lemma {:induction false} ColourOrdered(j: nat, k: nat, n: nat)
    requires 2 <= n && j <= k < n
    ensures 0 <= ColourIndex(k, n) <= ColourIndex(j, n) <= 200
  {
    ShadeOrdered(j, k, n);
    RoundMonotone(Shade(k, n), Shade(j, n));
    RoundMonotone(0.0, Shade(k, n));
    RoundMonotone(Shade(j, n), 200.0);
  }

  /**
   * The shade index of every series, from the slope loop. Over at least two
   * series it runs from 200 to 0 and never increases.
   */
  function Colours(n: nat): (cs: seq<int>)
    requires n != 1
    ensures |cs| == n
    ensures n > 0 ==> cs[0] == 200 && cs[n - 1] == 0
    ensures forall j, k :: 0 <= j <= k < n ==> 0 <= cs[k] <= cs[j] <= 200
  {
    if n == 0 then []
    else
      var cs := seq(n, k requires 0 <= k < n => ColourIndex(k, n));
      ColourEnds(n);
      assert forall j, k :: 0 <= j <= k < n ==> 0 <= cs[k] <= cs[j] <= 200 by {
        forall j, k | 0 <= j <= k < n
          ensures 0 <= cs[k] <= cs[j] <= 200
        {
          ColourOrdered(j, k, n);
        }
      }
      cs
  }

  /** What the forecast figure is built from. */
  datatype ForecastFigure = ForecastFigure(
    xRange: YearRange, yLow: Num, yHigh: Num, series: seq<seq<Point>>, colours: seq<int>)

  /**
   * `gen_tseries_frcst`: the series loop (axis bounds from the main window,
   * points from the full window), then the colour slope, which divides by
   * zero for a single series. Every forecast series gets its own shade, from
   * 200 for the first to 0 for the last, never darker for a later one.
   */
  method GenTseriesFrcst(f: Frame, vars: seq<string>, labels: seq<string>,
                         mainStart: Bound, mainEnd: Bound, fullStart: Bound, fullEnd: Bound)
    returns (r: Result<ForecastFigure>)
    ensures LoopFailure(f, vars, labels, 0).Some? ==> r == Err(LoopFailure(f, vars, labels, 0).value)
    ensures LoopFailure(f, vars, labels, 0).None? && |vars| == 1 ==> r == Err(ZeroDivisionError)
    ensures r.Ok? <==> LoopFailure(f, vars, labels, 0).None? && |vars| != 1
    ensures r.Ok? ==> r.value.xRange == XRange(f, mainStart, mainEnd)
    ensures r.Ok? ==> (r.value.yLow.NaN? <==> SomeSeriesEmpty(WindowRows(f, mainStart, mainEnd), vars))
    ensures r.Ok? ==> (r.value.yHigh.NaN? <==> SomeSeriesEmpty(WindowRows(f, mainStart, mainEnd), vars))
    ensures r.Ok? && r.value.yLow.Num? ==>
      r.value.yLow.v <= 95.0 && BelowAll(WindowRows(f, mainStart, mainEnd), vars, r.value.yLow.v + 5.0)
    ensures r.Ok? && r.value.yHigh.Num? ==>
      r.value.yHigh.v >= 5.0 && AboveAll(WindowRows(f, mainStart, mainEnd), vars, r.value.yHigh.v - 5.0)
    ensures r.Ok? ==> (|r.value.series| == |vars| &&
      forall k :: 0 <= k < |vars| ==> r.value.series[k] == ForecastPoints(WindowRows(f, fullStart, fullEnd), vars[k], labels[k]))
    ensures r.Ok? ==> r.value.colours == Colours(|vars|)
  {
    var failure := LoopFailure(f, vars, labels, 0);
    if failure.Some? {
      return Err(failure.value);
    }
    forall m | 0 <= m < |vars|
      ensures vars[m] in f.columns
    {
      assert Passes(f.columns, vars, labels, m);
    }
    var x := CollectSeries(f, vars, mainStart, mainEnd, 100.0, 0.0);
    var full := WindowRows(f, fullStart, fullEnd);
    var n := |vars|;
    if n == 1 {
      return Err(ZeroDivisionError);
    }
    var series := seq(n, k requires 0 <= k < n => ForecastPoints(full, vars[k], labels[k]));
    r := Ok(ForecastFigure(XRange(f, mainStart, mainEnd), Offset(x.bounds.lo, -5.0), Offset(x.bounds.hi, 5.0),
      series, Colours(n)));
  }
}
