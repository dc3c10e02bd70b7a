/**
 * The year-indexed data frames of the forecast and macro plots: each row has
 * a year and a value per column, and a missing value (NaN) is a column the
 * row has no cell for.
 */
module Frames {
  import opened Wrappers
  import opened Seqs
  import opened Windows

  /** A float that may be NaN. */
  datatype Num = NaN | Num(v: real)

  /** One row: its year and its non-missing cells. */
  datatype Row = Row(year: int, cells: map<string, real>)

  /** The column names of a frame (any other name is a `KeyError`) and its rows. */
  datatype Frame = Frame(columns: set<string>, rows: seq<Row>)

  function RowYear(r: Row): int { r.year }

  /** The row has a value in column `v`. */
  function HasValue(v: string): Row -> bool
  {
    (r: Row) => v in r.cells
  }

  /** No row has a value in column `v`. */
  predicate NoValues(rows: seq<Row>, v: string)
  {
    forall i :: 0 <= i < |rows| ==> v !in rows[i].cells
  }

  /** `df[v].min()`: the least value of the column, skipping NaN; NaN when there is none. */
  function ColumnMin(rows: seq<Row>, v: string): (m: Num)
    ensures m.NaN? <==> NoValues(rows, v)
    ensures m.Num? ==> forall i :: 0 <= i < |rows| && v in rows[i].cells ==> m.v <= rows[i].cells[v]
    ensures m.Num? ==> exists i :: 0 <= i < |rows| && v in rows[i].cells && rows[i].cells[v] == m.v
  {
    if |rows| == 0 then NaN
    else
      var rest := ColumnMin(rows[1..], v);
      assert forall i :: 1 <= i < |rows| ==> rows[i] == rows[1..][i - 1];
      if v !in rows[0].cells then rest
      else if rest.NaN? || rows[0].cells[v] <= rest.v then Num(rows[0].cells[v])
      else rest
  }

  /** `df[v].max()`: the greatest value of the column, skipping NaN; NaN when there is none. */
  function ColumnMax(rows: seq<Row>, v: string): (m: Num)
    ensures m.NaN? <==> NoValues(rows, v)
    ensures m.Num? ==> forall i :: 0 <= i < |rows| && v in rows[i].cells ==> rows[i].cells[v] <= m.v
    ensures m.Num? ==> exists i :: 0 <= i < |rows| && v in rows[i].cells && rows[i].cells[v] == m.v
  {
    if |rows| == 0 then NaN
    else
      var rest := ColumnMax(rows[1..], v);
      assert forall i :: 1 <= i < |rows| ==> rows[i] == rows[1..][i - 1];
      if v !in rows[0].cells then rest
      else if rest.NaN? || rows[0].cells[v] >= rest.v then Num(rows[0].cells[v])
      else rest
  }

  /** `np.minimum`: NaN when either argument is NaN. */
  function Minimum(a: Num, b: Num): Num
  {
    if a.NaN? || b.NaN? then NaN else Num(if a.v <= b.v then a.v else b.v)
  }

  /** `np.maximum`: NaN when either argument is NaN. */
  function Maximum(a: Num, b: Num): Num
  {
    if a.NaN? || b.NaN? then NaN else Num(if a.v >= b.v then a.v else b.v)
  }

  /** `df[(df['year'] >= min_year) & (df['year'] <= max_year)]`. */
  function WindowRows(f: Frame, start: Bound, end: Bound): (rows: seq<Row>)
    ensures rows == Filter(f.rows, Within(RowYear, start, end))
  {
    YearWindow(f.rows, RowYear, start, end)
  }

  /** `df[['year', v]].dropna()`: the rows with a value in `v`, in order. */
  function SeriesRows(rows: seq<Row>, v: string): (s: seq<Row>)
    ensures Subseq(s, rows)
    ensures forall i :: 0 <= i < |s| ==> v in s[i].cells
    ensures forall i :: 0 <= i < |rows| && v in rows[i].cells ==> rows[i] in s
  {
    Filter(rows, HasValue(v))
  }

  /** The value of column `v` in a row, NaN when the cell is missing. */
  function Cell(r: Row, v: string): Num
  {
    if v in r.cells then Num(r.cells[v]) else NaN
  }

  /** `n + d` with NaN propagated. */
  function Offset(n: Num, d: real): Num
  {
    if n.NaN? then NaN else Num(n.v + d)
  }

  /** An x-axis range of years; None is a NaN end. */
  datatype YearRange = YearRange(lo: Option<int>, hi: Option<int>)

  /**
   * `x_range=(min_year - 1, max_year + 1)`: one year of margin on each side
   * of the resolved bounds; NaN ends stay NaN.
   */
  function XRange(f: Frame, start: Bound, end: Bound): (x: YearRange)
    ensures start.At? ==> x.lo == Some(start.year - 1)
    ensures end.At? ==> x.hi == Some(end.year + 1)
    ensures x.lo.None? <==> start.Unbounded? && |f.rows| == 0
    ensures x.hi.None? <==> end.Unbounded? && |f.rows| == 0
  {
    var lo := ResolveStart(start, f.rows, RowYear);
    var hi := ResolveEnd(end, f.rows, RowYear);
    YearRange(if lo.Some? then Some(lo.value - 1) else None, if hi.Some? then Some(hi.value + 1) else None)
  }

  /** Every year of the window lies strictly inside the x range. */
  lemma XRangeContainsWindow(f: Frame, start: Bound, end: Bound)
    ensures forall r :: r in WindowRows(f, start, end) ==>
      XRange(f, start, end).lo.Some? && XRange(f, start, end).lo.value < r.year &&
      XRange(f, start, end).hi.Some? && r.year < XRange(f, start, end).hi.value
  {
    forall r | r in WindowRows(f, start, end)
      ensures XRange(f, start, end).lo.Some? && XRange(f, start, end).lo.value < r.year
      ensures XRange(f, start, end).hi.Some? && r.year < XRange(f, start, end).hi.value
    {
      InsideResolved(f, start, end, r);
    }
  }

  /** With 'min' and 'max' the margin is exactly one year beyond the earliest and latest rows. */
  lemma {:induction false} XRangeTight(f: Frame, start: Bound, end: Bound)
    ensures start.Unbounded? && XRange(f, start, end).lo.Some? ==>
      exists i :: 0 <= i < |f.rows| && f.rows[i].year == XRange(f, start, end).lo.value + 1
    ensures end.Unbounded? && XRange(f, start, end).hi.Some? ==>
      exists i :: 0 <= i < |f.rows| && f.rows[i].year == XRange(f, start, end).hi.value - 1
  {
    YearsAttained(f.rows);
  }

  /** The earliest and latest years of the data are years of some row. */
  lemma {:induction false} YearsAttained(rows: seq<Row>)
    ensures MinOf(Map(rows, RowYear)).Some? ==> exists i :: 0 <= i < |rows| && rows[i].year == MinOf(Map(rows, RowYear)).value
    ensures MaxOf(Map(rows, RowYear)).Some? ==> exists i :: 0 <= i < |rows| && rows[i].year == MaxOf(Map(rows, RowYear)).value
  {
    var ys := Map(rows, RowYear);
    assert forall i :: 0 <= i < |rows| ==> ys[i] == rows[i].year;
  }

  /** A windowed row lies inside the resolved bounds. */
  lemma InsideResolved(f: Frame, start: Bound, end: Bound, r: Row)
    requires r in WindowRows(f, start, end)
    ensures AtOrAfter(r.year, ResolveStart(start, f.rows, RowYear))
    ensures AtOrBefore(r.year, ResolveEnd(end, f.rows, RowYear))
  {
    assert Within(RowYear, start, end)(r);
    ResolvedBoundsHold(f.rows, RowYear, r);
  }

  /** The first name of `vars` that is not a column. */
  function MissingColumn(f: Frame, vars: seq<string>): (m: Option<nat>)
    ensures m.None? <==> forall k :: 0 <= k < |vars| ==> vars[k] in f.columns
    ensures m.Some? ==> (m.value < |vars| && vars[m.value] !in f.columns &&
      forall k :: 0 <= k < m.value ==> vars[k] in f.columns)
  {
    if |vars| == 0 then None
    else if vars[0] !in f.columns then Some(0)
    else match MissingColumn(f, vars[1..])
      case None => None
      case Some(k) => Some(k + 1)
  }

  /** The running bounds over several series. */
  datatype Bounds = Bounds(lo: Num, hi: Num)

  /** Some series of `vars` has no value in `rows`. */
  predicate SomeSeriesEmpty(rows: seq<Row>, vars: seq<string>)
  {
    exists k :: 0 <= k < |vars| && NoValues(rows, vars[k])
  }

  /** `x` is at most every value of every series of `vars`. */
  predicate BelowAll(rows: seq<Row>, vars: seq<string>, x: real)
  {
    forall k, i :: 0 <= k < |vars| && 0 <= i < |rows| && vars[k] in rows[i].cells ==> x <= rows[i].cells[vars[k]]
  }

  /** `x` is at least every value of every series of `vars`. */
  predicate AboveAll(rows: seq<Row>, vars: seq<string>, x: real)
  {
    forall k, i :: 0 <= k < |vars| && 0 <= i < |rows| && vars[k] in rows[i].cells ==> rows[i].cells[vars[k]] <= x
  }

  /** `x` is a value of some series of `vars`. */
  predicate Attained(rows: seq<Row>, vars: seq<string>, x: real)
  {
    exists k, i :: 0 <= k < |vars| && 0 <= i < |rows| && vars[k] in rows[i].cells && rows[i].cells[vars[k]] == x
  }

  /**
   * What the running minimum promises after the series `vars`: NaN exactly
   * when one of them is empty, otherwise at most the start value and every
   * value, and equal to the start value or to one of the values.
   */
  predicate LowerBound(rows: seq<Row>, vars: seq<string>, lo: Num, lo0: real)
  {
    (lo.NaN? <==> SomeSeriesEmpty(rows, vars)) &&
    (lo.Num? ==> lo.v <= lo0 && BelowAll(rows, vars, lo.v) && (lo.v == lo0 || Attained(rows, vars, lo.v)))
  }

  /** The running maximum's promise, dual to `LowerBound`. */
  predicate UpperBound(rows: seq<Row>, vars: seq<string>, hi: Num, hi0: real)
  {
    (hi.NaN? <==> SomeSeriesEmpty(rows, vars)) &&
    (hi.Num? ==> hi.v >= hi0 && AboveAll(rows, vars, hi.v) && (hi.v == hi0 || Attained(rows, vars, hi.v)))
  }

  lemma EmptyStep(rows: seq<Row>, vars: seq<string>, v: string)
    ensures SomeSeriesEmpty(rows, vars + [v]) <==> SomeSeriesEmpty(rows, vars) || NoValues(rows, v)
  {
    var vs := vars + [v];
    if NoValues(rows, v) {
      assert vs[|vars|] == v;
    }
    if SomeSeriesEmpty(rows, vars) {
      var j :| 0 <= j < |vars| && NoValues(rows, vars[j]);
      assert vs[j] == vars[j];
    }
  }

  lemma {:induction false} LowerStep(rows: seq<Row>, vars: seq<string>, v: string, lo: Num, lo0: real)
    requires LowerBound(rows, vars, lo, lo0)
    ensures LowerBound(rows, vars + [v], Minimum(lo, ColumnMin(rows, v)), lo0)
  {
    EmptyStep(rows, vars, v);
    var vs := vars + [v];
    var m := ColumnMin(rows, v);
    var lo' := Minimum(lo, m);
    if lo'.Num? {
      forall k, i | 0 <= k < |vs| && 0 <= i < |rows| && vs[k] in rows[i].cells
        ensures lo'.v <= rows[i].cells[vs[k]]
      {
        if k < |vars| { assert vs[k] == vars[k]; }
      }
      if lo'.v != lo0 {
        if lo'.v == lo.v {
          var k, i :| 0 <= k < |vars| && 0 <= i < |rows| && vars[k] in rows[i].cells && rows[i].cells[vars[k]] == lo.v;
          assert vs[k] == vars[k];
        } else {
          var i :| 0 <= i < |rows| && v in rows[i].cells && rows[i].cells[v] == m.v;
          assert vs[|vars|] == v;
        }
      }
    }
  }

  lemma {:induction false} UpperStep(rows: seq<Row>, vars: seq<string>, v: string, hi: Num, hi0: real)
    requires UpperBound(rows, vars, hi, hi0)
    ensures UpperBound(rows, vars + [v], Maximum(hi, ColumnMax(rows, v)), hi0)
  {
    EmptyStep(rows, vars, v);
    var vs := vars + [v];
    var m := ColumnMax(rows, v);
    var hi' := Maximum(hi, m);
    if hi'.Num? {
      forall k, i | 0 <= k < |vs| && 0 <= i < |rows| && vs[k] in rows[i].cells
        ensures rows[i].cells[vs[k]] <= hi'.v
      {
        if k < |vars| { assert vs[k] == vars[k]; }
      }
      if hi'.v != hi0 {
        if hi'.v == hi.v {
          var k, i :| 0 <= k < |vars| && 0 <= i < |rows| && vars[k] in rows[i].cells && rows[i].cells[vars[k]] == hi.v;
          assert vs[k] == vars[k];
        } else {
          var i :| 0 <= i < |rows| && v in rows[i].cells && rows[i].cells[v] == m.v;
          assert vs[|vars|] == v;
        }
      }
    }
  }

  /**
   * The bounds loop: starting from `lo0` and `hi0`, fold in each series'
   * minimum and maximum with `np.minimum`/`np.maximum`. The result is NaN
   * exactly when some series has no value; otherwise `lo` is at most `lo0`
   * and every value, and is `lo0` or one of the values (dually for `hi`).
   */
  method SeriesBounds(rows: seq<Row>, vars: seq<string>, lo0: real, hi0: real) returns (b: Bounds)
    ensures b.lo.NaN? <==> SomeSeriesEmpty(rows, vars)
    ensures b.hi.NaN? <==> SomeSeriesEmpty(rows, vars)
    ensures b.lo.Num? ==> b.lo.v <= lo0 && BelowAll(rows, vars, b.lo.v)
    ensures b.hi.Num? ==> b.hi.v >= hi0 && AboveAll(rows, vars, b.hi.v)
    ensures b.lo.Num? ==> b.lo.v == lo0 || Attained(rows, vars, b.lo.v)
    ensures b.hi.Num? ==> b.hi.v == hi0 || Attained(rows, vars, b.hi.v)
  {
    var lo, hi := Num(lo0), Num(hi0);
    var k := 0;
    while k < |vars|
      invariant 0 <= k <= |vars|
      invariant LowerBound(rows, vars[..k], lo, lo0)
      invariant UpperBound(rows, vars[..k], hi, hi0)
    {
      assert vars[..k + 1] == vars[..k] + [vars[k]];
      LowerStep(rows, vars[..k], vars[k], lo, lo0);
      UpperStep(rows, vars[..k], vars[k], hi, hi0);
      lo := Minimum(lo, ColumnMin(rows, vars[k]));
      hi := Maximum(hi, ColumnMax(rows, vars[k]));
      k := k + 1;
    }
    assert vars[..k] == vars;
    b := Bounds(lo, hi);
  }

  /** The window, the per-series sources and the running bounds of a multi-series plot. */
  datatype Extraction = Extraction(window: seq<Row>, series: seq<seq<Row>>, bounds: Bounds)

  /**
   * The shared loop of the multi-series plots, once every series is known
   * to be a column: window the frame, fold each series' minimum and maximum
   * into the running bounds and keep its non-missing rows.
   */
  method CollectSeries(f: Frame, vars: seq<string>, start: Bound, end: Bound, lo0: real, hi0: real)
    returns (x: Extraction)
    ensures x.window == Filter(f.rows, Within(RowYear, start, end))
    ensures |x.series| == |vars|
    ensures forall k :: 0 <= k < |vars| ==> x.series[k] == Filter(x.window, HasValue(vars[k]))
    ensures LowerBound(x.window, vars, x.bounds.lo, lo0)
    ensures UpperBound(x.window, vars, x.bounds.hi, hi0)
  {
    var window := WindowRows(f, start, end);
    var b := SeriesBounds(window, vars, lo0, hi0);
    var series := seq(|vars|, k requires 0 <= k < |vars| => SeriesRows(window, vars[k]));
    x := Extraction(window, series, b);
  }

  /**
   * The same loop as it runs: the first series that is not a column raises
   * `KeyError` when its minimum is read.
   */
  method ExtractSeries(f: Frame, vars: seq<string>, start: Bound, end: Bound, lo0: real, hi0: real)
    returns (r: Result<Extraction>)
    ensures r.Err? <==> MissingColumn(f, vars).Some?
    ensures r.Err? ==> r.error == KeyError(vars[MissingColumn(f, vars).value])
    ensures r.Ok? ==> r.value.window == Filter(f.rows, Within(RowYear, start, end))
    ensures r.Ok? ==> (|r.value.series| == |vars| &&
      forall k :: 0 <= k < |vars| ==> r.value.series[k] == Filter(r.value.window, HasValue(vars[k])))
    ensures r.Ok? ==> LowerBound(r.value.window, vars, r.value.bounds.lo, lo0)
    ensures r.Ok? ==> UpperBound(r.value.window, vars, r.value.bounds.hi, hi0)
  {
    var missing := MissingColumn(f, vars);
    if missing.Some? {
      return Err(KeyError(vars[missing.value]));
    }
    var x := CollectSeries(f, vars, start, end, lo0, hi0);
    r := Ok(x);
  }
}
