/**
 * The OG-USA plots: several forecast or macro series over a year window
 * (`gen_tseries_dy`, `gen_tseries_macro`) and the grouped bar chart of the
 * household distribution (`gen_hhdist_2bars`).
 */
module OgPlots {
  import opened Wrappers
  import opened Seqs
  import opened Windows
  import opened Frames

  /** What a multi-series figure is built from: its axis ranges and one source per series. */
  datatype SeriesFigure = SeriesFigure(xRange: YearRange, yLow: Num, yHigh: Num, series: seq<seq<Row>>)

  /**
   * `gen_tseries_dy`: bounds start at 100 and 0 and the y range adds five
   * points on each side, so every plotted value lies at least five points
   * inside it. A missing series column raises `KeyError`; after that, the
   * drawing loop's `legend_label_list[k]` raises `IndexError` when there are
   * fewer legend labels than series.
   */
  method GenTseriesDy(f: Frame, vars: seq<string>, labels: seq<string>, start: Bound, end: Bound)
    returns (r: Result<SeriesFigure>)
    ensures r.Ok? <==> MissingColumn(f, vars).None? && |vars| <= |labels|
    ensures MissingColumn(f, vars).Some? ==> r == Err(KeyError(vars[MissingColumn(f, vars).value]))
    ensures MissingColumn(f, vars).None? && |labels| < |vars| ==> r == Err(IndexError)
    ensures r.Ok? ==> r.value.xRange == XRange(f, start, end)
    ensures r.Ok? ==> (|r.value.series| == |vars| &&
      forall k :: 0 <= k < |vars| ==> r.value.series[k] == SeriesRows(WindowRows(f, start, end), vars[k]))
    ensures r.Ok? ==> (r.value.yLow.NaN? <==> SomeSeriesEmpty(WindowRows(f, start, end), vars))
    ensures r.Ok? ==> (r.value.yHigh.NaN? <==> SomeSeriesEmpty(WindowRows(f, start, end), vars))
    ensures r.Ok? && r.value.yLow.Num? ==>
      r.value.yLow.v <= 95.0 && BelowAll(WindowRows(f, start, end), vars, r.value.yLow.v + 5.0)
    ensures r.Ok? && r.value.yHigh.Num? ==>
      r.value.yHigh.v >= 5.0 && AboveAll(WindowRows(f, start, end), vars, r.value.yHigh.v - 5.0)
  {
    var e := ExtractSeries(f, vars, start, end, 100.0, 0.0);
    if e.Err? {
      return Err(e.error);
    }
    if |labels| < |vars| {
      return Err(IndexError);
    }
    var x := e.value;
    r := Ok(SeriesFigure(XRange(f, start, end), Offset(x.bounds.lo, -5.0), Offset(x.bounds.hi, 5.0), x.series));
  }

  /** `y_buffer_amt`: a tenth of the spread of the bounds, NaN when either is NaN. */
  function Buffer(lo: Num, hi: Num): Num
  {
    if lo.NaN? || hi.NaN? then NaN else Num((hi.v - lo.v) / 10.0)
  }

  /**
   * `gen_tseries_macro`: the same window and series as `gen_tseries_dy`, and
   * a y range widened by a tenth of the spread. With at least one series the
   * range contains every plotted value; with none the start values 100 and 0
   * are left as they are and the range comes out reversed. The errors are
   * those of `gen_tseries_dy`: a missing column, then too few legend labels.
   */
  method GenTseriesMacro(f: Frame, vars: seq<string>, labels: seq<string>, start: Bound, end: Bound)
    returns (r: Result<SeriesFigure>)
    ensures r.Ok? <==> MissingColumn(f, vars).None? && |vars| <= |labels|
    ensures MissingColumn(f, vars).Some? ==> r == Err(KeyError(vars[MissingColumn(f, vars).value]))
    ensures MissingColumn(f, vars).None? && |labels| < |vars| ==> r == Err(IndexError)
    ensures r.Ok? ==> r.value.xRange == XRange(f, start, end)
    ensures r.Ok? ==> (|r.value.series| == |vars| &&
      forall k :: 0 <= k < |vars| ==> r.value.series[k] == SeriesRows(WindowRows(f, start, end), vars[k]))
    ensures r.Ok? ==> (r.value.yLow.NaN? <==> SomeSeriesEmpty(WindowRows(f, start, end), vars))
    ensures r.Ok? ==> (r.value.yHigh.NaN? <==> SomeSeriesEmpty(WindowRows(f, start, end), vars))
    ensures r.Ok? && r.value.yLow.Num? && |vars| > 0 ==>
      r.value.yLow.v <= r.value.yHigh.v && BelowAll(WindowRows(f, start, end), vars, r.value.yLow.v) &&
      AboveAll(WindowRows(f, start, end), vars, r.value.yHigh.v)
    ensures r.Ok? && |vars| == 0 ==> r.value.yLow == Num(110.0) && r.value.yHigh == Num(-10.0)
  {
    var e := ExtractSeries(f, vars, start, end, 100.0, 0.0);
    if e.Err? {
      return Err(e.error);
    }
    if |labels| < |vars| {
      return Err(IndexError);
    }
    var x := e.value;
    var lo, hi := x.bounds.lo, x.bounds.hi;
    if lo.Num? && |vars| > 0 {
      // a series with no value would have made the bounds NaN, so vars[0] has one
      assert !NoValues(x.window, vars[0]);
      var i :| 0 <= i < |x.window| && vars[0] in x.window[i].cells;
      assert lo.v <= x.window[i].cells[vars[0]] <= hi.v;
    }
    var buffer := Buffer(lo, hi);
    r := Ok(SeriesFigure(XRange(f, start, end),
      if buffer.NaN? then NaN else Offset(lo, -buffer.v),
      if buffer.NaN? then NaN else Offset(hi, buffer.v),
      x.series));
  }

  /**
   * `x`: every (category, label) pair, category-major, as the grouped bar
   * chart's factor axis.
   */
  function CrossProduct(cats: seq<string>, labels: seq<string>): (x: seq<(string, string)>)
    ensures |x| == |cats| * |labels|
  {
    if |cats| == 0 then []
    else seq(|labels|, j requires 0 <= j < |labels| => (cats[0], labels[j])) + CrossProduct(cats[1..], labels)
  }

  /** Entry `i * |labels| + j` of the cross product is the pair of category `i` and label `j`. */
  lemma {:induction false} CrossProductAt(cats: seq<string>, labels: seq<string>, i: nat, j: nat)
    requires i < |cats| && j < |labels|
    ensures i * |labels| + j < |CrossProduct(cats, labels)|
    ensures CrossProduct(cats, labels)[i * |labels| + j] == (cats[i], labels[j])
  {
    var n := |labels|;
    if i == 0 {
    } else {
      CrossProductAt(cats[1..], labels, i - 1, j);
      assert i * n + j == (i - 1) * n + j + n;
      assert |cats| * n == (|cats| - 1) * n + n;
    }
  }

  /** The converse reading: position `p` holds category `p / |labels|` and label `p % |labels|`. */
  lemma CrossProductIndex(cats: seq<string>, labels: seq<string>, p: nat)
    requires p < |CrossProduct(cats, labels)|
    ensures |labels| > 0
    ensures p / |labels| < |cats|
    ensures CrossProduct(cats, labels)[p] == (cats[p / |labels|], labels[p % |labels|])
  {
    var n, c := |labels|, |cats|;
    var i, j := DivBelow(p, n, c);
    CrossProductAt(cats, labels, i, j);
  }

  /** A position below `c * n` lies in one of the first `c` blocks of `n`. */
  lemma DivBelow(p: nat, n: nat, c: nat) returns (i: nat, j: nat)
    requires 0 < n && p < c * n
    ensures i == p / n && j == p % n
    ensures i < c && j < n && p == i * n + j
  {
    i, j := p / n, p % n;
    if i >= c {
      MulMono(c, i, n);
    }
  }

  lemma MulMono(a: nat, b: nat, n: nat)
    requires a <= b
    ensures a * n <= b * n
  {}

  /** The first failure of the bar-height loop on its first row: too few height columns, or a missing one. */
  function HeightFailure(f: Frame, vars1: seq<string>, j: nat): (e: Option<Failure>)
    requires j <= 4
    decreases 4 - j
    ensures e.None? <==> 4 <= |vars1| && forall m :: j <= m < 4 ==> vars1[m] in f.columns
    ensures e.Some? ==> e.value == IndexError || e.value.KeyError?
  {
    if j == 4 then (if 4 <= |vars1| then None else Some(IndexError))
    else if j >= |vars1| then Some(IndexError)
    else if vars1[j] !in f.columns then Some(KeyError(vars1[j]))
    else HeightFailure(f, vars1, j + 1)
  }

  /**
   * `data1`: for each category row, the values of the first four height
   * columns in order. With no rows nothing is read and nothing can fail.
   */
  function BarHeights(f: Frame, vars1: seq<string>): (r: Result<seq<Num>>)
    ensures |f.rows| == 0 ==> r == Ok([])
    ensures |f.rows| > 0 ==> (r.Err? <==> |vars1| < 4 || exists m :: 0 <= m < 4 && vars1[m] !in f.columns)
    ensures r.Ok? ==> |r.value| == 4 * |f.rows|
    ensures r.Ok? ==> forall obs, j :: 0 <= obs < |f.rows| && 0 <= j < 4 ==> r.value[4 * obs + j] == Cell(f.rows[obs], vars1[j])
  {
    if |f.rows| == 0 then Ok([])
    else
      var e := HeightFailure(f, vars1, 0);
      if e.Some? then Err(e.value)
      else Ok(seq(4 * |f.rows|, p requires 0 <= p < 4 * |f.rows| => Cell(f.rows[p / 4], vars1[p % 4])))
  }

  /** The household-distribution table: its text columns (the quantile names) and its numeric frame. */
  datatype QuantileTable = QuantileTable(text: map<string, seq<string>>, frame: Frame)

  /** A text column has one entry per row. */
  predicate WellFormed(t: QuantileTable)
  {
    forall c :: c in t.text ==> |t.text[c]| == |t.frame.rows|
  }

  /** What the grouped bar chart is built from. */
  datatype BarChart = BarChart(x: seq<(string, string)>, heights: seq<Num>, yLow: Num, yHigh: Num)

  /**
   * `gen_hhdist_2bars`: the category column (a missing one is a `KeyError`),
   * the cross product with the legend labels, the bar heights, and the y
   * range over all height columns of both groups, widened by a tenth of the
   * spread. The first legend label is read for the bars, so an empty label
   * list is an `IndexError`.
   */
  method GenHhdist2Bars(t: QuantileTable, catVar: string, vars1: seq<string>, vars2: seq<string>, labels: seq<string>)
    returns (r: Result<BarChart>)
    requires WellFormed(t)
    ensures catVar !in t.text ==> r == Err(KeyError(catVar))
    ensures catVar in t.text && BarHeights(t.frame, vars1).Err? ==> r == Err(BarHeights(t.frame, vars1).error)
    ensures catVar in t.text && BarHeights(t.frame, vars1).Ok? && MissingColumn(t.frame, vars1 + vars2).Some? ==>
      r == Err(KeyError((vars1 + vars2)[MissingColumn(t.frame, vars1 + vars2).value]))
    ensures (catVar in t.text && BarHeights(t.frame, vars1).Ok? && MissingColumn(t.frame, vars1 + vars2).None? &&
             |labels| == 0) ==> r == Err(IndexError)
    ensures r.Ok? <==> (catVar in t.text && BarHeights(t.frame, vars1).Ok? &&
                        MissingColumn(t.frame, vars1 + vars2).None? && |labels| > 0)
    ensures r.Ok? ==> r.value.x == CrossProduct(t.text[catVar], labels)
    ensures r.Ok? ==> r.value.heights == BarHeights(t.frame, vars1).value
    ensures r.Ok? ==> (|r.value.x| == |r.value.heights| <==> |labels| == 4 || |t.frame.rows| == 0)
    ensures r.Ok? && r.value.yLow.Num? && r.value.yHigh.Num? && |vars1 + vars2| > 0 ==>
      BelowAll(t.frame.rows, vars1 + vars2, r.value.yLow.v) && AboveAll(t.frame.rows, vars1 + vars2, r.value.yHigh.v)
  {
    if catVar !in t.text {
      return Err(KeyError(catVar));
    }
    var heights := BarHeights(t.frame, vars1);
    if heights.Err? {
      return Err(heights.error);
    }
    var all := vars1 + vars2;
    var missing := MissingColumn(t.frame, all);
    if missing.Some? {
      return Err(KeyError(all[missing.value]));
    }
    if |labels| == 0 {
      return Err(IndexError);
    }
    var chart := BuildChart(t, catVar, vars1, vars2, labels, heights.value);
    r := Ok(chart);
  }

  /**
   * The chart once every column is known to be present: the cross product,
   * `data1`, and the y range over both groups widened by a tenth of the
   * spread, which contains every height when it is not NaN.
   */
  method BuildChart(t: QuantileTable, catVar: string, vars1: seq<string>, vars2: seq<string>, labels: seq<string>,
                    heights: seq<Num>) returns (c: BarChart)
    requires WellFormed(t) && catVar in t.text
    requires BarHeights(t.frame, vars1) == Ok(heights)
    ensures c.x == CrossProduct(t.text[catVar], labels)
    ensures c.heights == heights
    ensures |c.x| == |c.heights| <==> |labels| == 4 || |t.frame.rows| == 0
    ensures c.yLow.Num? && c.yHigh.Num? && |vars1 + vars2| > 0 ==>
      BelowAll(t.frame.rows, vars1 + vars2, c.yLow.v) && AboveAll(t.frame.rows, vars1 + vars2, c.yHigh.v)
  {
    var cats := t.text[catVar];
    var yLow, yHigh := BufferedRange(t.frame.rows, vars1 + vars2);
    SameLength(|cats|, |labels|);
    c := BarChart(CrossProduct(cats, labels), heights, yLow, yHigh);
  }

  /**
   * The bar chart's y range: the running bounds over every series, starting
   * from 100 and -100, each moved out by a tenth of their spread. It is NaN
   * exactly when some series has no value, and otherwise contains every value.
   */
  method BufferedRange(rows: seq<Row>, vars: seq<string>) returns (yLow: Num, yHigh: Num)
    ensures yLow.NaN? <==> SomeSeriesEmpty(rows, vars)
    ensures yHigh.NaN? <==> SomeSeriesEmpty(rows, vars)
    ensures yLow.Num? && yHigh.Num? && |vars| > 0 ==> BelowAll(rows, vars, yLow.v) && AboveAll(rows, vars, yHigh.v)
  {
    var b := SeriesBounds(rows, vars, 100.0, -100.0);
    var lo, hi := b.lo, b.hi;
    var buffer := Buffer(lo, hi);
    if lo.Num? && |vars| > 0 {
      assert !NoValues(rows, vars[0]);
      var i :| 0 <= i < |rows| && vars[0] in rows[i].cells;
      assert lo.v <= rows[i].cells[vars[0]] <= hi.v;
      BelowLower(rows, vars, lo.v, lo.v - buffer.v);
      AboveHigher(rows, vars, hi.v, hi.v + buffer.v);
    }
    yLow := if buffer.NaN? then NaN else Offset(lo, -buffer.v);
    yHigh := if buffer.NaN? then NaN else Offset(hi, buffer.v);
  }

  /** A bound below every value stays below them when lowered. */
  lemma BelowLower(rows: seq<Row>, vars: seq<string>, x: real, y: real)
    requires BelowAll(rows, vars, x) && y <= x
    ensures BelowAll(rows, vars, y)
  {}

  /** A bound above every value stays above them when raised. */
  lemma AboveHigher(rows: seq<Row>, vars: seq<string>, x: real, y: real)
    requires AboveAll(rows, vars, x) && x <= y
    ensures AboveAll(rows, vars, y)
  {}

  /** `|cats| * |labels| == 4 * |cats|` exactly when there are four labels or no categories. */
  lemma SameLength(c: nat, n: nat)
    ensures c * n == 4 * c <==> n == 4 || c == 0
  {
    if c > 0 && n != 4 {
      if n < 4 {
        assert c * n <= c * 3 by { MulMono(n, 3, c); }
      } else {
        assert c * n >= c * 5 by { MulMono(5, n, c); }
      }
    }
  }
}
