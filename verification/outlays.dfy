/**
 * The non-interest outlays plot (`gen_tseries` in the outlays script): one
 * series over a year window, with a y range widened by a tenth of the
 * series' spread on each side.
 */
module OutlaysPlot {
  import opened Wrappers
  import opened Seqs
  import opened Windows
  import opened Frames

  /** What the figure is built from. */
  datatype Figure = Figure(rows: seq<Row>, xRange: YearRange, minY: Num, maxY: Num, buffer: Num, yLow: Num, yHigh: Num)

  /**
   * `gen_tseries`: the windowed rows, the least and greatest value of the
   * series over them, a buffer of a tenth of the spread, and the y range
   * from the least value less the buffer to the greatest plus the buffer.
   * A missing series column is a `KeyError`; a window with no value of the
   * series leaves every bound NaN.
   */
  function GenTseries(f: Frame, v: string, start: Bound, end: Bound): (r: Result<Figure>)
    ensures r.Err? <==> v !in f.columns
    ensures r.Err? ==> r.error == KeyError(v)
    ensures r.Ok? ==> r.value.rows == WindowRows(f, start, end) && r.value.xRange == XRange(f, start, end)
    ensures r.Ok? ==> (r.value.yLow.NaN? <==> NoValues(r.value.rows, v)) && (r.value.yHigh.NaN? <==> NoValues(r.value.rows, v))
    ensures r.Ok? && r.value.yLow.Num? ==>
      r.value.minY.Num? && r.value.maxY.Num? && r.value.buffer.Num? && r.value.yHigh.Num? &&
      0.0 <= r.value.buffer.v && 10.0 * r.value.buffer.v == r.value.maxY.v - r.value.minY.v &&
      r.value.yLow.v + r.value.buffer.v == r.value.minY.v && r.value.yHigh.v - r.value.buffer.v == r.value.maxY.v
    ensures r.Ok? && r.value.yLow.Num? ==> forall i :: 0 <= i < |r.value.rows| && v in r.value.rows[i].cells ==>
      r.value.yLow.v <= r.value.minY.v <= r.value.rows[i].cells[v] <= r.value.maxY.v <= r.value.yHigh.v
    ensures r.Ok? && r.value.yLow.Num? ==> (exists i :: (0 <= i < |r.value.rows| && v in r.value.rows[i].cells &&
      r.value.rows[i].cells[v] == r.value.minY.v))
    ensures r.Ok? && r.value.yLow.Num? ==> (exists i :: (0 <= i < |r.value.rows| && v in r.value.rows[i].cells &&
      r.value.rows[i].cells[v] == r.value.maxY.v))
  {
    if v !in f.columns then Err(KeyError(v))
    else
      var rows := WindowRows(f, start, end);
      var lo, hi := ColumnMin(rows, v), ColumnMax(rows, v);
      var buffer := if lo.NaN? || hi.NaN? then NaN else Num((hi.v - lo.v) / 10.0);
      assert lo.Num? ==> (var i :| 0 <= i < |rows| && v in rows[i].cells && rows[i].cells[v] == lo.v; lo.v <= hi.v);
      Ok(Figure(rows, XRange(f, start, end), lo, hi, buffer,
        if buffer.NaN? then NaN else Offset(lo, -buffer.v),
        if buffer.NaN? then NaN else Offset(hi, buffer.v)))
  }
}
