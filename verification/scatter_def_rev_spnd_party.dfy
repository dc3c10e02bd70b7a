/**
 * `gen_scatter`: three panels (one per definition of control) plotting a
 * fiscal variable against Democratic Senate or House seats, with the years
 * coloured by the flag-based cohorts.
 */
module ScatterPlots {
  import opened Wrappers
  import opened Seqs
  import opened Party
  import opened Cohorts
  import opened Windows
  import FlagRule

  const SenateSeats: string := "dem_senateseats"
  const HouseSeats: string := "dem_houseseats"

  /** The y variables the tick table knows. */
  const TickedVariables: set<string> := {"deficit_gdp", "receipts_gdp", "spend_nonint_gdp"}

  /** Tick spacing, minor ticks and the vertical majority line of a panel. */
  datatype Axes = Axes(xTick: nat, xMinorTicks: nat, midLine: real, yTick: nat, yMinorTicks: nat)

  /**
   * The tick and `mid_line` settings chosen by axis variable. An x variable
   * other than the two seat columns leaves `seat_type` (read first) unbound;
   * a y variable outside the tick table leaves `y_tick_interval` unbound.
   */
  function AxisSettings(xvar: string, yvar: string): (r: Result<Axes>)
    ensures r.Ok? <==> (xvar == SenateSeats || xvar == HouseSeats) && yvar in TickedVariables
    ensures xvar != SenateSeats && xvar != HouseSeats ==> r == Err(UnboundLocalError("seat_type"))
    ensures (xvar == SenateSeats || xvar == HouseSeats) && yvar !in TickedVariables ==>
      r == Err(UnboundLocalError("y_tick_interval"))
    ensures r.Ok? ==> (r.value.midLine == 50.0 <==> xvar == SenateSeats)
    ensures r.Ok? ==> (r.value.midLine == 217.5 <==> xvar == HouseSeats)
    ensures r.Ok? ==> r.value.xTick == (if xvar == SenateSeats then 2 else 10) && r.value.xMinorTicks == 2
    ensures r.Ok? ==> r.value.yTick == r.value.yMinorTicks == (if yvar == "receipts_gdp" then 2 else 5)
  {
    var x :=
      if xvar == SenateSeats then Some((2, 50.0))
      else if xvar == HouseSeats then Some((10, 217.5))
      else None;
    var y :=
      if yvar == "deficit_gdp" then Some(5)
      else if yvar == "receipts_gdp" then Some(2)
      else if yvar == "spend_nonint_gdp" then Some(5)
      else None;
    if x.None? then Err(UnboundLocalError("seat_type"))
    else if y.None? then Err(UnboundLocalError("y_tick_interval"))
    else Ok(Axes(x.value.0, 2, x.value.1, y.value, y.value))
  }

  /** The data a `gen_scatter` figure is drawn from; `captions[k]` are the notes under panel `k`. */
  datatype Scatter = Scatter(rows: seq<YearRecord>, axes: Axes, panels: seq<Triple>, captions: seq<seq<string>>)

  /**
   * `gen_scatter`: the y column is read and spread first, then the x column
   * (a missing one is a `KeyError`, a text one on a non-empty window a
   * `TypeError`), then the axis settings, and last the panel loop's
   * `note_text_list[k]`, an `IndexError` with fewer than three note lists (the
   * default `[]` included). The panels hold the flag-based cohorts of the
   * years from `start_year` on; with 0/1 flags each panel holds every
   * Republican/Democratic year of the window exactly once.
   */
  function GenScatter(rows: seq<YearRecord>, xvar: string, yvar: string, start: Bound, notes: seq<seq<string>>)
    : (r: Result<Scatter>)
    ensures yvar !in PartyColumns ==> r == Err(KeyError(yvar))
    ensures yvar in PartyColumns && SpreadFails(Filter(rows, Within(YearOf, start, Unbounded)), yvar) ==>
      r == Err(TypeError(yvar))
    ensures (yvar in PartyColumns && !SpreadFails(Filter(rows, Within(YearOf, start, Unbounded)), yvar) &&
      xvar !in PartyColumns) ==> r == Err(KeyError(xvar))
    ensures (yvar in PartyColumns && !SpreadFails(Filter(rows, Within(YearOf, start, Unbounded)), yvar) &&
      xvar in PartyColumns && SpreadFails(Filter(rows, Within(YearOf, start, Unbounded)), xvar)) ==>
      r == Err(TypeError(xvar))
    ensures r.Ok? <==> (yvar in PartyColumns && xvar in PartyColumns &&
      !SpreadFails(Filter(rows, Within(YearOf, start, Unbounded)), yvar) &&
      !SpreadFails(Filter(rows, Within(YearOf, start, Unbounded)), xvar) && AxisSettings(xvar, yvar).Ok? &&
      |Definitions| <= |notes|)
    ensures (yvar in PartyColumns && xvar in PartyColumns &&
      !SpreadFails(Filter(rows, Within(YearOf, start, Unbounded)), yvar) &&
      !SpreadFails(Filter(rows, Within(YearOf, start, Unbounded)), xvar) && AxisSettings(xvar, yvar).Ok? &&
      |notes| < |Definitions|) ==> r == Err(IndexError)
    ensures r.Ok? ==> (|r.value.captions| == |Definitions| &&
      forall k :: 0 <= k < |Definitions| ==> r.value.captions[k] == notes[k])
    ensures r.Ok? ==> r.value.rows == Filter(rows, Within(YearOf, start, Unbounded))
    ensures r.Ok? ==> r.value.axes == AxisSettings(xvar, yvar).value
    ensures r.Ok? ==> r.value.panels == CohortList(r.value.rows, FlagRule.InCohort)
    ensures r.Ok? && (forall x :: x in rows ==> FlagsBinary(x)) ==>
      |r.value.panels| == 3 && forall i :: 0 <= i < 3 ==> PartitionedBy(r.value.rows, r.value.panels[i])
  {
    var window := StartWindow(rows, YearOf, start);
    if yvar !in PartyColumns then Err(KeyError(yvar))
    else if SpreadFails(window, yvar) then Err(TypeError(yvar))
    else if xvar !in PartyColumns then Err(KeyError(xvar))
    else if SpreadFails(window, xvar) then Err(TypeError(xvar))
    else
      match AxisSettings(xvar, yvar)
      case Err(e) => Err(e)
      case Ok(axes) =>
        if |notes| < |Definitions| then Err(IndexError)
        else if forall x :: x in rows ==> FlagsBinary(x) then
          FlagRule.PanelsPartition(window);
          Ok(Scatter(window, axes, CohortList(window, FlagRule.InCohort), notes[..|Definitions|]))
        else
          Ok(Scatter(window, axes, CohortList(window, FlagRule.InCohort), notes[..|Definitions|]))
  }
}
