/**
 * `gen_tseries`: three panels (one per definition of control) of a fiscal
 * variable by year, with the flag-based cohorts as coloured circles and grey
 * recession bars.
 */
module PartyTseries {
  import opened Wrappers
  import opened Seqs
  import opened Party
  import opened Cohorts
  import opened Windows
  import opened Recessions
  import FlagRule

  /**
   * The data a `gen_tseries` figure is drawn from; every panel draws the same
   * bars, and `captions[k]` are the notes under panel `k`.
   */
  datatype Tseries = Tseries(rows: seq<YearRecord>, panels: seq<Triple>, bars: seq<Patch>, captions: seq<seq<string>>)

  /** `min_year`: the explicit start year, or the earliest year of the data for 'min'. */
  function RecessionBars(rows: seq<YearRecord>, start: Bound, recs: seq<Recession>): (ps: seq<Patch>)
    ensures start.At? ==> forall rec :: rec in recs && rec.peak >= start.year && rec.trough >= start.year ==>
      Patch(rec.peak, rec.trough) in ps
    ensures start.At? ==> forall p :: p in ps ==> exists rec :: (rec in recs && rec.peak >= start.year &&
      rec.trough >= start.year && (p == Patch(rec.peak, rec.trough) || p == Patch(rec.peak, rec.peak + 1)))
    ensures start.Unbounded? ==> forall rec :: rec in recs && StartsInData(rows, YearOf, rec) ==>
      Patch(rec.peak, rec.trough) in ps
    ensures start.Unbounded? ==> forall p :: p in ps ==> exists rec :: (rec in recs && StartsInData(rows, YearOf, rec) &&
      (p == Patch(rec.peak, rec.trough) || p == Patch(rec.peak, rec.peak + 1)))
  {
    if start.Unbounded? then
      var ps := DataBars(rows, YearOf, recs);
      ps
    else
      var ps := StartBars(start.year, recs);
      ps
  }

  /** The y variables the hover-tool table knows; any other leaves `tool_str` unbound. */
  const TooltipVariables: set<string> := {"deficit_gdp", "receipts_gdp", "spend_nonint_gdp"}

  /**
   * `gen_tseries`: a missing y column is a `KeyError`, a text one on a
   * non-empty window a `TypeError` (the y range subtracts from its minimum),
   * a column outside the hover-tool table an `UnboundLocalError`, and fewer
   * than three note lists (the default `[]` included) an `IndexError` at
   * `note_text_list[k]`. So only the three fiscal shares draw. The panels hold the flag-based cohorts of
   * the years from `start_year` on (each Republican/Democratic year exactly
   * once with 0/1 flags), and the recession bars start at `min_year`.
   */
  function GenTseries(rows: seq<YearRecord>, yvar: string, start: Bound, recs: seq<Recession>, notes: seq<seq<string>>)
    : (r: Result<Tseries>)
    ensures r.Ok? <==> yvar in TooltipVariables && |Definitions| <= |notes|
    ensures yvar !in PartyColumns ==> r == Err(KeyError(yvar))
    ensures yvar in PartyColumns && SpreadFails(Filter(rows, Within(YearOf, start, Unbounded)), yvar) ==>
      r == Err(TypeError(yvar))
    ensures (yvar in PartyColumns && !SpreadFails(Filter(rows, Within(YearOf, start, Unbounded)), yvar) &&
      yvar !in TooltipVariables) ==> r == Err(UnboundLocalError("tool_str"))
    ensures yvar in TooltipVariables && |notes| < |Definitions| ==> r == Err(IndexError)
    ensures r.Ok? ==> (|r.value.captions| == |Definitions| &&
      forall k :: 0 <= k < |Definitions| ==> r.value.captions[k] == notes[k])
    ensures r.Ok? ==> r.value.rows == Filter(rows, Within(YearOf, start, Unbounded))
    ensures r.Ok? ==> r.value.panels == CohortList(r.value.rows, FlagRule.InCohort)
    ensures r.Ok? && (forall x :: x in rows ==> FlagsBinary(x)) ==>
      |r.value.panels| == 3 && forall i :: 0 <= i < 3 ==> PartitionedBy(r.value.rows, r.value.panels[i])
    ensures r.Ok? ==> r.value.bars == RecessionBars(rows, start, recs)
  {
    var window := StartWindow(rows, YearOf, start);
    if yvar !in PartyColumns then Err(KeyError(yvar))
    else if SpreadFails(window, yvar) then Err(TypeError(yvar))
    else if yvar !in TooltipVariables then Err(UnboundLocalError("tool_str"))
    else if |notes| < |Definitions| then Err(IndexError)
    else if forall x :: x in rows ==> FlagsBinary(x) then
      FlagRule.PanelsPartition(window);
      Ok(Tseries(window, CohortList(window, FlagRule.InCohort), RecessionBars(rows, start, recs), notes[..|Definitions|]))
    else
      Ok(Tseries(window, CohortList(window, FlagRule.InCohort), RecessionBars(rows, start, recs), notes[..|Definitions|]))
  }
}
