/**
 * The receipts time series: one circle per year, coloured by who holds the
 * White House and more than 217 House seats, over grey recession bars.
 */
module RevenueGraph {
  import opened Wrappers
  import opened Seqs
  import opened Party
  import opened Cohorts
  import opened Recessions
  import opened DeficitPartyPlots

  /**
   * The if/elif/else of a circle: red for a Republican White House with more
   * than `threshold` Republican seats, else blue for a Democratic White House
   * with more than `threshold` Democratic seats, else green. The red and blue
   * conditions never hold together.
   */
  function MajorityCircle(ch: Chamber, demWhitehouse: int, threshold: int): (col: Colour)
    ensures col != Black
    ensures col == Red <==> ch.rep > threshold && demWhitehouse == 0
    ensures col == Blue <==> ch.dem > threshold && demWhitehouse == 1
    ensures col == Green <==> !(ch.rep > threshold && demWhitehouse == 0) && !(ch.dem > threshold && demWhitehouse == 1)
  {
    if ch.rep > threshold && demWhitehouse == 0 then Red
    else if ch.dem > threshold && demWhitehouse == 1 then Blue
    else Green
  }

  /** The party-control rule of the notes, with "holding" meaning more than `threshold` seats. */
  function MoreThan(r: YearRecord, senateThreshold: int, houseThreshold: int): Holding
  {
    Holding(r.senate.rep > senateThreshold, r.senate.dem > senateThreshold,
            r.house.rep > houseThreshold, r.house.dem > houseThreshold)
  }

  /** The circle of one year of the receipts chart. */
  function HouseCircle(r: YearRecord): Colour
  {
    MajorityCircle(r.house, r.demWhitehouse, HouseThreshold)
  }

  /**
   * The circles are the party-control rule with a House held by more than
   * 217 seats: Republican (Democratic) control is a Republican (Democratic)
   * president whose party holds more than 217 seats, and the code's final
   * branch makes every other year split. The note under the chart is
   * narrower: it calls a year split only when the other party holds a House
   * majority, so a year with no House majority fits none of its cohorts.
   */
  lemma HouseCircleFollowsControlRule(r: YearRecord)
    ensures HouseCircle(r) == LabelColour(ControlLabel(WhHouse, WhiteHouseParty(r), MoreThan(r, SenateThreshold, HouseThreshold)))
  {
  }

  /** The president's party holding exactly 217 House seats is a green year. */
  lemma ExactlyThresholdIsGreen(r: YearRecord)
    requires (r.demWhitehouse == 0 && r.house.rep == HouseThreshold) ||
             (r.demWhitehouse == 1 && r.house.dem == HouseThreshold)
    ensures HouseCircle(r) == Green
  {
  }

  /** The data the receipts chart is drawn from. */
  datatype Chart = Chart(circles: seq<Colour>, bars: seq<Patch>)

  /**
   * One circle per year, in order, and the recession bars from the earliest
   * year of the data on.
   */
  function RevenueChart(rows: seq<YearRecord>, recs: seq<Recession>): (c: Chart)
    ensures |c.circles| == |rows|
    ensures forall i :: 0 <= i < |rows| ==> c.circles[i] != Black && c.circles[i] == HouseCircle(rows[i])
    ensures forall rec :: rec in recs && StartsInData(rows, YearOf, rec) ==> Patch(rec.peak, rec.trough) in c.bars
    ensures forall rec :: rec in recs && StartsInData(rows, YearOf, rec) && rec.peak == rec.trough ==>
      Patch(rec.peak, rec.peak + 1) in c.bars
    ensures forall b :: b in c.bars ==> exists rec :: (rec in recs && StartsInData(rows, YearOf, rec) &&
      (b == Patch(rec.peak, rec.trough) || b == Patch(rec.peak, rec.peak + 1)))
  {
    Chart(Map(rows, HouseCircle), DataBars(rows, YearOf, recs))
  }
}
