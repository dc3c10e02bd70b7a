/**
 * The deficit-by-Democratic-Senate-seats scatter: one circle per year,
 * coloured by who holds the White House and more than 50 Senate seats.
 */
module SenateSeatScatter {
  import opened Wrappers
  import opened Seqs
  import opened Party
  import opened Cohorts
  import opened DeficitPartyPlots
  import opened RevenueGraph

  /** The circle of one year of the Senate-seat scatter. */
  function SenateCircle(r: YearRecord): Colour
  {
    MajorityCircle(r.senate, r.demWhitehouse, SenateThreshold)
  }

  /**
   * The circles are the party-control rule with a Senate held by more than
   * 50 seats: Republican (Democratic) control is a Republican (Democratic)
   * president whose party holds more than 50 seats, and the code's final
   * branch makes every other year split. The note under the chart is
   * narrower: it calls a year split only when the other party holds a House
   * majority.
   */
  lemma SenateCircleFollowsControlRule(r: YearRecord)
    ensures SenateCircle(r) == LabelColour(ControlLabel(WhSenate, WhiteHouseParty(r), MoreThan(r, SenateThreshold, HouseThreshold)))
  {
  }

  /** A 50-50 Senate is green whoever holds the White House. */
  lemma EvenSenateIsGreen(r: YearRecord)
    requires r.senate.rep == 50 && r.senate.dem == 50
    ensures SenateCircle(r) == Green
  {
  }

  /** One circle per year, in order, each red, blue or green. */
  function SenateCircles(rows: seq<YearRecord>): (cs: seq<Colour>)
    ensures |cs| == |rows|
    ensures forall i :: 0 <= i < |rows| ==> cs[i] != Black && cs[i] == SenateCircle(rows[i])
  {
    Map(rows, SenateCircle)
  }
}
