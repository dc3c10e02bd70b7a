/**
 * The three-tab seat scatter of `deficitPartyPlots`: each year is coloured
 * red, blue or green by hard-coded seat thresholds (217 House seats, 50
 * Senate seats) and the White House indicator, one pass per tab.
 */
module DeficitPartyPlots {
  import opened Wrappers
  import opened Party
  import opened Cohorts

  /** The values of the `color` column. */
  datatype Colour = Black | Red | Blue | Green

  /** `color_list = ['black'] * 92`: the colour column has a fixed length. */
  const ColourListLength: nat := 92

  const HouseThreshold: int := 217
  const SenateThreshold: int := 50

  /** What the two string arguments select. */
  datatype Setup = Setup(halfLine: int, startingIndex: nat, xColumn: string, yColumn: string)

  /**
   * The argument checks, then the choices made from the arguments: the
   * vertical line at half the chamber, the first coloured row (11 for
   * non-interest spending, which starts later in the data, otherwise 0) and
   * the plotted columns.
   */
  function PlotSetup(component: string, seatType: string): (r: Result<Setup>)
    ensures component != "deficit" && component != "spending" && component != "revenues" ==>
      r == Err(ValueError("deficit_component input invalid"))
    ensures ((component == "deficit" || component == "spending" || component == "revenues") &&
             seatType != "house" && seatType != "senate") ==> r == Err(ValueError("seat_type input invalid"))
    ensures r.Ok? <==> ((component == "deficit" || component == "spending" || component == "revenues") &&
                        (seatType == "house" || seatType == "senate"))
    ensures r.Ok? ==> r.value.halfLine == (if seatType == "house" then HouseThreshold else SenateThreshold)
    ensures r.Ok? ==> (r.value.startingIndex == 11 <==> component == "spending")
    ensures r.Ok? ==> (r.value.startingIndex == 0 <==> component != "spending")
  {
    if !(component == "deficit" || component == "spending" || component == "revenues") then
      Err(ValueError("deficit_component input invalid"))
    else if !(seatType == "house" || seatType == "senate") then
      Err(ValueError("seat_type input invalid"))
    else
      var y := if component == "deficit" then "deficit_gdp"
               else if component == "spending" then "spend_nonint_gdp"
               else "receipts_gdp";
      if seatType == "house" then Ok(Setup(217, if component == "spending" then 11 else 0, "DemHouseSeats", y))
      else Ok(Setup(50, if component == "spending" then 11 else 0, "DemSenateSeats", y))
  }

  /** The red test of a tab: Republican White House and Democrats below the threshold in the tab's chambers. */
  predicate RedTest(c: Control, r: YearRecord)
  {
    (c == WhSenate || r.house.dem < HouseThreshold) &&
    (c == WhHouse || r.senate.dem < SenateThreshold) &&
    r.demWhitehouse == 0
  }

  /** The blue test of a tab: Democratic White House and Democrats above the threshold in the tab's chambers. */
  predicate BlueTest(c: Control, r: YearRecord)
  {
    (c == WhSenate || r.house.dem > HouseThreshold) &&
    (c == WhHouse || r.senate.dem > SenateThreshold) &&
    r.demWhitehouse == 1
  }

  /** The colour one pass of the loop gives a year: the if/elif/else of tab `c`. */
  function PassColour(c: Control, r: YearRecord): (col: Colour)
    ensures col != Black
    ensures col == Red <==> RedTest(c, r)
    ensures col == Blue <==> BlueTest(c, r)
    ensures col == Green <==> !RedTest(c, r) && !BlueTest(c, r)
  {
    if RedTest(c, r) then Red
    else if BlueTest(c, r) then Blue
    else Green
  }

  /** The president's party read from the White House indicator. */
  function WhiteHouseParty(r: YearRecord): PresidentParty
  {
    if r.demWhitehouse == 0 then Republican
    else if r.demWhitehouse == 1 then Democrat
    else OtherParty
  }

  /** Chamber holdings read from the Democratic seat counts and the two thresholds. */
  function ThresholdHolding(r: YearRecord): Holding
  {
    Holding(r.senate.dem < SenateThreshold, r.senate.dem > SenateThreshold,
            r.house.dem < HouseThreshold, r.house.dem > HouseThreshold)
  }

  function LabelColour(l: Option<Label>): Colour
  {
    match l
    case Some(Rep) => Red
    case Some(Dem) => Blue
    case _ => Green
  }

  /**
   * Every pass is the party-control rule of the other scripts, with a
   * chamber held by Republicans below the threshold and by Democrats above it:
   * red for Republican control, blue for Democratic control, green otherwise.
   */
  lemma PassFollowsControlRule(c: Control, r: YearRecord)
    ensures PassColour(c, r) == LabelColour(ControlLabel(c, WhiteHouseParty(r), ThresholdHolding(r)))
  {
  }

  /**
   * Exactly 217 Democratic House seats, or exactly 50 Democratic Senate seats,
   * makes a year green in every tab that tests that chamber.
   */
  lemma ThresholdIsGreen(c: Control, r: YearRecord)
    requires (c != WhSenate && r.house.dem == HouseThreshold) || (c != WhHouse && r.senate.dem == SenateThreshold)
    ensures PassColour(c, r) == Green
  {
  }

  /** The colour column after the first `passes` passes, as far as row `upTo` of the last one. */
  function ColumnAfter(rows: seq<YearRecord>, start: nat, passes: nat, upTo: int, x: nat): Colour
    requires passes < 3
  {
    if start <= x < upTo && x < |rows| then PassColour(Definitions[passes], rows[x])
    else if passes > 0 && start <= x < |rows| then PassColour(Definitions[passes - 1], rows[x])
    else Black
  }

  /**
   * The colouring loop. All three passes write the one shared `color`
   * column, so what is left is the last (White House + House) pass from
   * `starting_index` on and black before it. A row at or past the end of the
   * 92-entry column (there is one when the rows from `starting_index` on
   * reach past 92) is an `IndexError`, met in the first pass.
   */
  method ColourColumn(rows: seq<YearRecord>, start: nat) returns (r: Result<seq<Colour>>)
    ensures r.Err? <==> start < |rows| && ColourListLength < |rows|
    ensures r.Err? ==> r.error == IndexError
    ensures r.Ok? ==> |r.value| == ColourListLength
    ensures r.Ok? ==> forall x :: 0 <= x < ColourListLength ==>
      r.value[x] == (if start <= x < |rows| then PassColour(WhHouse, rows[x]) else Black)
  {
    var colour := seq(ColourListLength, _ => Black);
    var i := 0;
    while i < 3
      invariant 0 <= i <= 3
      invariant |colour| == ColourListLength
      invariant i > 0 ==> !(start < |rows| && ColourListLength < |rows|)
      invariant forall y :: 0 <= y < ColourListLength ==>
        colour[y] == (if i > 0 && start <= y < |rows| then PassColour(Definitions[i - 1], rows[y]) else Black)
    {
      var x := start;
      while x < |rows|
        invariant start <= x
        invariant |colour| == ColourListLength
        invariant x == start || x <= ColourListLength
        invariant forall y :: 0 <= y < ColourListLength ==>
          colour[y] == ColumnAfter(rows, start, i, x, y)
      {
        if x >= |colour| {
          return Err(IndexError);
        }
        colour := colour[x := PassColour(Definitions[i], rows[x])];
        x := x + 1;
      }
      i := i + 1;
    }
    return Ok(colour);
  }

  /**
   * 1981: a Republican White House and Senate (46 Democratic senators, one
   * independent) with a Democratic House (243 of 435 seats).
   */
  function DividedHouseYear(): YearRecord
  {
    YearRecord(1981, Republican, 0, Chamber(46, 53, 1, 100), Chamber(243, 192, 0, 435), 0, 1,
               Fiscal(0.0, 0.0, 0.0, 0.0, 0.0))
  }

  /**
   * The shared column hides the Senate-control pass: some year is red under
   * White House + Senate control yet green under White House + House
   * control, which is the colour every tab, the Senate tab included, shows
   * for it.
   */
  lemma SharedColumnMisleads()
    ensures exists r :: (PassColour(Full, r) == Green && PassColour(WhSenate, r) == Red &&
                         PassColour(WhHouse, r) == Green)
  {
    var r := DividedHouseYear();
    assert PassColour(Full, r) == Green && PassColour(WhSenate, r) == Red && PassColour(WhHouse, r) == Green;
  }

  /**
   * The colouring the tabs and their notes describe: one column per tab, as
   * long as the data, holding that tab's pass from `starting_index` on and
   * black before it.
   */
  function TabColours(rows: seq<YearRecord>, start: nat): (tabs: seq<seq<Colour>>)
    ensures |tabs| == 3
    ensures forall i :: 0 <= i < 3 ==> |tabs[i]| == |rows|
    ensures forall i, x :: 0 <= i < 3 && 0 <= x < |rows| ==>
      tabs[i][x] == (if x < start then Black
                     else LabelColour(ControlLabel(Definitions[i], WhiteHouseParty(rows[x]), ThresholdHolding(rows[x]))))
  {
    seq(3, i requires 0 <= i < 3 =>
      seq(|rows|, x requires 0 <= x < |rows| => if x < start then Black else PassColour(Definitions[i], rows[x])))
  }
}
