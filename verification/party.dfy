/**
 * The yearly party-control record shared by the plotting scripts: one row of
 * the deficit/party data file.
 */
module Party {

  /** The `president_party` column: any text other than the two party names is `OtherParty`. */
  datatype PresidentParty = Republican | Democrat | OtherParty

  /** Seat counts of one chamber of Congress. */
  datatype Chamber = Chamber(dem: nat, rep: nat, other: nat, total: nat)

  /** The five fiscal columns, each a percentage of GDP. */
  datatype Fiscal = Fiscal(deficitGdp: real, receiptsGdp: real, spendIntGdp: real,
                           spendNonintGdp: real, spendTotGdp: real)

  /**
   * One year of data. `demWhitehouse`, `demSenateMaj` and `demHouseMaj` are the
   * 0/1 indicator columns; they are kept as integers because the scripts test
   * them with `== 0` and `== 1`.
   */
  datatype YearRecord = YearRecord(
    year: int,
    president: PresidentParty,
    demWhitehouse: int,
    senate: Chamber,
    house: Chamber,
    demSenateMaj: int,
    demHouseMaj: int,
    fiscal: Fiscal)

  /** The three definitions of party control: all branches, White House + Senate, White House + House. */
  datatype Control = Full | WhSenate | WhHouse

  /** The three cohorts a year can be assigned to. */
  datatype Label = Rep | Dem | Split

  /** The panel order `['all', 'whsen', 'whhou']` used for every cohort list. */
  const Definitions: seq<Control> := [Full, WhSenate, WhHouse]

  /** The order of cohorts inside each definition's triple. */
  const Labels: seq<Label> := [Rep, Dem, Split]

  /** The column names of the deficit/party data file; any other name is a `KeyError`. */
  const PartyColumns: set<string> := {
    "year", "deficit_gdp", "receipts_gdp", "spend_int_gdp", "spend_nonint_gdp", "spend_tot_gdp",
    "president", "president_party", "congress_number", "congress_session", "dem_whitehouse",
    "dem_senateseats", "rep_senateseats", "other_senateseats", "dem_senate_maj", "total_senateseats",
    "dem_houseseats", "rep_houseseats", "other_houseseats", "dem_house_maj", "total_houseseats"}

  /** The columns holding text; every other column of the file holds numbers. */
  const TextColumns: set<string> := {"president", "president_party"}

  /**
   * `max - min` of a column over a window raises `TypeError` when the column
   * holds text and the window has a row (over no rows both ends are NaN).
   */
  predicate SpreadFails(window: seq<YearRecord>, column: string)
  {
    column in TextColumns && |window| > 0
  }

  function YearOf(r: YearRecord): int { r.year }

  /** Reads the `president_party` text. */
  function ParseParty(s: string): (p: PresidentParty)
    ensures p == Republican <==> s == "Republican"
    ensures p == Democrat <==> s == "Democrat"
  {
    if s == "Republican" then Republican
    else if s == "Democrat" then Democrat
    else OtherParty
  }

  /** The president belongs to one of the two parties the cohorts are about. */
  predicate MajorParty(r: YearRecord)
  {
    r.president == Republican || r.president == Democrat
  }

  /** Both majority flags hold 0 or 1. */
  predicate FlagsBinary(r: YearRecord)
  {
    (r.demSenateMaj == 0 || r.demSenateMaj == 1) && (r.demHouseMaj == 0 || r.demHouseMaj == 1)
  }

  /** `seats >= 0.5 * total`, stated on integers. */
  predicate AtLeastHalf(seats: nat, total: nat)
  {
    2 * seats >= total
  }

  /** The seat counts of the chamber add up to its total. */
  predicate Balanced(c: Chamber)
  {
    c.dem + c.rep + c.other == c.total
  }
}
