/**
 * The cohort masks of the single-panel deficit time series. Republican and
 * Democratic control use the "at least half" seat test, but a year is
 * counted as split when the OTHER party holds at least half of a chamber,
 * which is not the complement of control: a tied chamber puts a year in two
 * cohorts, and third-party seats can leave a year in none.
 */
module OtherHalfRule {
  import opened Wrappers
  import opened Seqs
  import opened Party
  import opened Cohorts
  import opened Windows
  import opened Recessions
  import HalfSeatRule

  /** The nine masks as the time-series script writes them. */
  predicate InCohort(c: Control, k: Label, r: YearRecord)
  {
    var isRep := r.president == Republican;
    var isDem := r.president == Democrat;
    var s := r.senate;
    var h := r.house;
    match (c, k)
    case (Full, Rep) => isRep && 2 * s.rep >= s.total && 2 * h.rep >= h.total
    case (Full, Dem) => isDem && 2 * s.dem >= s.total && 2 * h.dem >= h.total
    case (Full, Split) =>
      (isRep && (2 * s.dem >= s.total || 2 * h.dem >= h.total)) ||
      (isDem && (2 * s.rep >= s.total || 2 * h.rep >= h.total))
    case (WhSenate, Rep) => isRep && 2 * s.rep >= s.total
    case (WhSenate, Dem) => isDem && 2 * s.dem >= s.total
    case (WhSenate, Split) => (isRep && 2 * s.dem >= s.total) || (isDem && 2 * s.rep >= s.total)
    case (WhHouse, Rep) => isRep && 2 * h.rep >= h.total
    case (WhHouse, Dem) => isDem && 2 * h.dem >= h.total
    case (WhHouse, Split) => (isRep && 2 * h.dem >= h.total) || (isDem && 2 * h.rep >= h.total)
  }

  /** The chambers a definition looks at. */
  predicate Looks(c: Control, senate: bool)
  {
    if senate then c != WhHouse else c != WhSenate
  }

  /** Republican and Democratic cohorts never share a year. */
  lemma RepDemDisjoint(rows: seq<YearRecord>, c: Control)
    ensures forall r :: r in Cohort(rows, InCohort, c, Rep) ==> r !in Cohort(rows, InCohort, c, Dem)
  {
  }

  /**
   * When seat counts add up, a year lands in both the president's cohort and
   * the Split cohort only if a chamber the definition looks at is tied
   * exactly half and half with no third-party seats.
   */
  lemma OverlapOnlyOnTie(c: Control, r: YearRecord)
    requires Balanced(r.senate) && Balanced(r.house)
    requires InCohort(c, Rep, r) || InCohort(c, Dem, r)
    requires InCohort(c, Split, r)
    ensures (Looks(c, true) && 2 * r.senate.rep == r.senate.total && 2 * r.senate.dem == r.senate.total) ||
            (Looks(c, false) && 2 * r.house.rep == r.house.total && 2 * r.house.dem == r.house.total)
  {
  }

  /** Without third-party seats every Republican/Democratic year is in some cohort. */
  lemma CoveredWithoutThirdParty(c: Control, r: YearRecord)
    requires Balanced(r.senate) && Balanced(r.house)
    requires r.senate.other == 0 && r.house.other == 0
    requires MajorParty(r)
    ensures InCohort(c, Rep, r) || InCohort(c, Dem, r) || InCohort(c, Split, r)
  {
  }

  /**
   * Away from ties and third-party seats the masks agree with the
   * complementary rule of the scatter panels.
   */
  lemma AgreesWithHalfSeatRule(c: Control, k: Label, r: YearRecord)
    requires Balanced(r.senate) && Balanced(r.house)
    requires r.senate.other == 0 && r.house.other == 0
    requires 2 * r.senate.rep != r.senate.total && 2 * r.house.rep != r.house.total
    ensures InCohort(c, k, r) <==> HalfSeatRule.InCohort(c, k, r)
  {
  }

  /** A 2001-style year: Republican president, a 50-50 Senate and a 217-217 House. */
  function TiedYear(): YearRecord
  {
    YearRecord(2001, Republican, 0, Chamber(50, 50, 0, 100), Chamber(217, 217, 0, 434), 0, 0,
               Fiscal(0.0, 0.0, 0.0, 0.0, 0.0))
  }

  /** A year with third-party seats in which neither party reaches half of either chamber. */
  function ThirdPartyYear(): YearRecord
  {
    YearRecord(1931, Republican, 0, Chamber(48, 49, 3, 100), Chamber(215, 217, 3, 435), 0, 0,
               Fiscal(0.0, 0.0, 0.0, 0.0, 0.0))
  }

  /**
   * The masks are not a partition under any definition: some consistent
   * year is both Republican-controlled and split.
   */
  lemma OverlapExists(c: Control)
    ensures exists r :: (MajorParty(r) && Balanced(r.senate) && Balanced(r.house) &&
                         InCohort(c, Rep, r) && InCohort(c, Split, r))
  {
    var r := TiedYear();
    assert MajorParty(r) && Balanced(r.senate) && Balanced(r.house) && InCohort(c, Rep, r) && InCohort(c, Split, r);
  }

  /** Some consistent Republican year is in none of a definition's three cohorts. */
  lemma GapExists(c: Control)
    ensures exists r :: (MajorParty(r) && Balanced(r.senate) && Balanced(r.house) &&
                         !InCohort(c, Rep, r) && !InCohort(c, Dem, r) && !InCohort(c, Split, r))
  {
    var r := ThirdPartyYear();
    assert MajorParty(r) && Balanced(r.senate) && Balanced(r.house);
    assert !InCohort(c, Rep, r) && !InCohort(c, Dem, r) && !InCohort(c, Split, r);
  }

  /**
   * The split cohort as written double-counts tied years: for the tied year
   * the Republican and Split counts add up to two although there is one year.
   */
  lemma OverlapInflatesCounts()
    ensures |Cohort([TiedYear()], InCohort, Full, Rep)| + |Cohort([TiedYear()], InCohort, Full, Dem)|
            + |Cohort([TiedYear()], InCohort, Full, Split)| == 2
    ensures |Filter([TiedYear()], MajorParty)| == 1
  {
    var r := TiedYear();
    assert InCohort(Full, Rep, r) && !InCohort(Full, Dem, r) && InCohort(Full, Split, r);
    assert Cohort([r], InCohort, Full, Rep) == [r];
    assert Cohort([r], InCohort, Full, Split) == [r];
    assert Cohort([r], InCohort, Full, Dem) == [];
    assert Filter([r], MajorParty) == [r];
  }

  /**
   * The masks as written fail the partition the corrected panels keep: with
   * the tied year as the only row, no definition's triple partitions it.
   */
  lemma AsWrittenNotPartitioned(c: Control)
    ensures !PartitionedBy([TiedYear()], TripleFor([TiedYear()], InCohort, c))
  {
    var r := TiedYear();
    assert r in [r];
    assert InCohort(c, Rep, r) && InCohort(c, Split, r);
    assert r in Cohort([r], InCohort, c, Rep) && r in Cohort([r], InCohort, c, Split);
  }

  /**
   * What the script draws, with the split cohort corrected to the complement
   * of control: one figure whose circles are the full-control cohorts of the
   * whole data set, and the recession bars from the earliest year of the
   * data on.
   */
  datatype Plot = Plot(circles: Triple, bars: seq<Patch>)

  /**
   * The nine cohorts the script builds, one triple per definition, under the
   * corrected rule: the masks of the complementary seat rule, and each triple
   * a partition of the Republican/Democratic years. Only the first triple is
   * drawn (see `TseriesPlot`).
   */
  function Panels(rows: seq<YearRecord>): (ts: seq<Triple>)
    ensures ts == CohortList(rows, HalfSeatRule.InCohort)
    ensures |ts| == 3 && forall i :: 0 <= i < 3 ==> PartitionedBy(rows, ts[i])
  {
    HalfSeatRule.PanelsPartition(rows);
    CohortList(rows, HalfSeatRule.InCohort)
  }

  /**
   * The corrected figure: circles from the full-control triple only, which
   * partitions the Republican/Democratic years, and a recession bar exactly
   * for the recessions some data year precedes.
   */
  function TseriesPlot(rows: seq<YearRecord>, recs: seq<Recession>): (p: Plot)
    ensures p.circles == Panels(rows)[0] == TripleFor(rows, HalfSeatRule.InCohort, Full)
    ensures PartitionedBy(rows, p.circles)
    ensures forall rec :: rec in recs && StartsInData(rows, YearOf, rec) ==> Patch(rec.peak, rec.trough) in p.bars
    ensures forall b :: b in p.bars ==> exists rec :: (rec in recs && StartsInData(rows, YearOf, rec) &&
      (b == Patch(rec.peak, rec.trough) || b == Patch(rec.peak, rec.peak + 1)))
  {
    Plot(Panels(rows)[0], DataBars(rows, YearOf, recs))
  }
}
