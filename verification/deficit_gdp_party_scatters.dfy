/**
 * The seat-count cohort rule of the Democratic-seats scatter panels: a party
 * holds a chamber when it has at least half of its seats, and a year is split
 * exactly when the president's party does not hold every chamber the
 * definition looks at.
 */
module HalfSeatRule {
  import opened Wrappers
  import opened Seqs
  import opened Party
  import opened Cohorts

  /** The nine boolean masks of the scatter panels, with `x >= 0.5 * total` as `2 * x >= total`. */
  predicate InCohort(c: Control, k: Label, r: YearRecord)
  {
    var isRep := r.president == Republican;
    var isDem := r.president == Democrat;
    var s := r.senate;
    var h := r.house;
    match (c, k)
    case (Full, Rep) => isRep && 2 * s.rep >= s.total && 2 * h.rep >= h.total
    case (Full, Dem) => isDem && 2 * s.dem >= s.total && 2 * h.dem >= h.total
    case (Full, Split) =>
      (isRep && (2 * s.rep < s.total || 2 * h.rep < h.total)) ||
      (isDem && (2 * s.dem < s.total || 2 * h.dem < h.total))
    case (WhSenate, Rep) => isRep && 2 * s.rep >= s.total
    case (WhSenate, Dem) => isDem && 2 * s.dem >= s.total
    case (WhSenate, Split) => (isRep && 2 * s.rep < s.total) || (isDem && 2 * s.dem < s.total)
    case (WhHouse, Rep) => isRep && 2 * h.rep >= h.total
    case (WhHouse, Dem) => isDem && 2 * h.dem >= h.total
    case (WhHouse, Split) => (isRep && 2 * h.rep < h.total) || (isDem && 2 * h.dem < h.total)
  }

  /** Each party holds a chamber in which it has at least half of the seats. */
  function SeatHolding(r: YearRecord): Holding
  {
    Holding(AtLeastHalf(r.senate.rep, r.senate.total), AtLeastHalf(r.senate.dem, r.senate.total),
            AtLeastHalf(r.house.rep, r.house.total), AtLeastHalf(r.house.dem, r.house.total))
  }

  /**
   * The nine masks are the party-control rule read with seat counts: a year
   * gets label `k` exactly when its mask for `k` holds, for every record.
   */
  function Classify(c: Control, r: YearRecord): (l: Option<Label>)
    ensures !MajorParty(r) ==> l == None
    ensures forall k :: l == Some(k) <==> InCohort(c, k, r)
  {
    ControlLabel(c, r.president, SeatHolding(r))
  }

  /** Every Republican or Democratic year is in exactly one cohort of each definition, any other year in none. */
  lemma RowPartition(c: Control, r: YearRecord)
    ensures SplitsRow(InCohort, c, r)
  {
    var l := Classify(c, r);
  }

  /**
   * The three cohorts of any definition partition the Republican/Democratic
   * rows, and their sizes add up to that count.
   */
  lemma {:induction false} Partition(rows: seq<YearRecord>, c: Control)
    ensures PartitionedBy(rows, TripleFor(rows, InCohort, c))
  {
    forall r | r in rows
      ensures SplitsRow(InCohort, c, r)
    {
      RowPartition(c, r);
    }
    PartitionCounts(rows, InCohort, c);
  }

  /** No year is in both the Republican and the Democratic cohort of a definition. */
  lemma RepDemDisjoint(rows: seq<YearRecord>, c: Control)
    ensures forall r :: r in Cohort(rows, InCohort, c, Rep) ==> r !in Cohort(rows, InCohort, c, Dem)
  {
  }

  /**
   * A chamber split exactly in half counts as held by the president's party,
   * as the panel notes say ("at least half"): with both chambers tied the
   * president's party has full control.
   */
  lemma TieCountsAsHeld(r: YearRecord)
    requires MajorParty(r)
    requires 2 * r.senate.rep == r.senate.total && 2 * r.senate.dem == r.senate.total
    requires 2 * r.house.rep == r.house.total && 2 * r.house.dem == r.house.total
    ensures InCohort(Full, if r.president == Republican then Rep else Dem, r)
    ensures !InCohort(Full, Split, r)
  {
  }

  /** Full control by a party implies that party's Senate control and House control. */
  lemma FullNested(r: YearRecord)
    ensures InCohort(Full, Rep, r) ==> InCohort(WhSenate, Rep, r) && InCohort(WhHouse, Rep, r)
    ensures InCohort(Full, Dem, r) ==> InCohort(WhSenate, Dem, r) && InCohort(WhHouse, Dem, r)
  {}

  /**
   * `cntrl_cds_list`: each of the three triples, in the order
   * all, whsen, whhou, partitions the Republican/Democratic years.
   */
  lemma {:induction false} PanelsPartition(rows: seq<YearRecord>)
    ensures forall i :: 0 <= i < |CohortList(rows, InCohort)| ==> PartitionedBy(rows, CohortList(rows, InCohort)[i])
  {
    forall c: Control, r | r in rows
      ensures SplitsRow(InCohort, c, r)
    {
      RowPartition(c, r);
    }
    Cohorts.PanelsPartition(rows, InCohort);
  }
}
