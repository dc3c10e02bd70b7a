/**
 * The flag-based cohort rule used by the table script and the two
 * three-panel scripts: a chamber is Democratic when its `dem_*_maj` flag is 1
 * and Republican when it is 0.
 */
module FlagRule {
  import opened Wrappers
  import opened Seqs
  import opened Party
  import opened Cohorts

  /** The nine boolean masks, exactly as written in the scripts. */
  predicate InCohort(c: Control, k: Label, r: YearRecord)
  {
    var isRep := r.president == Republican;
    var isDem := r.president == Democrat;
    match (c, k)
    case (Full, Rep) => isRep && r.demSenateMaj == 0 && r.demHouseMaj == 0
    case (Full, Dem) => isDem && r.demSenateMaj == 1 && r.demHouseMaj == 1
    case (Full, Split) =>
      (isRep && (r.demSenateMaj == 1 || r.demHouseMaj == 1)) ||
      (isDem && (r.demSenateMaj == 0 || r.demHouseMaj == 0))
    case (WhSenate, Rep) => isRep && r.demSenateMaj == 0
    case (WhSenate, Dem) => isDem && r.demSenateMaj == 1
    case (WhSenate, Split) => (isRep && r.demSenateMaj == 1) || (isDem && r.demSenateMaj == 0)
    case (WhHouse, Rep) => isRep && r.demHouseMaj == 0
    case (WhHouse, Dem) => isDem && r.demHouseMaj == 1
    case (WhHouse, Split) => (isRep && r.demHouseMaj == 1) || (isDem && r.demHouseMaj == 0)
  }

  /** The flags read as chamber holdings: 0 is Republican, 1 is Democratic. */
  function FlagHolding(r: YearRecord): Holding
  {
    Holding(r.demSenateMaj == 0, r.demSenateMaj == 1, r.demHouseMaj == 0, r.demHouseMaj == 1)
  }

  /**
   * The nine masks agree with the single party-control rule whenever the
   * flags are 0/1; a president of neither party gets no label.
   */
  function Classify(c: Control, r: YearRecord): (l: Option<Label>)
    ensures !MajorParty(r) ==> l == None
    ensures FlagsBinary(r) ==> forall k :: l == Some(k) <==> InCohort(c, k, r)
  {
    ControlLabel(c, r.president, FlagHolding(r))
  }

  /** With 0/1 flags every Republican or Democratic year is in exactly one cohort of each definition. */
  lemma RowPartition(c: Control, r: YearRecord)
    requires FlagsBinary(r)
    ensures MajorParty(r) ==> ExactlyOne(InCohort(c, Rep, r), InCohort(c, Dem, r), InCohort(c, Split, r))
    ensures !MajorParty(r) ==> !InCohort(c, Rep, r) && !InCohort(c, Dem, r) && !InCohort(c, Split, r)
  {
    var l := Classify(c, r);
  }

  /** Full control by a party implies that party's Senate control and House control. */
  lemma FullNested(r: YearRecord)
    ensures InCohort(Full, Rep, r) ==> InCohort(WhSenate, Rep, r) && InCohort(WhHouse, Rep, r)
    ensures InCohort(Full, Dem, r) ==> InCohort(WhSenate, Dem, r) && InCohort(WhHouse, Dem, r)
  {}

  /**
   * With 0/1 flags the three cohorts of any definition partition the
   * Republican/Democratic rows, and their sizes add up to that count.
   */
  lemma {:induction false} Partition(rows: seq<YearRecord>, c: Control)
    requires forall r :: r in rows ==> FlagsBinary(r)
    ensures PartitionedBy(rows, TripleFor(rows, InCohort, c))
  {
    forall r | r in rows
      ensures SplitsRow(InCohort, c, r)
    {
      RowPartition(c, r);
    }
    PartitionCounts(rows, InCohort, c);
  }

  /** A year whose president is of neither party is in no cohort, whatever its flags. */
  lemma OtherPartyExcluded(rows: seq<YearRecord>, c: Control, k: Label)
    ensures forall r :: r in Cohort(rows, InCohort, c, k) ==> MajorParty(r)
  {}

  /**
   * `cntrl_cds_list`: with 0/1 flags each of the three triples, in the order
   * all, whsen, whhou, partitions the Republican/Democratic years.
   */
  lemma {:induction false} PanelsPartition(rows: seq<YearRecord>)
    requires forall r :: r in rows ==> FlagsBinary(r)
    ensures forall i :: 0 <= i < |CohortList(rows, InCohort)| ==> PartitionedBy(rows, CohortList(rows, InCohort)[i])
  {
    forall c: Control, r | r in rows
      ensures SplitsRow(InCohort, c, r)
    {
      RowPartition(c, r);
    }
    Cohorts.PanelsPartition(rows, InCohort);
  }
}
