/**
 * Cohorts: the order-preserving sub-tables a script builds for each control
 * definition and label, whatever per-row rule it uses.
 */
module Cohorts {
  import opened Seqs
  import opened Party
  import opened Wrappers

  /** Which party a script's rule deems to hold each chamber. */
  datatype Holding = Holding(repSenate: bool, demSenate: bool, repHouse: bool, demHouse: bool)

  /**
   * The party-control rule the plot notes describe: the president's party
   * controls when it holds every chamber the definition looks at, otherwise
   * the year is split; a president of another party gets no label.
   */
  function ControlLabel(c: Control, p: PresidentParty, h: Holding): Option<Label>
  {
    match p
    case Republican =>
      if (c == WhHouse || h.repSenate) && (c == WhSenate || h.repHouse) then Some(Rep) else Some(Split)
    case Democrat =>
      if (c == WhHouse || h.demSenate) && (c == WhSenate || h.demHouse) then Some(Dem) else Some(Split)
    case OtherParty => None
  }

  /** A per-row cohort rule: does this year belong to label `k` under definition `c`? */
  type Rule = (Control, Label, YearRecord) -> bool

  function Member(cls: Rule, c: Control, k: Label): YearRecord -> bool
  {
    r => cls(c, k, r)
  }

  /** `df[mask]` for one definition and label: the matching rows, in order. */
  function Cohort(rows: seq<YearRecord>, cls: Rule, c: Control, k: Label): (r: seq<YearRecord>)
    ensures Subseq(r, rows)
    ensures forall x :: x in r ==> x in rows && cls(c, k, x)
    ensures forall i :: 0 <= i < |rows| && cls(c, k, rows[i]) ==> rows[i] in r
  {
    Filter(rows, Member(cls, c, k))
  }

  /** The (Republican, Democrat, Split) cohorts of one definition. */
  datatype Triple = Triple(rep: seq<YearRecord>, dem: seq<YearRecord>, split: seq<YearRecord>)

  function TripleFor(rows: seq<YearRecord>, cls: Rule, c: Control): Triple
  {
    Triple(Cohort(rows, cls, c, Rep), Cohort(rows, cls, c, Dem), Cohort(rows, cls, c, Split))
  }

  /** The cohort a triple holds for a label. */
  function Pick(t: Triple, k: Label): seq<YearRecord>
  {
    match k
    case Rep => t.rep
    case Dem => t.dem
    case Split => t.split
  }

  /**
   * `cntrl_cds_list`: one triple per definition in the panel order
   * all, whsen, whhou, each ordered Republican, Democrat, Split.
   */
  function CohortList(rows: seq<YearRecord>, cls: Rule): (t: seq<Triple>)
    ensures |t| == |Definitions|
    ensures forall k, j :: 0 <= k < |Definitions| && 0 <= j < |Labels| ==>
      Pick(t[k], Labels[j]) == Cohort(rows, cls, Definitions[k], Labels[j])
  {
    [TripleFor(rows, cls, Full), TripleFor(rows, cls, WhSenate), TripleFor(rows, cls, WhHouse)]
  }

  /**
   * The rule splits a row: a Republican or Democratic year satisfies exactly
   * one label, any other year none.
   */
  predicate SplitsRow(cls: Rule, c: Control, r: YearRecord)
  {
    if MajorParty(r) then ExactlyOne(cls(c, Rep, r), cls(c, Dem, r), cls(c, Split, r))
    else !cls(c, Rep, r) && !cls(c, Dem, r) && !cls(c, Split, r)
  }

  /**
   * When the rule splits every row, the three cohorts partition the
   * Republican/Democratic rows: each such row is in exactly one, other rows
   * in none, and the cohort sizes add up.
   */
  lemma {:induction false} PartitionCounts(rows: seq<YearRecord>, cls: Rule, c: Control)
    requires forall r :: r in rows ==> SplitsRow(cls, c, r)
    ensures |Cohort(rows, cls, c, Rep)| + |Cohort(rows, cls, c, Dem)| + |Cohort(rows, cls, c, Split)|
            == |Filter(rows, MajorParty)|
    ensures forall r :: r in rows && MajorParty(r) ==>
      ExactlyOne(r in Cohort(rows, cls, c, Rep), r in Cohort(rows, cls, c, Dem), r in Cohort(rows, cls, c, Split))
    ensures forall r :: r in rows && !MajorParty(r) ==>
      r !in Cohort(rows, cls, c, Rep) && r !in Cohort(rows, cls, c, Dem) && r !in Cohort(rows, cls, c, Split)
  {
    PartitionCount(rows, MajorParty, Member(cls, c, Rep), Member(cls, c, Dem), Member(cls, c, Split));
    forall r | r in rows
      ensures r in Cohort(rows, cls, c, Rep) <==> cls(c, Rep, r)
      ensures r in Cohort(rows, cls, c, Dem) <==> cls(c, Dem, r)
      ensures r in Cohort(rows, cls, c, Split) <==> cls(c, Split, r)
    {
      var i :| 0 <= i < |rows| && rows[i] == r;
    }
  }

  /**
   * A triple partitions the Republican/Democratic rows: each such row is in
   * exactly one of its cohorts, every other row in none, and the cohort
   * sizes add up to the number of such rows.
   */
  predicate PartitionedBy(rows: seq<YearRecord>, t: Triple)
  {
    (forall r :: r in rows && MajorParty(r) ==> ExactlyOne(r in t.rep, r in t.dem, r in t.split)) &&
    (forall r :: r in rows && !MajorParty(r) ==> r !in t.rep && r !in t.dem && r !in t.split) &&
    |t.rep| + |t.dem| + |t.split| == |Filter(rows, MajorParty)|
  }

  /**
   * `cntrl_cds_list` under a rule that splits every row under every
   * definition: each of the three panel triples partitions the
   * Republican/Democratic rows.
   */
  lemma {:induction false} PanelsPartition(rows: seq<YearRecord>, cls: Rule)
    requires forall c: Control, r :: r in rows ==> SplitsRow(cls, c, r)
    ensures forall i :: 0 <= i < |CohortList(rows, cls)| ==> PartitionedBy(rows, CohortList(rows, cls)[i])
  {
    var t := CohortList(rows, cls);
    forall c: Control
      ensures PartitionedBy(rows, TripleFor(rows, cls, c))
    {
      PartitionCounts(rows, cls, c);
    }
    assert t[0] == TripleFor(rows, cls, Full);
    assert t[1] == TripleFor(rows, cls, WhSenate);
    assert t[2] == TripleFor(rows, cls, WhHouse);
  }

  /**
   * When a rule puts every fully controlled year in the same party's Senate
   * and House cohorts, the full-control cohort is an order-preserving
   * subsequence of both.
   */
  lemma CohortsNested(rows: seq<YearRecord>, cls: Rule, k: Label)
    requires forall r :: cls(Full, k, r) ==> cls(WhSenate, k, r) && cls(WhHouse, k, r)
    ensures Subseq(Cohort(rows, cls, Full, k), Cohort(rows, cls, WhSenate, k))
    ensures Subseq(Cohort(rows, cls, Full, k), Cohort(rows, cls, WhHouse, k))
  {
    assert forall x :: Member(cls, Full, k)(x) ==> Member(cls, WhSenate, k)(x);
    assert forall x :: Member(cls, Full, k)(x) ==> Member(cls, WhHouse, k)(x);
    FilterMonotone(rows, Member(cls, Full, k), Member(cls, WhSenate, k));
    FilterMonotone(rows, Member(cls, Full, k), Member(cls, WhHouse, k));
  }
}
