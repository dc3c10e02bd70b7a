/**
 * The party-control table: cohort sizes for the three definitions of control
 * over 1947-2020 and over 1947-2021, where the 2021 row carries budget
 * forecast values written over the data.
 */
module PartyTable {
  import opened Wrappers
  import opened Seqs
  import opened Party
  import opened Cohorts
  import opened Windows
  import FlagRule

  /** The fiscal values written over the last row of the 1947-2021 window. */
  const Forecast2021: Fiscal := Fiscal(-13.406, 17.15, 1.477, 21.703 + 7.377, 1.477 + 21.703 + 7.377)

  /** `df_20`: the rows from 1947 through 2020. */
  function Window20(rows: seq<YearRecord>): seq<YearRecord>
  {
    YearWindow(rows, YearOf, At(1947), At(2020))
  }

  /** `df_21` before the override: the rows from 1947 through 2021. */
  function Window21(rows: seq<YearRecord>): seq<YearRecord>
  {
    YearWindow(rows, YearOf, At(1947), At(2021))
  }

  function UpTo2020(r: YearRecord): bool { r.year <= 2020 }

  /** The 1947-2020 window is the 1947-2021 window without its 2021 rows, in the same order. */
  lemma Window20InWindow21(rows: seq<YearRecord>)
    ensures Window20(rows) == Filter(Window21(rows), UpTo2020)
    ensures Subseq(Window20(rows), Window21(rows))
  {
    forall x
      ensures Within(YearOf, At(1947), At(2020))(x) == (Within(YearOf, At(1947), At(2021))(x) && UpTo2020(x))
    {
      assert YearOf(x) == x.year;
    }
    FilterFilter(rows, Within(YearOf, At(1947), At(2021)), UpTo2020, Within(YearOf, At(1947), At(2020)));
  }

  /** Two records that agree on everything but the fiscal values. */
  predicate SameParty(a: YearRecord, b: YearRecord)
  {
    a.(fiscal := b.fiscal) == b
  }

  /**
   * The five `.iloc[-1]` assignments: the last row's fiscal values become the
   * forecast; every other row, and every party field, is left alone. An empty
   * window has no last row.
   */
  function Override(df: seq<YearRecord>): (r: Result<seq<YearRecord>>)
    ensures r.Err? <==> |df| == 0
    ensures r.Err? ==> r.error == IndexError
    ensures r.Ok? ==> |r.value| == |df| && r.value[|df| - 1].fiscal == Forecast2021
    ensures r.Ok? ==> forall i :: 0 <= i < |df| - 1 ==> r.value[i] == df[i]
    ensures r.Ok? ==> forall i :: 0 <= i < |df| ==> SameParty(r.value[i], df[i])
  {
    if |df| == 0 then Err(IndexError)
    else Ok(df[|df| - 1 := df[|df| - 1].(fiscal := Forecast2021)])
  }

  /** The `count()` of each cohort of one definition. */
  datatype Counts = Counts(rep: nat, dem: nat, split: nat)

  function CountsFor(df: seq<YearRecord>, c: Control): Counts
  {
    Counts(|Cohort(df, FlagRule.InCohort, c, Rep)|, |Cohort(df, FlagRule.InCohort, c, Dem)|,
           |Cohort(df, FlagRule.InCohort, c, Split)|)
  }

  /** With 0/1 flags the three counts of a definition add up to the Republican/Democratic years. */
  lemma CountsSum(df: seq<YearRecord>, c: Control)
    requires forall r :: r in df ==> FlagsBinary(r)
    ensures CountsFor(df, c).rep + CountsFor(df, c).dem + CountsFor(df, c).split == |Filter(df, MajorParty)|
  {
    FlagRule.Partition(df, c);
  }

  /** The `N=` line of each table column: counts per definition, in the order all, whsen, whhou. */
  function CountRow(df: seq<YearRecord>): (t: seq<Counts>)
    ensures |t| == 3
    ensures (forall r :: r in df ==> FlagsBinary(r)) ==>
      forall i :: 0 <= i < 3 ==> t[i].rep + t[i].dem + t[i].split == |Filter(df, MajorParty)|
  {
    var t := [CountsFor(df, Full), CountsFor(df, WhSenate), CountsFor(df, WhHouse)];
    RowSums(df, t);
    t
  }

  /** Each entry of the count row adds up to the Republican/Democratic years when the flags are 0/1. */
  lemma RowSums(df: seq<YearRecord>, t: seq<Counts>)
    requires t == [CountsFor(df, Full), CountsFor(df, WhSenate), CountsFor(df, WhHouse)]
    ensures (forall r :: r in df ==> FlagsBinary(r)) ==>
      forall i :: 0 <= i < 3 ==> t[i].rep + t[i].dem + t[i].split == |Filter(df, MajorParty)|
  {
    if forall r :: r in df ==> FlagsBinary(r) {
      forall i | 0 <= i < 3
        ensures t[i].rep + t[i].dem + t[i].split == |Filter(df, MajorParty)|
      {
        var c := if i == 0 then Full else if i == 1 then WhSenate else WhHouse;
        assert t[i] == CountsFor(df, c);
        CountsSum(df, c);
      }
    }
  }

  /** Rewriting fiscal values changes no cohort's size. */
  lemma CountsIgnoreFiscal(a: seq<YearRecord>, b: seq<YearRecord>)
    requires |a| == |b| && forall i :: 0 <= i < |a| ==> SameParty(a[i], b[i])
    ensures CountRow(a) == CountRow(b)
  {
    forall c
      ensures CountsFor(a, c) == CountsFor(b, c)
    {
      SameCohortSize(a, b, c, Rep);
      SameCohortSize(a, b, c, Dem);
      SameCohortSize(a, b, c, Split);
    }
  }

  /** Records that agree on their party fields fall in the same cohorts. */
  lemma SameCohortSize(a: seq<YearRecord>, b: seq<YearRecord>, c: Control, k: Label)
    requires |a| == |b| && forall i :: 0 <= i < |a| ==> SameParty(a[i], b[i])
    ensures |Cohort(a, FlagRule.InCohort, c, k)| == |Cohort(b, FlagRule.InCohort, c, k)|
  {
    var p := Member(FlagRule.InCohort, c, k);
    forall i | 0 <= i < |a|
      ensures p(a[i]) == p(b[i])
    {
      assert a[i].president == b[i].president;
      assert a[i].demSenateMaj == b[i].demSenateMaj && a[i].demHouseMaj == b[i].demHouseMaj;
      assert p(a[i]) == FlagRule.InCohort(c, k, a[i]) && p(b[i]) == FlagRule.InCohort(c, k, b[i]);
    }
    FilterSameLength(a, b, p, p);
  }

  /** The two halves of the table. */
  datatype Table = Table(counts20: seq<Counts>, counts21: seq<Counts>)

  /**
   * The table's cohort sizes. The forecast override fails on an empty
   * 1947-2021 window; otherwise the 1947-2021 counts are those of the data as
   * read (the override touches no party field) and each column adds up to
   * the Republican/Democratic years of its window.
   */
  function CountTable(rows: seq<YearRecord>): (t: Result<Table>)
    ensures t.Err? <==> |Window21(rows)| == 0
    ensures t.Ok? ==> t.value.counts20 == CountRow(Window20(rows))
    ensures t.Ok? ==> t.value.counts21 == CountRow(Window21(rows))
    ensures t.Ok? && (forall r :: r in rows ==> FlagsBinary(r)) ==>
      forall i :: 0 <= i < 3 ==>
        t.value.counts21[i].rep + t.value.counts21[i].dem + t.value.counts21[i].split
          == |Filter(Window21(rows), MajorParty)|
  {
    match Override(Window21(rows))
    case Err(e) => Err(e)
    case Ok(df21) =>
      CountsIgnoreFiscal(df21, Window21(rows));
      Ok(Table(CountRow(Window20(rows)), CountRow(df21)))
  }
}
