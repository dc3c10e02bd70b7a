/**
 * The grey recession bars of the time-series plots: one bar per recession
 * inside the plotted years, and an extra one-year-wide bar for a recession
 * that starts and ends in the same year.
 */
module Recessions {
  import opened Wrappers
  import opened Seqs
  import opened Windows

  /** The years of a recession's `Peak` and `Trough` dates. */
  datatype Recession = Recession(peak: int, trough: int)

  /** The horizontal extent of one grey patch. */
  datatype Patch = Patch(left: int, right: int)

  /** Both years at or after `min_year` (false when `min_year` is NaN). */
  predicate Eligible(minYear: Option<int>, rec: Recession)
  {
    minYear.Some? && rec.peak >= minYear.value && rec.trough >= minYear.value
  }

  function EligibleMask(minYear: Option<int>): Recession -> bool
  {
    rec => Eligible(minYear, rec)
  }

  function SameYearMask(minYear: Option<int>): Recession -> bool
  {
    rec => Eligible(minYear, rec) && rec.peak == rec.trough
  }

  /** The patches one pass of the loop body draws. */
  function PatchesFor(minYear: Option<int>, rec: Recession): (ps: seq<Patch>)
    ensures |ps| == (if !Eligible(minYear, rec) then 0 else if rec.peak == rec.trough then 2 else 1)
    ensures Eligible(minYear, rec) ==> ps[0] == Patch(rec.peak, rec.trough)
    ensures Eligible(minYear, rec) && rec.peak == rec.trough ==> ps[1] == Patch(rec.peak, rec.peak + 1)
  {
    (if Eligible(minYear, rec) then [Patch(rec.peak, rec.trough)] else []) +
    (if rec.peak == rec.trough && Eligible(minYear, rec) then [Patch(rec.peak, rec.trough + 1)] else [])
  }

  /** A patch the loop may draw for `rec`. */
  predicate DrawnFor(minYear: Option<int>, rec: Recession, p: Patch)
  {
    Eligible(minYear, rec) &&
    (p == Patch(rec.peak, rec.trough) || (rec.peak == rec.trough && p == Patch(rec.peak, rec.peak + 1)))
  }

  /**
   * The whole `for x in range(recession_data_length)` loop: every eligible
   * recession gets its [peak, trough] patch, a same-year one also its
   * [year, year+1] patch, and nothing else is drawn.
   */
  function Bars(minYear: Option<int>, recs: seq<Recession>): (ps: seq<Patch>)
    ensures |ps| == |Filter(recs, EligibleMask(minYear))| + |Filter(recs, SameYearMask(minYear))|
    ensures forall rec :: rec in recs && Eligible(minYear, rec) ==> Patch(rec.peak, rec.trough) in ps
    ensures forall rec :: rec in recs && Eligible(minYear, rec) && rec.peak == rec.trough ==>
      Patch(rec.peak, rec.peak + 1) in ps
    ensures forall p :: p in ps ==> exists rec :: rec in recs && DrawnFor(minYear, rec, p)
  {
    if |recs| == 0 then []
    else
      var here := PatchesFor(minYear, recs[0]);
      var rest := Bars(minYear, recs[1..]);
      assert |Filter(recs, EligibleMask(minYear))| ==
        (if Eligible(minYear, recs[0]) then 1 else 0) + |Filter(recs[1..], EligibleMask(minYear))|;
      assert |Filter(recs, SameYearMask(minYear))| ==
        (if Eligible(minYear, recs[0]) && recs[0].peak == recs[0].trough then 1 else 0) +
        |Filter(recs[1..], SameYearMask(minYear))|;
      BarsStep(minYear, recs, here, rest);
      here + rest
  }

  /** An element of a non-empty sequence is its head or lies in its tail. */
  lemma HeadOrTail<T>(s: seq<T>, x: T)
    requires x in s
    ensures x == s[0] || x in s[1..]
  {
    var i :| 0 <= i < |s| && s[i] == x;
    if i > 0 { assert s[1..][i - 1] == x; }
  }

  /** The membership half of `Bars`' contract, one step of the loop at a time. */
  lemma BarsStep(minYear: Option<int>, recs: seq<Recession>, here: seq<Patch>, rest: seq<Patch>)
    requires |recs| > 0 && here == PatchesFor(minYear, recs[0])
    requires forall rec :: rec in recs[1..] && Eligible(minYear, rec) ==> Patch(rec.peak, rec.trough) in rest
    requires forall rec :: rec in recs[1..] && Eligible(minYear, rec) && rec.peak == rec.trough ==>
      Patch(rec.peak, rec.peak + 1) in rest
    requires forall p :: p in rest ==> exists rec :: rec in recs[1..] && DrawnFor(minYear, rec, p)
    ensures forall rec :: rec in recs && Eligible(minYear, rec) ==> Patch(rec.peak, rec.trough) in here + rest
    ensures forall rec :: rec in recs && Eligible(minYear, rec) && rec.peak == rec.trough ==>
      Patch(rec.peak, rec.peak + 1) in here + rest
    ensures forall p :: p in here + rest ==> exists rec :: rec in recs && DrawnFor(minYear, rec, p)
  {
    BarsCover(minYear, recs, here, rest);
    BarsOrigin(minYear, recs, here, rest);
  }

  /** One more loop step keeps every eligible recession's patches drawn. */
  lemma {:induction false} BarsCover(minYear: Option<int>, recs: seq<Recession>, here: seq<Patch>, rest: seq<Patch>)
    requires |recs| > 0 && here == PatchesFor(minYear, recs[0])
    requires forall rec :: rec in recs[1..] && Eligible(minYear, rec) ==> Patch(rec.peak, rec.trough) in rest
    requires forall rec :: rec in recs[1..] && Eligible(minYear, rec) && rec.peak == rec.trough ==>
      Patch(rec.peak, rec.peak + 1) in rest
    ensures forall rec :: rec in recs && Eligible(minYear, rec) ==> Patch(rec.peak, rec.trough) in here + rest
    ensures forall rec :: rec in recs && Eligible(minYear, rec) && rec.peak == rec.trough ==>
      Patch(rec.peak, rec.peak + 1) in here + rest
  {
    forall rec | rec in recs && Eligible(minYear, rec)
      ensures Patch(rec.peak, rec.trough) in here + rest
      ensures rec.peak == rec.trough ==> Patch(rec.peak, rec.peak + 1) in here + rest
    {
      HeadOrTail(recs, rec);
      if rec == recs[0] {
        assert (here + rest)[0] == Patch(rec.peak, rec.trough);
        if rec.peak == rec.trough {
          assert (here + rest)[1] == Patch(rec.peak, rec.peak + 1);
        }
      } else {
        InRight(here, rest, Patch(rec.peak, rec.trough));
        if rec.peak == rec.trough {
          InRight(here, rest, Patch(rec.peak, rec.peak + 1));
        }
      }
    }
  }

  lemma InRight<T>(a: seq<T>, b: seq<T>, x: T)
    requires x in b
    ensures x in a + b
  {
    var j :| 0 <= j < |b| && b[j] == x;
    assert (a + b)[|a| + j] == x;
  }

  /** Every patch of one more loop step comes from a recession that may draw it. */
  lemma BarsOrigin(minYear: Option<int>, recs: seq<Recession>, here: seq<Patch>, rest: seq<Patch>)
    requires |recs| > 0 && here == PatchesFor(minYear, recs[0])
    requires forall p :: p in rest ==> exists rec :: rec in recs[1..] && DrawnFor(minYear, rec, p)
    ensures forall p :: p in here + rest ==> exists rec :: rec in recs && DrawnFor(minYear, rec, p)
  {
    forall p | p in here + rest
      ensures exists rec :: rec in recs && DrawnFor(minYear, rec, p)
    {
      if p in here {
        assert recs[0] in recs && DrawnFor(minYear, recs[0], p);
      } else {
        var rec :| rec in recs[1..] && DrawnFor(minYear, rec, p);
        assert rec in recs;
      }
    }
  }

  /** Some data year is at or before both years of the recession. */
  predicate StartsInData<T>(rows: seq<T>, yearOf: T -> int, rec: Recession)
  {
    exists i :: 0 <= i < |rows| && yearOf(rows[i]) <= rec.peak && yearOf(rows[i]) <= rec.trough
  }

  /**
   * The recession loop of the single-panel scripts, with `min_year` the
   * earliest year of the data: a recession is drawn exactly when some data
   * year is at or before both of its years, and nothing is drawn for empty data.
   */
  function DataBars<T>(rows: seq<T>, yearOf: T -> int, recs: seq<Recession>): (ps: seq<Patch>)
    ensures forall rec :: rec in recs && StartsInData(rows, yearOf, rec) ==> Patch(rec.peak, rec.trough) in ps
    ensures forall rec :: rec in recs && StartsInData(rows, yearOf, rec) && rec.peak == rec.trough ==>
      Patch(rec.peak, rec.peak + 1) in ps
    ensures forall p :: p in ps ==> exists rec :: (rec in recs && StartsInData(rows, yearOf, rec) &&
      (p == Patch(rec.peak, rec.trough) || p == Patch(rec.peak, rec.peak + 1)))
  {
    var minYear := MinOf(Map(rows, yearOf));
    var ps := Bars(minYear, recs);
    forall rec | rec in recs && StartsInData(rows, yearOf, rec)
      ensures Patch(rec.peak, rec.trough) in ps
      ensures rec.peak == rec.trough ==> Patch(rec.peak, rec.peak + 1) in ps
    {
      EarliestYear(rows, yearOf, rec);
    }
    forall p | p in ps
      ensures exists rec :: (rec in recs && StartsInData(rows, yearOf, rec) &&
        (p == Patch(rec.peak, rec.trough) || p == Patch(rec.peak, rec.peak + 1)))
    {
      var rec :| rec in recs && DrawnFor(minYear, rec, p);
      EarliestYear(rows, yearOf, rec);
    }
    ps
  }

  /** Both years are at or after the earliest data year exactly when some data year precedes both. */
  lemma {:induction false} EarliestYear<T>(rows: seq<T>, yearOf: T -> int, rec: Recession)
    ensures Eligible(MinOf(Map(rows, yearOf)), rec) <==> StartsInData(rows, yearOf, rec)
  {
    var minYear := MinOf(Map(rows, yearOf));
    if Eligible(minYear, rec) {
      var i :| 0 <= i < |Map(rows, yearOf)| && Map(rows, yearOf)[i] == minYear.value;
      assert yearOf(rows[i]) == minYear.value;
    }
    if StartsInData(rows, yearOf, rec) {
      var i :| 0 <= i < |rows| && yearOf(rows[i]) <= rec.peak && yearOf(rows[i]) <= rec.trough;
      assert Map(rows, yearOf)[i] == yearOf(rows[i]);
    }
  }

  /**
   * The recession loop with an explicit `min_year`: a recession is drawn
   * exactly when both of its years are at or after it.
   */
  function StartBars(minYear: int, recs: seq<Recession>): (ps: seq<Patch>)
    ensures forall rec :: rec in recs && rec.peak >= minYear && rec.trough >= minYear ==>
      Patch(rec.peak, rec.trough) in ps
    ensures forall rec :: rec in recs && rec.peak >= minYear && rec.peak == rec.trough ==>
      Patch(rec.peak, rec.peak + 1) in ps
    ensures forall p :: p in ps ==> exists rec :: (rec in recs && rec.peak >= minYear && rec.trough >= minYear &&
      (p == Patch(rec.peak, rec.trough) || p == Patch(rec.peak, rec.peak + 1)))
  {
    var ps := Bars(Some(minYear), recs);
    forall p | p in ps
      ensures exists rec :: (rec in recs && rec.peak >= minYear && rec.trough >= minYear &&
        (p == Patch(rec.peak, rec.trough) || p == Patch(rec.peak, rec.peak + 1)))
    {
      var rec :| rec in recs && DrawnFor(Some(minYear), rec, p);
    }
    ps
  }
}
