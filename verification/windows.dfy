/**
 * Year windows. Every script takes `start_year`/`end_year` arguments that are
 * either a year or the strings 'min'/'max', resolves the strings to the
 * earliest/latest year of the data, and keeps the rows inside the bounds.
 */
module Windows {
  import opened Wrappers
  import opened Seqs

  /** A `start_year`/`end_year` argument once converted: 'min'/'max' (`Unbounded`) or a year. */
  datatype Bound = Unbounded | At(year: int)

  /** A `start_year`/`end_year` argument as passed: text (such as 'min' or '1950'), an int, or a float. */
  datatype YearArg = Text(s: string) | Whole(n: int) | Fraction(x: real)

  /** `int(x)` of a float: truncation toward zero. */
  function Truncate(x: real): (t: int)
    ensures 0.0 <= x ==> t as real <= x < t as real + 1.0
    ensures x < 0.0 ==> t as real - 1.0 < x <= t as real
  {
    if x >= 0.0 then x.Floor else -((-x).Floor)
  }

  predicate IsDigit(ch: char)
  {
    '0' <= ch <= '9'
  }

  predicate AllDigits(s: string)
  {
    forall i :: 0 <= i < |s| ==> IsDigit(s[i])
  }

  /** The value of a run of decimal digits, most significant first. */
  function DigitsValue(s: string): nat
    requires AllDigits(s)
  {
    if |s| == 0 then 0 else 10 * DigitsValue(s[..|s| - 1]) + (s[|s| - 1] as int - '0' as int)
  }

  /** Text `int()` accepts here: an optional sign followed by one or more decimal digits. */
  predicate IsNumeral(s: string)
  {
    if |s| > 0 && (s[0] == '+' || s[0] == '-') then |s| > 1 && AllDigits(s[1..])
    else |s| > 0 && AllDigits(s)
  }

  function NumeralValue(s: string): int
    requires IsNumeral(s)
  {
    if s[0] == '-' then -(DigitsValue(s[1..]) as int)
    else if s[0] == '+' then DigitsValue(s[1..])
    else DigitsValue(s)
  }

  /** `str(n)` for a natural number: its decimal digits without leading zeros. */
  function Digits(n: nat): string
  {
    if n < 10 then [('0' as int + n) as char] else Digits(n / 10) + [('0' as int + n % 10) as char]
  }

  /** `str(n)`: a minus sign before the digits of a negative year. */
  function Decimal(n: int): string
  {
    if n < 0 then "-" + Digits(-n) else Digits(n)
  }

  lemma {:induction false} DigitsRoundTrip(n: nat)
    ensures |Digits(n)| > 0 && AllDigits(Digits(n))
    ensures DigitsValue(Digits(n)) == n
  {
    if n >= 10 {
      DigitsRoundTrip(n / 10);
      var d := Digits(n);
      assert d[..|d| - 1] == Digits(n / 10);
    }
  }

  /** `int(str(n)) == n`: the text of any year converts back to that year. */
  lemma NumeralRoundTrip(n: int)
    ensures IsNumeral(Decimal(n)) && NumeralValue(Decimal(n)) == n
  {
    if n < 0 {
      DigitsRoundTrip(-n);
      assert Decimal(n)[1..] == Digits(-n);
    } else {
      DigitsRoundTrip(n);
    }
  }

  /**
   * `min_year` before resolution: 'min' is unbounded, any other argument goes
   * through `int()`, which truncates a float and raises `ValueError` on text
   * that is not a numeral ('max' included).
   */
  function StartBound(a: YearArg): (r: Result<Bound>)
    ensures r == Ok(Unbounded) <==> a == Text("min")
    ensures r.Err? <==> a.Text? && a.s != "min" && !IsNumeral(a.s)
    ensures r.Err? ==> r.error == ValueError(a.s)
    ensures a.Text? && a.s != "min" && IsNumeral(a.s) ==> r == Ok(At(NumeralValue(a.s)))
    ensures a.Whole? ==> r == Ok(At(a.n))
    ensures a.Fraction? ==> r == Ok(At(Truncate(a.x)))
  {
    match a
    case Text(s) => if s == "min" then Ok(Unbounded) else if IsNumeral(s) then Ok(At(NumeralValue(s))) else Err(ValueError(s))
    case Whole(n) => Ok(At(n))
    case Fraction(x) => Ok(At(Truncate(x)))
  }

  /** `max_year` before resolution: as `StartBound`, with 'max' as the unbounded keyword. */
  function EndBound(a: YearArg): (r: Result<Bound>)
    ensures r == Ok(Unbounded) <==> a == Text("max")
    ensures r.Err? <==> a.Text? && a.s != "max" && !IsNumeral(a.s)
    ensures r.Err? ==> r.error == ValueError(a.s)
    ensures a.Text? && a.s != "max" && IsNumeral(a.s) ==> r == Ok(At(NumeralValue(a.s)))
    ensures a.Whole? ==> r == Ok(At(a.n))
    ensures a.Fraction? ==> r == Ok(At(Truncate(a.x)))
  {
    match a
    case Text(s) => if s == "max" then Ok(Unbounded) else if IsNumeral(s) then Ok(At(NumeralValue(s))) else Err(ValueError(s))
    case Whole(n) => Ok(At(n))
    case Fraction(x) => Ok(At(Truncate(x)))
  }

  /**
   * A year passed as text converts to the same bound as the year itself, at
   * either end; the keywords are not interchangeable: 'max' as a start year
   * and 'min' as an end year raise `ValueError`.
   */
  lemma BoundConversions(n: int)
    ensures StartBound(Text(Decimal(n))) == StartBound(Whole(n)) == Ok(At(n))
    ensures EndBound(Text(Decimal(n))) == EndBound(Whole(n)) == Ok(At(n))
    ensures StartBound(Text("max")) == Err(ValueError("max"))
    ensures EndBound(Text("min")) == Err(ValueError("min"))
  {
    NumeralRoundTrip(n);
    assert !IsNumeral("max") by { assert !IsDigit("max"[0]); }
    assert !IsNumeral("min") by { assert !IsDigit("min"[0]); }
  }

  /** `df['year'].min()`: None (NaN) on an empty column. */
  function MinOf(ys: seq<int>): (m: Option<int>)
    ensures m.None? <==> |ys| == 0
    ensures m.Some? ==> m.value in ys && forall i :: 0 <= i < |ys| ==> m.value <= ys[i]
  {
    if |ys| == 0 then None
    else match MinOf(ys[1..])
      case None => Some(ys[0])
      case Some(m) => Some(if ys[0] <= m then ys[0] else m)
  }

  /** `df['year'].max()`: None (NaN) on an empty column. */
  function MaxOf(ys: seq<int>): (m: Option<int>)
    ensures m.None? <==> |ys| == 0
    ensures m.Some? ==> m.value in ys && forall i :: 0 <= i < |ys| ==> ys[i] <= m.value
  {
    if |ys| == 0 then None
    else match MaxOf(ys[1..])
      case None => Some(ys[0])
      case Some(m) => Some(if ys[0] >= m then ys[0] else m)
  }

  /** `min_year`: an explicit start year, or 'min' read as the earliest year of the data. */
  function ResolveStart<T>(start: Bound, rows: seq<T>, yearOf: T -> int): Option<int>
  {
    match start
    case Unbounded => MinOf(Map(rows, yearOf))
    case At(y) => Some(y)
  }

  /** `max_year`: an explicit end year, or 'max' read as the latest year of the data. */
  function ResolveEnd<T>(end: Bound, rows: seq<T>, yearOf: T -> int): Option<int>
  {
    match end
    case Unbounded => MaxOf(Map(rows, yearOf))
    case At(y) => Some(y)
  }

  /** `year >= min_year`; a comparison with NaN is false. */
  predicate AtOrAfter(y: int, lo: Option<int>)
  {
    lo.Some? && y >= lo.value
  }

  /** `year <= max_year`; a comparison with NaN is false. */
  predicate AtOrBefore(y: int, hi: Option<int>)
  {
    hi.Some? && y <= hi.value
  }

  function AfterMask<T>(yearOf: T -> int, lo: Option<int>): T -> bool
  {
    r => AtOrAfter(yearOf(r), lo)
  }

  function RangeMask<T>(yearOf: T -> int, lo: Option<int>, hi: Option<int>): T -> bool
  {
    r => AtOrAfter(yearOf(r), lo) && AtOrBefore(yearOf(r), hi)
  }

  /** The intended meaning of a pair of bounds: 'min' and 'max' impose no bound. */
  function Within<T>(yearOf: T -> int, start: Bound, end: Bound): T -> bool
  {
    r => (start.Unbounded? || yearOf(r) >= start.year) && (end.Unbounded? || yearOf(r) <= end.year)
  }

  /** Every row lies inside the resolved data bounds. */
  lemma ResolvedBoundsHold<T>(rows: seq<T>, yearOf: T -> int, x: T)
    requires x in rows
    ensures AtOrAfter(yearOf(x), ResolveStart(Unbounded, rows, yearOf))
    ensures AtOrBefore(yearOf(x), ResolveEnd(Unbounded, rows, yearOf))
  {
    var i :| 0 <= i < |rows| && rows[i] == x;
    assert Map(rows, yearOf)[i] == yearOf(x);
  }

  /**
   * `df[df['year'] >= min_year]`: with 'min' no row is dropped; with a year,
   * exactly the rows at or after it are kept, in order.
   */
  function StartWindow<T(==)>(rows: seq<T>, yearOf: T -> int, start: Bound): (w: seq<T>)
    ensures Subseq(w, rows)
    ensures w == Filter(rows, Within(yearOf, start, Unbounded))
    ensures start.Unbounded? ==> w == rows
  {
    var lo := ResolveStart(start, rows, yearOf);
    assert forall x :: x in rows ==> AfterMask(yearOf, lo)(x) == Within(yearOf, start, Unbounded)(x) by {
      forall x | x in rows
        ensures AfterMask(yearOf, lo)(x) == Within(yearOf, start, Unbounded)(x)
      {
        ResolvedBoundsHold(rows, yearOf, x);
      }
    }
    FilterCongruent(rows, AfterMask(yearOf, lo), Within(yearOf, start, Unbounded));
    FilterAll(rows, Within(yearOf, Unbounded, Unbounded));
    Filter(rows, AfterMask(yearOf, lo))
  }

  /**
   * `df[(df['year'] >= min_year) & (df['year'] <= max_year)]`: exactly the
   * rows inside the inclusive bounds, in order, where 'min'/'max' bound nothing.
   */
  function YearWindow<T(==)>(rows: seq<T>, yearOf: T -> int, start: Bound, end: Bound): (w: seq<T>)
    ensures Subseq(w, rows)
    ensures w == Filter(rows, Within(yearOf, start, end))
    ensures start.Unbounded? && end.Unbounded? ==> w == rows
  {
    var lo := ResolveStart(start, rows, yearOf);
    var hi := ResolveEnd(end, rows, yearOf);
    assert forall x :: x in rows ==> RangeMask(yearOf, lo, hi)(x) == Within(yearOf, start, end)(x) by {
      forall x | x in rows
        ensures RangeMask(yearOf, lo, hi)(x) == Within(yearOf, start, end)(x)
      {
        ResolvedBoundsHold(rows, yearOf, x);
      }
    }
    FilterCongruent(rows, RangeMask(yearOf, lo, hi), Within(yearOf, start, end));
    FilterAll(rows, Within(yearOf, Unbounded, Unbounded));
    Filter(rows, RangeMask(yearOf, lo, hi))
  }
}
