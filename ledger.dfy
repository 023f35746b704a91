/**
 The transaction table of the budget dashboard: one row per transaction with
 the columns Date, Category, Amount and Type, and the derived Month column,
 the date formatted as `'%Y-%m'`.
 */
module Ledger {
  import opened Strings

  /** A calendar date as `pd.to_datetime` yields it (time of day plays no part). */
  datatype Date = Date(year: int, month: int, day: int)

  predicate IsLeapYear(y: int)
  {
    y % 4 == 0 && (y % 100 != 0 || y % 400 == 0)
  }

  function DaysInMonth(y: int, m: int): int
  {
    if m == 2 then (if IsLeapYear(y) then 29 else 28)
    else if m == 4 || m == 6 || m == 9 || m == 11 then 30
    else 31
  }

  /** A date in the range a pandas timestamp can hold (years 1677 to 2262). */
  predicate IsTimestamp(d: Date)
  {
    && 1677 <= d.year <= 2262
    && 1 <= d.month <= 12
    && 1 <= d.day <= DaysInMonth(d.year, d.month)
  }

  type Timestamp = d: Date | IsTimestamp(d) witness Date(1970, 1, 1)

  /**
   One transaction. `kind` is the Type column: free text, compared exactly
   against "Income" and "Expense"; nothing checks it, or the amount, or the
   category.
   */
  datatype Row = Row(date: Timestamp, category: string, amount: int, kind: string)

  const Income: string := "Income"
  const Expense: string := "Expense"

  function Pow10(n: nat): (p: nat)
    ensures p >= 1
  {
    if n == 0 then 1 else 10 * Pow10(n - 1)
  }

  function Digit(d: nat): char
    requires d < 10
  {
    ('0' as int + d) as char
  }

  /** `n` written with exactly `w` decimal digits, zero-padded on the left. */
  function Pad(n: nat, w: nat): (s: string)
    requires n < Pow10(w)
    ensures |s| == w
  {
    if w == 0 then [] else Pad(n / 10, w - 1) + [Digit(n % 10)]
  }

  predicate AllDigits(s: string)
  {
    forall i :: 0 <= i < |s| ==> '0' <= s[i] <= '9'
  }

  /** The number a string of decimal digits denotes, most significant digit first. */
  function DecimalValue(s: string): int
  {
    if s == [] then 0 else 10 * DecimalValue(s[..|s| - 1]) + (s[|s| - 1] as int - '0' as int)
  }

  /** Reading a zero-padded number back gives the number: `Pad` writes decimal digits only. */
  lemma {:induction false} PadRoundTrip(n: nat, w: nat)
    requires n < Pow10(w)
    ensures AllDigits(Pad(n, w))
    ensures DecimalValue(Pad(n, w)) == n
  {
    if w > 0 {
      PadRoundTrip(n / 10, w - 1);
      var s := Pad(n, w);
      assert s[..w - 1] == Pad(n / 10, w - 1);
    }
  }

  /**
   The Month column: `strftime('%Y-%m')`, e.g. "2024-03": the year in four
   decimal digits, a dash, the month in two, both zero padded.
   */
  function MonthKey(d: Timestamp): (k: string)
    ensures |k| == 7 && k[4] == '-'
    ensures AllDigits(k[..4]) && DecimalValue(k[..4]) == d.year
    ensures AllDigits(k[5..]) && DecimalValue(k[5..]) == d.month
  {
    PadRoundTrip(d.year, 4);
    PadRoundTrip(d.month, 2);
    var k := Pad(d.year, 4) + "-" + Pad(d.month, 2);
    assert k[..4] == Pad(d.year, 4) && k[5..] == Pad(d.month, 2);
    k
  }

  function Month(r: Row): string
  {
    MonthKey(r.date)
  }

  /** `d1` falls in an earlier calendar month than `d2`. */
  predicate MonthBefore(d1: Date, d2: Date)
  {
    d1.year < d2.year || (d1.year == d2.year && d1.month < d2.month)
  }

  /**
   Zero-padded numbers of one width sort as strings exactly as they sort as
   numbers, and two of them are equal only when the numbers are.
   */
  lemma {:induction false} PadOrder(n: nat, m: nat, w: nat)
    requires n < Pow10(w) && m < Pow10(w)
    ensures Less(Pad(n, w), Pad(m, w)) <==> n < m
    ensures Pad(n, w) == Pad(m, w) <==> n == m
  {
    if w > 0 {
      var a, b := Pad(n / 10, w - 1), Pad(m / 10, w - 1);
      PadOrder(n / 10, m / 10, w - 1);
      LessConcat(a, [Digit(n % 10)], b, [Digit(m % 10)]);
      if a + [Digit(n % 10)] == b + [Digit(m % 10)] {
        assert (a + [Digit(n % 10)])[..w - 1] == a;
        assert (b + [Digit(m % 10)])[..w - 1] == b;
        assert (a + [Digit(n % 10)])[w - 1] == Digit(n % 10);
      }
    }
  }

  /**
   Sorting Month keys as strings, as `groupby` does, puts them in calendar
   order: the key of `d1` sorts first exactly when `d1` is in an earlier month.
   */
  lemma MonthKeyOrder(d1: Timestamp, d2: Timestamp)
    ensures Less(MonthKey(d1), MonthKey(d2)) <==> MonthBefore(d1, d2)
  {
    var y1, y2 := Pad(d1.year, 4), Pad(d2.year, 4);
    var m1, m2 := Pad(d1.month, 2), Pad(d2.month, 2);
    assert MonthKey(d1) == y1 + ("-" + m1);
    assert MonthKey(d2) == y2 + ("-" + m2);
    LessConcat(y1, "-" + m1, y2, "-" + m2);
    LessConcat("-", m1, "-", m2);
    PadOrder(d1.year, d2.year, 4);
    PadOrder(d1.month, d2.month, 2);
  }
}
