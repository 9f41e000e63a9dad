/**
 Business dates stored as YYYYMMDD text and compared as text: the range filters of the net
 sales query and of the monthly tax query.
 */
module BusinessDate {

  // ---------------------------------------------------------------------------------------
  // Calendar dates and their ordinals
  // ---------------------------------------------------------------------------------------

  predicate IsLeap(y: int) {
    y % 4 == 0 && (y % 100 != 0 || y % 400 == 0)
  }

  function DaysInMonth(y: int, m: int): int {
    if m == 2 then if IsLeap(y) then 29 else 28
    else if m == 4 || m == 6 || m == 9 || m == 11 then 30 else 31
  }

  datatype Date = Date(year: int, month: int, day: int) {
    /** Four-digit years only: strftime does not pad shorter ones. */
    predicate Valid() {
      1000 <= year <= 9999 && 1 <= month <= 12 && 1 <= day <= DaysInMonth(year, month)
    }

    predicate Before(other: Date) {
      year < other.year || (year == other.year && (month < other.month || (month == other.month && day < other.day)))
    }

    /** date.toordinal(). */
    function Ordinal(): int {
      DaysBeforeYear(year) + DaysBeforeMonth(year, month) + day
    }
  }

  function DaysBeforeYear(y: int): int {
    (y - 1) * 365 + (y - 1) / 4 - (y - 1) / 100 + (y - 1) / 400
  }

  function DaysBeforeMonth(y: int, m: int): int
    decreases m
  {
    if m <= 1 then 0 else DaysBeforeMonth(y, m - 1) + DaysInMonth(y, m - 1)
  }

  lemma {:induction false} MonthsOrder(y: int, m: int, n: int)
    requires 1 <= m < n
    ensures DaysBeforeMonth(y, m) + DaysInMonth(y, m) <= DaysBeforeMonth(y, n)
    decreases n
  {
    if m < n - 1 {
      MonthsOrder(y, m, n - 1);
    }
  }

  lemma Quotients(y: int, k: int)
    requires k == 4 || k == 100 || k == 400
    ensures y / k == (y - 1) / k + if y % k == 0 then 1 else 0
  {
  }

  lemma FourHundreds(q: int)
    ensures 400 * q % 100 == 0
  {
  }

  lemma Hundreds(q: int)
    ensures 100 * q % 4 == 0
  {
  }

  lemma LeapRules(y: int)
    ensures y % 400 == 0 ==> y % 100 == 0
    ensures y % 100 == 0 ==> y % 4 == 0
  {
    if y % 400 == 0 {
      FourHundreds(y / 400);
    }
    if y % 100 == 0 {
      Hundreds(y / 100);
    }
  }

  lemma YearLength(y: int)
    ensures DaysBeforeYear(y + 1) == DaysBeforeYear(y) + if IsLeap(y) then 366 else 365
  {
    Quotients(y, 4);
    Quotients(y, 100);
    Quotients(y, 400);
    LeapRules(y);
  }

  lemma MonthsFillTheYear(y: int)
    ensures DaysBeforeMonth(y, 13) == if IsLeap(y) then 366 else 365
  {
    var feb := DaysInMonth(y, 2);
    assert DaysBeforeMonth(y, 3) == 31 + feb;
    assert DaysBeforeMonth(y, 5) == 92 + feb;
    assert DaysBeforeMonth(y, 7) == 153 + feb;
    assert DaysBeforeMonth(y, 9) == 215 + feb;
    assert DaysBeforeMonth(y, 11) == 276 + feb;
  }

  lemma {:induction false} YearsOrder(y: int, z: int)
    requires y < z
    ensures DaysBeforeYear(y + 1) <= DaysBeforeYear(z)
    decreases z - y
  {
    if y + 1 < z {
      YearsOrder(y, z - 1);
      YearLength(z - 1);
    }
  }

  lemma EarlierHasSmallerOrdinal(a: Date, b: Date)
    requires a.Valid() && b.Valid() && a.Before(b)
    ensures a.Ordinal() < b.Ordinal()
  {
    if a.year < b.year {
      YearLength(a.year);
      MonthsFillTheYear(a.year);
      MonthsOrder(a.year, a.month, 13);
      YearsOrder(a.year, b.year);
      MonthsAreNonNegative(b.year, b.month);
    } else if a.month < b.month {
      MonthsOrder(a.year, a.month, b.month);
    }
  }

  lemma {:induction false} MonthsAreNonNegative(y: int, m: int)
    ensures DaysBeforeMonth(y, m) >= 0
    decreases m
  {
    if m > 1 {
      MonthsAreNonNegative(y, m - 1);
    }
  }

  /** Ordinals order dates as the calendar does, and no two dates share one. */
  lemma OrdinalsOrderDates(a: Date, b: Date)
    requires a.Valid() && b.Valid()
    ensures a.Before(b) <==> a.Ordinal() < b.Ordinal()
    ensures a == b <==> a.Ordinal() == b.Ordinal()
  {
    if a.Before(b) {
      EarlierHasSmallerOrdinal(a, b);
    } else if b.Before(a) {
      EarlierHasSmallerOrdinal(b, a);
    }
  }

  /** The days of the year before each month. */
  lemma FirstsOfMonths(y: int)
    ensures var leap := if IsLeap(y) then 1 else 0;
      && DaysBeforeMonth(y, 1) == 0 && DaysBeforeMonth(y, 2) == 31
      && DaysBeforeMonth(y, 3) == 59 + leap && DaysBeforeMonth(y, 4) == 90 + leap
      && DaysBeforeMonth(y, 5) == 120 + leap && DaysBeforeMonth(y, 6) == 151 + leap
      && DaysBeforeMonth(y, 7) == 181 + leap && DaysBeforeMonth(y, 8) == 212 + leap
      && DaysBeforeMonth(y, 9) == 243 + leap && DaysBeforeMonth(y, 10) == 273 + leap
      && DaysBeforeMonth(y, 11) == 304 + leap && DaysBeforeMonth(y, 12) == 334 + leap
  {
    var leap := if IsLeap(y) then 1 else 0;
    assert DaysBeforeMonth(y, 3) == 59 + leap;
    assert DaysBeforeMonth(y, 5) == 120 + leap;
    assert DaysBeforeMonth(y, 7) == 181 + leap;
    assert DaysBeforeMonth(y, 9) == 243 + leap;
    assert DaysBeforeMonth(y, 11) == 304 + leap;
  }

  /** Two known ordinals: the Unix epoch and a day after a leap year. */
  lemma KnownOrdinals()
    ensures Date(1970, 1, 1).Ordinal() == 719_163 && Date(2024, 12, 31).Ordinal() == 739_251
    ensures IsLeap(2000) && IsLeap(2024) && !IsLeap(1900) && !IsLeap(2026)
  {
    FirstsOfMonths(1970);
    FirstsOfMonths(2024);
  }

  // ---------------------------------------------------------------------------------------
  // Printing
  // ---------------------------------------------------------------------------------------

  function Digit(n: int): char
    requires 0 <= n <= 9
  {
    '0' + n as char
  }

  /** strftime("%Y%m%d"). */
  function Print(d: Date): string
    requires d.Valid()
  {
    [Digit(d.year / 1000), Digit(d.year / 100 % 10), Digit(d.year / 10 % 10), Digit(d.year % 10),
     Digit(d.month / 10), Digit(d.month % 10), Digit(d.day / 10), Digit(d.day % 10)]
  }

  predicate IsDigits(s: string) {
    forall i :: 0 <= i < |s| ==> '0' <= s[i] <= '9'
  }

  /** cast(text as integer). */
  function Value(s: string): int
    requires IsDigits(s)
  {
    if s == "" then 0 else Value(s[..|s| - 1]) * 10 + (s[|s| - 1] - '0') as int
  }

  /** Text order, for texts of equal length: the first difference decides. */
  predicate TextLess(a: string, b: string)
    requires |a| == |b|
  {
    exists i :: 0 <= i < |a| && a[..i] == b[..i] && a[i] < b[i]
  }

  lemma {:induction false} EqualValuesEqualTexts(a: string, b: string)
    requires |a| == |b| && IsDigits(a) && IsDigits(b) && Value(a) == Value(b)
    ensures a == b
    decreases |a|
  {
    if a != "" {
      var n := |a| - 1;
      EqualValuesEqualTexts(a[..n], b[..n]);
      assert a == a[..n] + [a[n]] && b == b[..n] + [b[n]];
    }
  }

  /** Texts of digits of one length compare as the numbers they spell. */
  lemma {:induction false} TextOrderIsNumberOrder(a: string, b: string)
    requires |a| == |b| && IsDigits(a) && IsDigits(b)
    ensures TextLess(a, b) <==> Value(a) < Value(b)
    decreases |a|
  {
    if a != "" {
      var n := |a| - 1;
      TextOrderIsNumberOrder(a[..n], b[..n]);
      TextLessByLast(a, b, n);
      if Value(a[..n]) == Value(b[..n]) {
        EqualValuesEqualTexts(a[..n], b[..n]);
      }
    }
  }

  lemma TextLessByLast(a: string, b: string, n: nat)
    requires |a| == |b| == n + 1
    ensures TextLess(a, b) <==> TextLess(a[..n], b[..n]) || (a[..n] == b[..n] && a[n] < b[n])
  {
    var x, y := a[..n], b[..n];
    if TextLess(a, b) {
      var i :| 0 <= i < |a| && a[..i] == b[..i] && a[i] < b[i];
      if i < n {
        assert x[..i] == a[..i] && y[..i] == b[..i];
      }
    }
    if TextLess(x, y) {
      var i :| 0 <= i < |x| && x[..i] == y[..i] && x[i] < y[i];
      assert a[..i] == x[..i] && b[..i] == y[..i];
    }
  }

  /** Appending a digit shifts the number. */
  lemma ValueOfLonger(s: string, n: int)
    requires IsDigits(s) && 0 <= n <= 9
    ensures IsDigits(s + [Digit(n)]) && Value(s + [Digit(n)]) == Value(s) * 10 + n
  {
    assert (s + [Digit(n)])[..|s|] == s;
  }

  function FourDigits(n: int): string
    requires 0 <= n <= 9999
  {
    [Digit(n / 1000), Digit(n / 100 % 10), Digit(n / 10 % 10), Digit(n % 10)]
  }

  function TwoDigits(n: int): string
    requires 0 <= n <= 99
  {
    [Digit(n / 10), Digit(n % 10)]
  }

  lemma TwoDigitsAppend(s: string, n: int)
    requires IsDigits(s) && 0 <= n <= 99
    ensures IsDigits(s + TwoDigits(n)) && Value(s + TwoDigits(n)) == Value(s) * 100 + n
  {
    ValueOfLonger(s, n / 10);
    ValueOfLonger(s + [Digit(n / 10)], n % 10);
    assert s + [Digit(n / 10)] + [Digit(n % 10)] == s + TwoDigits(n);
  }

  lemma DigitPairs(n: int)
    requires 0 <= n <= 9999
    ensures n / 100 / 10 == n / 1000
    ensures n % 100 / 10 == n / 10 % 10 && n % 100 % 10 == n % 10
  {
    var high, low := n / 100, n % 100;
    assert n == 100 * high + low;
    assert n == 1000 * (high / 10) + (100 * (high % 10) + low);
    assert n == 10 * (10 * high + low / 10) + low % 10;
    assert n / 10 == 10 * high + low / 10;
  }

  lemma FourAreTwoPairs(n: int)
    requires 0 <= n <= 9999
    ensures FourDigits(n) == TwoDigits(n / 100) + TwoDigits(n % 100)
  {
    DigitPairs(n);
  }

  lemma FourDigitsSpell(n: int)
    requires 0 <= n <= 9999
    ensures IsDigits(FourDigits(n)) && Value(FourDigits(n)) == n
  {
    TwoDigitsAppend("", n / 100);
    TwoDigitsAppend(TwoDigits(n / 100), n % 100);
    assert "" + TwoDigits(n / 100) == TwoDigits(n / 100);
    FourAreTwoPairs(n);
  }

  lemma PrintSpellsTheDate(d: Date)
    requires d.Valid()
    ensures IsDigits(Print(d)) && |Print(d)| == 8
    ensures Value(Print(d)) == d.year * 10000 + d.month * 100 + d.day
    ensures Value(Print(d)[..4]) == d.year && Value(Print(d)[4..6]) == d.month
  {
    var y, m := FourDigits(d.year), TwoDigits(d.month);
    FourDigitsSpell(d.year);
    TwoDigitsAppend(y, d.month);
    TwoDigitsAppend(y + m, d.day);
    TwoDigitsAppend("", d.month);
    assert Print(d) == y + m + TwoDigits(d.day);
    assert Print(d)[..4] == y && Print(d)[4..6] == "" + m;
  }

  /** Printing is strictly order-preserving, and its slices recover year and month. */
  lemma PrintPreservesOrder(a: Date, b: Date)
    requires a.Valid() && b.Valid()
    ensures |Print(a)| == |Print(b)| == 8
    ensures TextLess(Print(a), Print(b)) <==> a.Ordinal() < b.Ordinal()
    ensures Print(a) == Print(b) <==> a == b
    ensures Value(Print(a)[..4]) == a.year && Value(Print(a)[4..6]) == a.month
  {
    PrintSpellsTheDate(a);
    PrintSpellsTheDate(b);
    TextOrderIsNumberOrder(Print(a), Print(b));
    OrdinalsOrderDates(a, b);
  }
}
