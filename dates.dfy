/**
 * Calendar-month arithmetic of lib/dates.ts. A date is what JavaScript's `Date` reports in local
 * time: a year, a month 0..11 and a day; "today" is a parameter instead of a clock reading.
 */
module Dates {
  import opened Wrappers
  import opened Strings

  /** A month as `Date.prototype.getMonth` gives it: 0 is January, 11 is December. */
  type Month = m: int | 0 <= m < 12

  datatype Date = Date(year: int, month: Month, day: int)

  /** Months elapsed since January of year 0; `Date` normalises an out-of-range month against it. */
  function MonthIndex(year: int, month: int): int
  {
    12 * year + month
  }

  /**
   * The year and month that `new Date(year, month, day)` lands on: a month below 0 or above 11
   * borrows from or carries into the year.
   */
  function Normalize(year: int, month: int): (ym: (int, Month))
    ensures MonthIndex(ym.0, ym.1) == MonthIndex(year, month)
  {
    var k := MonthIndex(year, month);
    (k / 12, k % 12)
  }

  /** Two year/month pairs with valid months are equal exactly when their month indices are. */
  lemma MonthIndexInjective(y1: int, m1: Month, y2: int, m2: Month)
    ensures MonthIndex(y1, m1) == MonthIndex(y2, m2) <==> y1 == y2 && m1 == m2
  {
  }

  /** A month already in 0..11 is left where it is. */
  lemma NormalizeValid(year: int, month: Month)
    ensures Normalize(year, month) == (year, month)
  {
    var ym := Normalize(year, month);
    MonthIndexInjective(ym.0, ym.1, year, month);
  }

  /** Normalisation depends only on the month index. */
  lemma NormalizeByIndex(y1: int, m1: int, y2: int, m2: int)
    requires MonthIndex(y1, m1) == MonthIndex(y2, m2)
    ensures Normalize(y1, m1) == Normalize(y2, m2)
  {
  }

  /** `getMonthDifference(from, to)`: 12 times the year difference plus the month difference. */
  function GetMonthDifference(from: Date, to: Date): (r: int)
    ensures Normalize(from.year, from.month + r) == (to.year, to.month)
  {
    NormalizeByIndex(from.year, from.month + (to.year - from.year) * 12 + (to.month - from.month), to.year, to.month);
    NormalizeValid(to.year, to.month);
    (to.year - from.year) * 12 + (to.month - from.month)
  }

  /** The difference is the only number of months that leads from `from`'s month to `to`'s. */
  lemma MonthDifferenceUnique(from: Date, to: Date, k: int)
    requires Normalize(from.year, from.month + k) == (to.year, to.month)
    ensures k == GetMonthDifference(from, to)
  {
    var ym := Normalize(from.year, from.month + k);
    assert MonthIndex(ym.0, ym.1) == MonthIndex(from.year, from.month + k);
  }

  /** Dates in the same month are 0 months apart, whatever their days. */
  lemma MonthDifferenceSameMonth(a: Date, b: Date)
    requires a.year == b.year && a.month == b.month
    ensures GetMonthDifference(a, b) == 0
  {
  }

  lemma MonthDifferenceAntisymmetric(a: Date, b: Date)
    ensures GetMonthDifference(a, b) == -GetMonthDifference(b, a)
  {
  }

  lemma MonthDifferenceAdditive(a: Date, b: Date, c: Date)
    ensures GetMonthDifference(a, b) + GetMonthDifference(b, c) == GetMonthDifference(a, c)
  {
  }

  /**
   * `getLastNMonths(n)` with `today` passed in: counting `i` down from `n - 1` to 0, the first day
   * of the month `i` months before today's.
   */
  method GetLastNMonths(today: Date, n: int) returns (months: seq<Date>)
    ensures |months| == if n <= 0 then 0 else n
    ensures forall k :: 0 <= k < |months| ==> months[k].day == 1
    ensures forall k :: 0 <= k < |months| ==>
      MonthIndex(months[k].year, months[k].month) == MonthIndex(today.year, today.month) - (|months| - 1) + k
    ensures |months| > 0 ==> months[|months| - 1] == Date(today.year, today.month, 1)
    ensures forall k :: 0 <= k < |months| - 1 ==>
      Normalize(months[k].year, months[k].month + 1) == (months[k + 1].year, months[k + 1].month)
  {
    months := [];
    var i := n - 1;
    while i >= 0
      invariant n <= 0 ==> i == n - 1 && months == []
      invariant n > 0 ==> -1 <= i <= n - 1 && |months| == n - 1 - i
      invariant forall k :: 0 <= k < |months| ==> months[k].day == 1
      invariant forall k :: 0 <= k < |months| ==>
        MonthIndex(months[k].year, months[k].month) == MonthIndex(today.year, today.month) - (n - 1) + k
      decreases i + 1
    {
      var ym := Normalize(today.year, today.month - i);
      months := months + [Date(ym.0, ym.1, 1)];
      i := i - 1;
    }
    if |months| > 0 {
      var last := months[|months| - 1];
      MonthIndexInjective(last.year, last.month, today.year, today.month);
    }
    forall k | 0 <= k < |months| - 1
      ensures Normalize(months[k].year, months[k].month + 1) == (months[k + 1].year, months[k + 1].month)
    {
      NormalizeByIndex(months[k].year, months[k].month + 1, months[k + 1].year, months[k + 1].month);
      NormalizeValid(months[k + 1].year, months[k + 1].month);
    }
  }

  /** `String(month + 1).padStart(2, "0")`: the 1-based month as two digits. */
  function MonthText(month: Month): (t: string)
    ensures t == [DigitChar((month + 1) / 10), DigitChar((month + 1) % 10)]
  {
    NatToStringLength(month + 1);
    var digits := NatToString(month + 1);
    if month + 1 < 10 then
      assert digits == [DigitChar(month + 1)];
      PadStart(digits, 2, '0')
    else
      assert digits == NatToString(1) + [DigitChar((month + 1) % 10)];
      PadStart(digits, 2, '0')
  }

  /** `formatYearMonth`: the year, a dash, and the 1-based month padded to two digits. */
  function FormatYearMonth(date: Date): (s: string)
    ensures |s| == |IntToString(date.year)| + 3
  {
    IntToString(date.year) + "-" + MonthText(date.month)
  }

  /** Reads "year-MM" back; the inverse of `FormatYearMonth`. */
  function ParseYearMonth(s: string): Option<(int, int)>
  {
    if |s| < 4 || s[|s| - 3] != '-' || !AllDigits(s[|s| - 2..]) then None
    else
      var mm := ParseDigits(s[|s| - 2..]);
      var year := JsNumber(s[..|s| - 3]);
      if year.Some? && 1 <= mm <= 12 then Some((year.value, mm - 1)) else None
  }

  /** The formatted text reads back as the same year and month, for every year. */
  lemma FormatYearMonthRoundTrip(date: Date)
    ensures ParseYearMonth(FormatYearMonth(date)) == Some((date.year, date.month as int))
  {
    ParseYearMonthOf(date.year, date.month);
  }

  lemma ParseYearMonthOf(year: int, month: Month)
    ensures ParseYearMonth(IntToString(year) + "-" + MonthText(month)) == Some((year, month as int))
  {
    var a, b := (month + 1) / 10, (month + 1) % 10;
    TwoDigits(a, b);
    JsNumberIntToString(year);
    ParseYearMonthOfParts(IntToString(year), MonthText(month), year, month + 1);
  }

  /** A text of the form "<year>-<two digits>" is read piece by piece. */
  lemma ParseYearMonthOfParts(yearText: string, digits: string, year: int, mm: int)
    requires |yearText| >= 1 && JsNumber(yearText) == Some(year)
    requires |digits| == 2 && AllDigits(digits) && ParseDigits(digits) == mm && 1 <= mm <= 12
    ensures ParseYearMonth(yearText + "-" + digits) == Some((year, mm - 1))
  {
    var s := yearText + "-" + digits;
    var n := |s|;
    assert s[..n - 3] == yearText && s[n - 3] == '-' && s[n - 2..] == digits;
  }

  lemma TwoDigits(a: nat, b: nat)
    requires a < 10 && b < 10
    ensures AllDigits([DigitChar(a), DigitChar(b)])
    ensures ParseDigits([DigitChar(a), DigitChar(b)]) == 10 * a + b
  {
    var t := [DigitChar(a), DigitChar(b)];
    assert DigitValue(DigitChar(a)) == a && DigitValue(DigitChar(b)) == b;
    assert t[..1] == [DigitChar(a)];
    assert [DigitChar(a)][..0] == [];
    assert ParseDigits([DigitChar(a)]) == 10 * ParseDigits([]) + a;
    assert ParseDigits(t) == 10 * ParseDigits(t[..1]) + b;
  }

  /** Two dates format alike exactly when they have the same year and month. */
  lemma FormatYearMonthInjective(a: Date, b: Date)
    ensures FormatYearMonth(a) == FormatYearMonth(b) <==> a.year == b.year && a.month == b.month
  {
    var fa, fb := FormatYearMonth(a), FormatYearMonth(b);
    FormatYearMonthRoundTrip(a);
    FormatYearMonthRoundTrip(b);
    if fa == fb {
      assert ParseYearMonth(fa) == ParseYearMonth(fb);
    }
  }
}
