/**
 * The exchange-rate band projection of lib/bands.ts: from April 2025, where the band is
 * 1000..1400, the upper value grows and the lower value shrinks by 1% per month, compounded.
 * Values are exact reals; the floating-point rounding of `Math.pow` is not modelled.
 */
module Bands {
  import opened Dates

  /** `BASE_DATE`: 1 April 2025 (month 3 counted from 0). */
  const BaseDate := Date(2025, 3, 1)
  const UpperBase: real := 1400.0
  const LowerBase: real := 1000.0
  /** `MONTHLY_RATE`, 1% a month. */
  const MonthlyRate: real := 0.01

  datatype BandValues = BandValues(upper: real, lower: real)

  /** `b` multiplied by itself `n` times. */
  function NatPow(b: real, n: nat): (r: real)
    ensures b > 0.0 ==> r > 0.0
  {
    if n == 0 then 1.0 else b * NatPow(b, n - 1)
  }

  /** `Math.pow(b, e)` for an integer exponent; a negative exponent gives the reciprocal power. */
  function Pow(b: real, e: int): (r: real)
    requires b > 0.0
    ensures r > 0.0
  {
    if e >= 0 then NatPow(b, e) else 1.0 / NatPow(b, -e)
  }

  /** `calculateBandsForMonth(date)`. */
  function CalculateBandsForMonth(date: Date): (bands: BandValues)
    ensures bands.upper > 0.0 && bands.lower > 0.0
  {
    var monthsDiff := GetMonthDifference(BaseDate, date);
    BandValues(UpperBase * Pow(1.0 + MonthlyRate, monthsDiff), LowerBase * Pow(1.0 - MonthlyRate, monthsDiff))
  }

  /** One more month multiplies the power by the base once more, for negative exponents too. */
  lemma PowSucc(b: real, e: int)
    requires b > 0.0
    ensures Pow(b, e + 1) == Pow(b, e) * b
  {
    if e == -1 {
      assert NatPow(b, 1) == b;
    } else if e < -1 {
      var p := NatPow(b, -e - 1);
      assert NatPow(b, -e) == b * p;
      calc {
        Pow(b, e) * b;
        (1.0 / (b * p)) * b;
        1.0 / p;
      }
    }
  }

  /** A negative exponent gives the reciprocal of the positive power. */
  lemma PowNegate(b: real, e: int)
    requires b > 0.0
    ensures Pow(b, -e) == 1.0 / Pow(b, e)
  {
  }

  /** With a base above 1 the power grows strictly with the exponent. */
  lemma {:induction false} PowIncreasing(b: real, e1: int, e2: int)
    requires b > 1.0 && e1 < e2
    ensures Pow(b, e1) < Pow(b, e2)
    decreases e2 - e1
  {
    var p, q := Pow(b, e1), Pow(b, e1 + 1);
    PowSucc(b, e1);
    GrowsByFactor(p, b);
    assert p < q;
    if e1 + 1 < e2 {
      PowIncreasing(b, e1 + 1, e2);
    }
  }

  /** With a base between 0 and 1 the power shrinks strictly as the exponent grows. */
  lemma {:induction false} PowDecreasing(b: real, e1: int, e2: int)
    requires 0.0 < b < 1.0 && e1 < e2
    ensures Pow(b, e1) > Pow(b, e2)
    decreases e2 - e1
  {
    var p, q := Pow(b, e1), Pow(b, e1 + 1);
    PowSucc(b, e1);
    ShrinksByFactor(p, b, q);
    if e1 + 1 < e2 {
      PowDecreasing(b, e1 + 1, e2);
    }
  }

  lemma GrowsByFactor(p: real, b: real)
    requires p > 0.0 && b > 1.0
    ensures p < p * b
  {
    assert p * b - p == p * (b - 1.0);
  }

  lemma ShrinksByFactor(p: real, b: real, q: real)
    requires p > 0.0 && 0.0 < b < 1.0 && q == p * b
    ensures q < p
  {
    assert p - q == p * (1.0 - b);
  }

  /** The bands are 1400 times 1.01 and 1000 times 0.99 to the power of the months since April 2025. */
  lemma BandsClosedForm(date: Date)
    ensures var n := 12 * (date.year - 2025) + (date.month - 3);
      CalculateBandsForMonth(date) == BandValues(1400.0 * Pow(101.0 / 100.0, n), 1000.0 * Pow(99.0 / 100.0, n))
  {
  }

  /** Any day of April 2025 gives exactly the base band. */
  lemma BandsAtBase(date: Date)
    requires date.year == 2025 && date.month == 3
    ensures CalculateBandsForMonth(date) == BandValues(1400.0, 1000.0)
  {
  }

  /** Only the year and month matter, never the day. */
  lemma BandsIgnoreDay(a: Date, b: Date)
    requires a.year == b.year && a.month == b.month
    ensures CalculateBandsForMonth(a) == CalculateBandsForMonth(b)
  {
  }

  /** One month later the upper band is 1.01 times and the lower band 0.99 times what it was. */
  lemma BandsNextMonth(a: Date, b: Date)
    requires GetMonthDifference(a, b) == 1
    ensures CalculateBandsForMonth(b).upper == CalculateBandsForMonth(a).upper * (101.0 / 100.0)
    ensures CalculateBandsForMonth(b).lower == CalculateBandsForMonth(a).lower * (99.0 / 100.0)
  {
    var n := GetMonthDifference(BaseDate, a);
    MonthDifferenceAdditive(BaseDate, a, b);
    PowSucc(101.0 / 100.0, n);
    PowSucc(99.0 / 100.0, n);
  }

  /** Moving later in time, the upper band strictly rises and the lower band strictly falls. */
  lemma BandsMonotonic(a: Date, b: Date)
    requires GetMonthDifference(a, b) > 0
    ensures CalculateBandsForMonth(a).upper < CalculateBandsForMonth(b).upper
    ensures CalculateBandsForMonth(a).lower > CalculateBandsForMonth(b).lower
  {
    var na := GetMonthDifference(BaseDate, a);
    var nb := GetMonthDifference(BaseDate, b);
    MonthDifferenceAdditive(BaseDate, a, b);
    PowIncreasing(101.0 / 100.0, na, nb);
    PowDecreasing(99.0 / 100.0, na, nb);
  }

  /** May 2025 is one month after the base: 1414 and 990. */
  lemma BandsMay2025(day: int)
    ensures CalculateBandsForMonth(Date(2025, 4, day)) == BandValues(1414.0, 990.0)
  {
    assert GetMonthDifference(BaseDate, Date(2025, 4, day)) == 1;
    assert NatPow(101.0 / 100.0, 1) == 101.0 / 100.0 * NatPow(101.0 / 100.0, 0);
    assert NatPow(99.0 / 100.0, 1) == 99.0 / 100.0 * NatPow(99.0 / 100.0, 0);
  }

  /** March 2025 is one month before the base: 1400 / 1.01 and 1000 / 0.99. */
  lemma BandsMarch2025(day: int)
    ensures CalculateBandsForMonth(Date(2025, 2, day)) == BandValues(140000.0 / 101.0, 100000.0 / 99.0)
  {
    assert GetMonthDifference(BaseDate, Date(2025, 2, day)) == -1;
    assert NatPow(101.0 / 100.0, 1) == 101.0 / 100.0 * NatPow(101.0 / 100.0, 0);
    assert NatPow(99.0 / 100.0, 1) == 99.0 / 100.0 * NatPow(99.0 / 100.0, 0);
  }
}
