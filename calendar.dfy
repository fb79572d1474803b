/**
 * The proleptic Gregorian calendar as Python's `datetime` module uses it: dates in years
 * 1 to 9999, ordinals counting days from 0001-01-01 (ordinal 1), day arithmetic through the
 * ordinal, `replace(year=...)` and the `%Y-%m-%d` format.
 */
module Calendar {
  import opened Wrappers
  import opened PyText

  datatype Date = Date(year: int, month: int, day: int)

  predicate IsLeap(y: int)
  {
    y % 4 == 0 && (y % 100 != 0 || y % 400 == 0)
  }

  function DaysInMonth(y: int, m: int): int
    requires 1 <= m <= 12
  {
    if m == 2 then (if IsLeap(y) then 29 else 28)
    else if m == 4 || m == 6 || m == 9 || m == 11 then 30
    else 31
  }

  function DaysInYear(y: int): int
  {
    if IsLeap(y) then 366 else 365
  }

  /** A date `datetime` accepts: year 1 to 9999, a month, and a day that month has. */
  predicate ValidDate(d: Date)
  {
    1 <= d.year <= 9999 && 1 <= d.month <= 12 && 1 <= d.day <= DaysInMonth(d.year, d.month)
  }

  /** Days in the years before `y`, counted from year 1. */
  function DaysBeforeYear(y: int): int
  {
    var p := y - 1;
    365 * p + p / 4 - p / 100 + p / 400
  }

  /** Days in the months of year `y` before month `m`. */
  function DaysBeforeMonth(y: int, m: int): int
    requires 1 <= m <= 12
  {
    if m == 1 then 0 else DaysBeforeMonth(y, m - 1) + DaysInMonth(y, m - 1)
  }

  /** `date.toordinal()`: 0001-01-01 is day 1. */
  function ToOrdinal(d: Date): int
    requires ValidDate(d)
  {
    DaysBeforeYear(d.year) + DaysBeforeMonth(d.year, d.month) + d.day
  }

  /** The ordinal of 9999-12-31, the last date `datetime` represents. */
  const MaxOrdinal := 3652059

  /** The date `r` days (0-based) into year `y`, scanning from month `m`. */
  function MonthOf(y: int, r: int, m: int): Date
    requires 1 <= m <= 12 && 0 <= r
    decreases 12 - m
  {
    if m == 12 || r < DaysInMonth(y, m) then Date(y, m, r + 1)
    else MonthOf(y, r - DaysInMonth(y, m), m + 1)
  }

  /** `date.fromordinal(n)`: whole 400-, 100-, 4- and 1-year cycles fix the year; the day of
      the year left over fixes the month and the day. */
  function FromOrdinal(n: int): Date
    requires 1 <= n <= MaxOrdinal
  {
    var m := n - 1;
    FromCycles(m / 146097, m % 146097 / 36524, m % 146097 % 36524 / 1461,
               m % 146097 % 36524 % 1461 / 365, m % 146097 % 36524 % 1461 % 365)
  }

  /** The date after `n400` 400-year, `n100` 100-year, `n4` 4-year and `n1` one-year cycles
      and `r` more days. Four 100-year or four one-year cycles stop on the last day of a leap year. */
  function FromCycles(n400: int, n100: int, n4: int, n1: int, r: int): Date
    requires 0 <= r
  {
    var year := 400 * n400 + 100 * n100 + 4 * n4 + n1 + 1;
    if n1 == 4 || n100 == 4 then Date(year - 1, 12, 31)
    else MonthOf(year, r, 1)
  }

  /** `date + timedelta(days=k)`; `None` is the `OverflowError` for a result outside year 1 to 9999. */
  function AddDays(d: Date, k: int): Option<Date>
    requires ValidDate(d)
  {
    var n := ToOrdinal(d) + k;
    if 1 <= n <= MaxOrdinal then Some(FromOrdinal(n)) else None
  }

  /** `date.replace(year=y)`; `None` is the `ValueError` for an invalid year or a day the month
      does not have in that year. */
  function ReplaceYear(d: Date, y: int): Option<Date>
  {
    if ValidDate(Date(y, d.month, d.day)) then Some(Date(y, d.month, d.day)) else None
  }

  /** `strftime("%Y-%m-%d")` for a date whose year has four digits. */
  function FormatDate(d: Date): string
    requires ValidDate(d)
  {
    ZeroPad(d.year, 4) + "-" + ZeroPad(d.month, 2) + "-" + ZeroPad(d.day, 2)
  }

  // Ordinal arithmetic

  lemma DaysBeforeYearStep(y: int)
    ensures DaysBeforeYear(y + 1) == DaysBeforeYear(y) + DaysInYear(y)
  {
    var d4 := NextQuotient4(y);
    var d100 := NextQuotient100(y);
    var d400 := NextQuotient400(y);
    if y % 400 == 0 {
      Quotient100(y, 4 * (y / 400), 0);
      Quotient4(y, 100 * (y / 400), 0);
    } else if y % 100 == 0 {
      Quotient4(y, 25 * (y / 100), 0);
    }
    assert DaysInYear(y) == 365 + d4 - d100 + d400;
  }

  /** Going from `y - 1` to `y` raises `y / 4` by one exactly when `y` is a multiple of 4. */
  lemma NextQuotient4(y: int) returns (d: int)
    ensures d == (if y % 4 == 0 then 1 else 0) && y / 4 == (y - 1) / 4 + d
  {
    var q := (y - 1) / 4;
    if (y - 1) % 4 == 3 { Quotient4(y, q + 1, 0); d := 1; } else { Quotient4(y, q, (y - 1) % 4 + 1); d := 0; }
  }

  lemma NextQuotient100(y: int) returns (d: int)
    ensures d == (if y % 100 == 0 then 1 else 0) && y / 100 == (y - 1) / 100 + d
  {
    var q := (y - 1) / 100;
    if (y - 1) % 100 == 99 { Quotient100(y, q + 1, 0); d := 1; } else { Quotient100(y, q, (y - 1) % 100 + 1); d := 0; }
  }

  lemma NextQuotient400(y: int) returns (d: int)
    ensures d == (if y % 400 == 0 then 1 else 0) && y / 400 == (y - 1) / 400 + d
  {
    var q := (y - 1) / 400;
    if (y - 1) % 400 == 399 { Quotient400(y, q + 1, 0); d := 1; } else { Quotient400(y, q, (y - 1) % 400 + 1); d := 0; }
  }

  /** The years before `a` take fewer days than the years before any later `b`, at least 365 per year. */
  lemma {:induction false} DaysBeforeYearMonotone(a: int, b: int)
    requires a <= b
    ensures DaysBeforeYear(a) + 365 * (b - a) <= DaysBeforeYear(b)
    decreases b - a
  {
    if a < b {
      DaysBeforeYearStep(a);
      DaysBeforeYearMonotone(a + 1, b);
    }
  }

  lemma {:induction false} DaysBeforeMonthBounds(y: int, m: int)
    requires 1 <= m <= 12
    ensures DaysBeforeMonth(y, m) + DaysInMonth(y, m) <= DaysInYear(y)
    ensures m == 12 ==> DaysBeforeMonth(y, m) + DaysInMonth(y, m) == DaysInYear(y)
    ensures DaysBeforeMonth(y, m) >= 28 * (m - 1)
  {
    var e := if IsLeap(y) then 1 else 0;
    assert DaysBeforeMonth(y, 1) == 0;
    assert DaysBeforeMonth(y, 2) == 31;
    assert DaysBeforeMonth(y, 3) == 59 + e;
    assert DaysBeforeMonth(y, 4) == 90 + e;
    assert DaysBeforeMonth(y, 5) == 120 + e;
    assert DaysBeforeMonth(y, 6) == 151 + e;
    assert DaysBeforeMonth(y, 7) == 181 + e;
    assert DaysBeforeMonth(y, 8) == 212 + e;
    assert DaysBeforeMonth(y, 9) == 243 + e;
    assert DaysBeforeMonth(y, 10) == 273 + e;
    assert DaysBeforeMonth(y, 11) == 304 + e;
    assert DaysBeforeMonth(y, 12) == 334 + e;
  }

  /** The month scan lands on a valid day, at the right distance from the start of the year. */
  lemma {:induction false} MonthOfCorrect(y: int, r: int, m: int)
    requires 1 <= y <= 9999 && 1 <= m <= 12 && 0 <= r
    requires DaysBeforeMonth(y, m) + r < DaysInYear(y)
    ensures var d := MonthOf(y, r, m);
      ValidDate(d) && d.year == y && DaysBeforeMonth(y, d.month) + d.day == DaysBeforeMonth(y, m) + r + 1
    decreases 12 - m
  {
    if m < 12 && r >= DaysInMonth(y, m) {
      assert DaysBeforeMonth(y, m + 1) == DaysBeforeMonth(y, m) + DaysInMonth(y, m);
      MonthOfCorrect(y, r - DaysInMonth(y, m), m + 1);
      assert MonthOf(y, r, m) == MonthOf(y, r - DaysInMonth(y, m), m + 1);
    } else {
      assert MonthOf(y, r, m) == Date(y, m, r + 1);
      if m == 12 {
        DaysBeforeMonthBounds(y, m);
      }
    }
  }

  lemma Quotient4(p: int, q: int, r: int)
    requires p == 4 * q + r && 0 <= r < 4
    ensures p / 4 == q && p % 4 == r
  {
  }

  lemma Quotient100(p: int, q: int, r: int)
    requires p == 100 * q + r && 0 <= r < 100
    ensures p / 100 == q && p % 100 == r
  {
  }

  lemma Quotient400(p: int, q: int, r: int)
    requires p == 400 * q + r && 0 <= r < 400
    ensures p / 400 == q && p % 400 == r
  {
  }

  /** The days before the year that follows `a` 400-year, `b` 100-year, `c` 4-year and `d`
      one-year cycles. */
  lemma CycleDays(a: int, b: int, c: int, d: int)
    requires 0 <= a && 0 <= b <= 3 && 0 <= c <= 24 && 0 <= d <= 3
    ensures DaysBeforeYear(400 * a + 100 * b + 4 * c + d + 1) == 146097 * a + 36524 * b + 1461 * c + 365 * d
  {
    var p := 400 * a + 100 * b + 4 * c + d;
    var q4, q100, q400 := 100 * a + 25 * b + c, 4 * a + b, a;
    Quotient4(p, q4, d);
    Quotient100(p, q100, 4 * c + d);
    Quotient400(p, q400, 100 * b + 4 * c + d);
    assert DaysBeforeYear(p + 1) == 365 * p + q4 - q100 + q400;
  }

  /** The cycle counts and the remainder `FromOrdinal` derives from `n`. */
  lemma Cycles(n: int) returns (a: int, b: int, c: int, d: int, r: int)
    requires 1 <= n <= MaxOrdinal
    ensures 0 <= a <= 24 && 0 <= b <= 4 && 0 <= c <= 24 && 0 <= d <= 4 && 0 <= r < 365
    ensures n - 1 == 146097 * a + 36524 * b + 1461 * c + 365 * d + r
    ensures b == 4 ==> c == 0 && d == 0 && r == 0
    ensures d == 4 ==> c <= 23 && r == 0
    ensures 400 * a + 100 * b + 4 * c + d <= 9999 && (d == 4 || b == 4 || 400 * a + 100 * b + 4 * c + d <= 9998)
    ensures FromOrdinal(n) == FromCycles(a, b, c, d, r)
  {
    var m := n - 1;
    var r0, r1, r2 := m % 146097, m % 146097 % 36524, m % 146097 % 36524 % 1461;
    a, b, c, d, r := m / 146097, r0 / 36524, r1 / 1461, r2 / 365, r2 % 365;
    assert FromOrdinal(n) == FromCycles(a, b, c, d, r);
    CycleBounds(m, a, b, c, d, r, r0, r1, r2);
  }

  /** The bounds on the cycle counts, from the chain of quotients and remainders alone. */
  lemma CycleBounds(m: int, a: int, b: int, c: int, d: int, r: int, r0: int, r1: int, r2: int)
    requires 0 <= m < MaxOrdinal
    requires m == 146097 * a + r0 && 0 <= r0 < 146097
    requires r0 == 36524 * b + r1 && 0 <= r1 < 36524
    requires r1 == 1461 * c + r2 && 0 <= r2 < 1461
    requires r2 == 365 * d + r && 0 <= r < 365
    ensures 0 <= a <= 24 && 0 <= b <= 4 && 0 <= c <= 24 && 0 <= d <= 4
    ensures b == 4 ==> c == 0 && d == 0 && r == 0
    ensures d == 4 ==> c <= 23 && r == 0
    ensures 400 * a + 100 * b + 4 * c + d <= 9998
    ensures m == 146097 * a + 36524 * b + 1461 * c + 365 * d + r
  {
    if a == 24 {
      assert r0 <= 145730;
      if b == 3 {
        assert r1 <= 36158;
      }
    }
  }

  /** The last day of year `y` is the day before year `y + 1` starts. */
  lemma YearEnd(y: int)
    requires 1 <= y <= 9999
    ensures ValidDate(Date(y, 12, 31)) && ToOrdinal(Date(y, 12, 31)) == DaysBeforeYear(y + 1)
  {
    DaysBeforeYearStep(y);
    DaysBeforeMonthBounds(y, 12);
  }

  lemma OrdinalOfYearEnd(n: int, y: int)
    requires 1 <= y <= 9999 && DaysBeforeYear(y + 1) == n
    ensures ValidDate(Date(y, 12, 31)) && ToOrdinal(Date(y, 12, 31)) == n
  {
    YearEnd(y);
  }

  lemma OrdinalOfMonthOf(n: int, y: int, r: int)
    requires 1 <= y <= 9999 && 0 <= r < 365 && DaysBeforeYear(y) == n - 1 - r
    ensures ValidDate(MonthOf(y, r, 1)) && ToOrdinal(MonthOf(y, r, 1)) == n
  {
    MonthOfCorrect(y, r, 1);
  }

  /** The date `FromCycles` builds is valid and lies `r` days past the whole cycles. */
  lemma FromCyclesCorrect(a: int, b: int, c: int, d: int, r: int)
    requires 0 <= a && 0 <= b <= 4 && 0 <= c <= 24 && 0 <= d <= 4 && 0 <= r < 365
    requires b == 4 ==> c == 0 && d == 0 && r == 0
    requires d == 4 ==> c <= 23 && r == 0
    requires 400 * a + 100 * b + 4 * c + d <= 9999 && (d == 4 || b == 4 || 400 * a + 100 * b + 4 * c + d <= 9998)
    ensures ValidDate(FromCycles(a, b, c, d, r))
    ensures ToOrdinal(FromCycles(a, b, c, d, r)) == 146097 * a + 36524 * b + 1461 * c + 365 * d + r + 1
  {
    if b == 4 {
      LastDayOfCentury(a);
    } else if d == 4 {
      LastDayOfLeapCycle(a, b, c);
    } else {
      DayWithinYear(a, b, c, d, r);
    }
  }

  /** The last day of a 400-year cycle: the day count of four centuries lands on 31 December. */
  lemma LastDayOfCentury(a: int)
    requires 0 <= a && 400 * a + 400 <= 9999
    ensures ValidDate(FromCycles(a, 4, 0, 0, 0))
    ensures ToOrdinal(FromCycles(a, 4, 0, 0, 0)) == 146097 * a + 36524 * 4 + 1
  {
    assert FromCycles(a, 4, 0, 0, 0) == Date(400 * a + 400, 12, 31);
    CycleDays(a + 1, 0, 0, 0);
    OrdinalOfYearEnd(146097 * (a + 1), 400 * a + 400);
  }

  /** The last day of a 4-year cycle: the day count of four years lands on 31 December. */
  lemma LastDayOfLeapCycle(a: int, b: int, c: int)
    requires 0 <= a && 0 <= b <= 3 && 0 <= c <= 23 && 400 * a + 100 * b + 4 * c + 4 <= 9999
    ensures ValidDate(FromCycles(a, b, c, 4, 0))
    ensures ToOrdinal(FromCycles(a, b, c, 4, 0)) == 146097 * a + 36524 * b + 1461 * c + 365 * 4 + 1
  {
    var y := 400 * a + 100 * b + 4 * c + 4;
    assert FromCycles(a, b, c, 4, 0) == Date(y, 12, 31);
    CycleDays(a, b, c + 1, 0);
    OrdinalOfYearEnd(146097 * a + 36524 * b + 1461 * (c + 1), y);
  }

  /** Any other day: `r` days into the year after the whole cycles. */
  lemma DayWithinYear(a: int, b: int, c: int, d: int, r: int)
    requires 0 <= a && 0 <= b <= 3 && 0 <= c <= 24 && 0 <= d <= 3 && 0 <= r < 365
    requires 400 * a + 100 * b + 4 * c + d <= 9998
    ensures ValidDate(FromCycles(a, b, c, d, r))
    ensures ToOrdinal(FromCycles(a, b, c, d, r)) == 146097 * a + 36524 * b + 1461 * c + 365 * d + r + 1
  {
    var y := 400 * a + 100 * b + 4 * c + d + 1;
    FromCyclesWithinYear(a, b, c, d, r);
    CycleDays(a, b, c, d);
    OrdinalOfMonthOf(146097 * a + 36524 * b + 1461 * c + 365 * d + r + 1, y, r);
  }

  lemma FromCyclesWithinYear(a: int, b: int, c: int, d: int, r: int)
    requires b != 4 && d != 4 && 0 <= r
    ensures FromCycles(a, b, c, d, r) == MonthOf(400 * a + 100 * b + 4 * c + d + 1, r, 1)
  {
  }

  /** `FromOrdinal` lands on a valid date whose ordinal is `n`. */
  lemma FromOrdinalCorrect(n: int)
    requires 1 <= n <= MaxOrdinal
    ensures ValidDate(FromOrdinal(n)) && ToOrdinal(FromOrdinal(n)) == n
  {
    var a, b, c, d, r := Cycles(n);
    FromCyclesCorrect(a, b, c, d, r);
  }

  lemma {:induction false} DaysBeforeMonthMonotone(y: int, i: int, j: int)
    requires 1 <= i <= j <= 12
    ensures DaysBeforeMonth(y, i) <= DaysBeforeMonth(y, j)
    ensures i < j ==> DaysBeforeMonth(y, i) + DaysInMonth(y, i) <= DaysBeforeMonth(y, j)
    decreases j - i
  {
    if i < j {
      DaysBeforeMonthMonotone(y, i + 1, j);
    }
  }

  /** A date's ordinal lies within its year's days, and within the range `datetime` represents. */
  lemma ToOrdinalRange(d: Date)
    requires ValidDate(d)
    ensures DaysBeforeYear(d.year) < ToOrdinal(d) <= DaysBeforeYear(d.year + 1)
    ensures 1 <= ToOrdinal(d) <= MaxOrdinal
  {
    DaysBeforeMonthBounds(d.year, d.month);
    DaysBeforeYearStep(d.year);
    DaysBeforeYearMonotone(1, d.year);
    DaysBeforeYearMonotone(d.year + 1, 10000);
    assert DaysBeforeYear(10000) == MaxOrdinal;
  }

  /** Distinct valid dates have distinct ordinals. */
  lemma ToOrdinalInjective(d1: Date, d2: Date)
    requires ValidDate(d1) && ValidDate(d2) && ToOrdinal(d1) == ToOrdinal(d2)
    ensures d1 == d2
  {
    ToOrdinalRange(d1);
    ToOrdinalRange(d2);
    if d1.year < d2.year {
      DaysBeforeYearMonotone(d1.year + 1, d2.year);
    } else if d2.year < d1.year {
      DaysBeforeYearMonotone(d2.year + 1, d1.year);
    } else if d1.month < d2.month {
      DaysBeforeMonthMonotone(d1.year, d1.month, d2.month);
    } else if d2.month < d1.month {
      DaysBeforeMonthMonotone(d1.year, d2.month, d1.month);
    }
  }

  /** Ordinals and dates correspond one to one: every valid date comes back from its ordinal. */
  lemma OrdinalRoundTrip(d: Date)
    requires ValidDate(d)
    ensures 1 <= ToOrdinal(d) <= MaxOrdinal && FromOrdinal(ToOrdinal(d)) == d
  {
    ToOrdinalRange(d);
    FromOrdinalCorrect(ToOrdinal(d));
    ToOrdinalInjective(FromOrdinal(ToOrdinal(d)), d);
  }

  /** Adding `k` days moves the ordinal by exactly `k`, and fails exactly when that leaves the range. */
  lemma AddDaysCorrect(d: Date, k: int)
    requires ValidDate(d)
    ensures AddDays(d, k).Some? <==> 1 <= ToOrdinal(d) + k <= MaxOrdinal
    ensures AddDays(d, k).Some? ==> ValidDate(AddDays(d, k).value) && ToOrdinal(AddDays(d, k).value) == ToOrdinal(d) + k
  {
    var n := ToOrdinal(d) + k;
    if 1 <= n <= MaxOrdinal {
      assert AddDays(d, k) == Some(FromOrdinal(n));
      FromOrdinalCorrect(n);
    } else {
      assert AddDays(d, k) == None;
    }
  }

  /** Whatever date adding days produces is a valid one. */
  lemma AddDaysValid(d: Date, k: int)
    requires ValidDate(d)
    ensures AddDays(d, k).Some? ==> ValidDate(AddDays(d, k).value)
  {
    AddDaysCorrect(d, k);
  }

  /** A leap year is never followed 31 years earlier by a leap year. */
  lemma LeapYearBack31(y: int)
    ensures IsLeap(y) ==> !IsLeap(y - 31)
  {
    if IsLeap(y) {
      assert (y - 31) % 4 == 1;
    }
  }

  /** Moving a date 31 years back fails exactly on the 29th of February. */
  lemma ReplaceYearBack31(d: Date)
    requires ValidDate(d) && d.year > 31
    ensures ReplaceYear(d, d.year - 31).None? <==> d.month == 2 && d.day == 29
    ensures ReplaceYear(d, d.year - 31).Some? ==> ReplaceYear(d, d.year - 31).value == Date(d.year - 31, d.month, d.day)
  {
    LeapYearBack31(d.year);
  }

  /** A date whose ordinal is past the start of year `y` falls in year `y` or later. */
  lemma YearAtLeast(d: Date, y: int)
    requires ValidDate(d) && 1 <= y && DaysBeforeYear(y) < ToOrdinal(d)
    ensures d.year >= y
  {
    ToOrdinalRange(d);
    if d.year < y {
      DaysBeforeYearMonotone(d.year + 1, y);
    }
  }

  /** A date of a four-digit year formats as `YYYY-MM-DD`: ten characters, dashes at 4 and 7. */
  lemma FormatDateShape(d: Date)
    requires ValidDate(d) && d.year >= 1000
    ensures |FormatDate(d)| == 10 && FormatDate(d)[4] == '-' && FormatDate(d)[7] == '-'
  {
    assert Pow10(2) == 100 && Pow10(3) == 1000 && Pow10(4) == 10000;
    NatToStringLength(d.year, 4);
    NatToStringLength(d.year, 3);
    NatToStringLength(d.month, 2);
    NatToStringLength(d.day, 2);
    assert |ZeroPad(d.year, 4)| == 4;
    assert |ZeroPad(d.month, 2)| == 2;
    assert |ZeroPad(d.day, 2)| == 2;
  }
}
