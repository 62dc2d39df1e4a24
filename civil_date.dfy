/** Calendar arithmetic of the JavaScript `Date` object, restricted to whole days.

    A date is the number of days since 1970-01-01 (day 0), as `getTime()` divided by
    the milliseconds in a day. Months are numbered 0..11 as `getMonth()` returns them
    and days of the month 1..31 as `getDate()` returns them. A month index
    `12 * year + month` names a month without a separate year. */
module CivilDate {

  /** A date: whole days since 1970-01-01. */
  type Day = int

  predicate IsLeapYear(y: int) {
    y % 4 == 0 && (y % 100 != 0 || y % 400 == 0)
  }

  function DaysInYear(y: int): int {
    if IsLeapYear(y) then 366 else 365
  }

  /** Day number of January 1st of year `y` (the DayFromYear formula of ECMAScript). */
  function DayFromYear(y: int): int {
    365 * (y - 1970) + (y - 1969) / 4 - (y - 1901) / 100 + (y - 1601) / 400
  }

  /** Lengths of the months of a common year, January first. */
  const CommonMonthLengths: seq<int> := [31, 28, 31, 30, 31, 30, 31, 31, 30, 31, 30, 31]

  /** Days of a common year before the first of each month. */
  const CommonDaysBefore: seq<int> := [0, 31, 59, 90, 120, 151, 181, 212, 243, 273, 304, 334]

  function DaysInMonth(y: int, m: int): (n: int)
    requires 0 <= m < 12
    ensures 28 <= n <= 31
  {
    CommonMonthLengths[m] + (if m == 1 && IsLeapYear(y) then 1 else 0)
  }

  /** Days of year `y` that lie before the first of month `m`. */
  function DaysBeforeMonth(y: int, m: int): int
    requires 0 <= m < 12
  {
    CommonDaysBefore[m] + (if m >= 2 && IsLeapYear(y) then 1 else 0)
  }

  /** Length of the month with month index `mi`. */
  function MonthLength(mi: int): (n: int)
    ensures 28 <= n <= 31
  {
    DaysInMonth(mi / 12, mi % 12)
  }

  /** Day number of the first day of the month with month index `mi`. */
  function FirstOfMonth(mi: int): Day {
    DayFromYear(mi / 12) + DaysBeforeMonth(mi / 12, mi % 12)
  }

  /** The MakeDay operation of ECMAScript: the day `date - 1` days after the first of
      month `month` of `year`, where `month` and `date` may lie outside their usual
      ranges (this is how `setDate` and `setMonth` normalise an overflow). */
  function MakeDay(year: int, month: int, date: int): Day {
    FirstOfMonth(12 * year + month) + date - 1
  }

  /** The broken-down form of a date, as getFullYear/getMonth/getDate return it. */
  datatype Civil = Civil(year: int, month: int, date: int)

  predicate ValidCivil(c: Civil) {
    0 <= c.month < 12 && 1 <= c.date <= DaysInMonth(c.year, c.month)
  }

  function MonthIndex(c: Civil): int {
    12 * c.year + c.month
  }

  function DayOf(c: Civil): Day {
    MakeDay(c.year, c.month, c.date)
  }

  lemma YearStep(y: int)
    ensures DayFromYear(y + 1) == DayFromYear(y) + DaysInYear(y)
  {
    LeapDayCounts(y);
    var c4 := if y % 4 == 0 then 1 else 0;
    var c100 := if y % 100 == 0 then 1 else 0;
    var c400 := if y % 400 == 0 then 1 else 0;
    assert DayFromYear(y + 1) - DayFromYear(y) == 365 + c4 - c100 + c400;
    DivisibilityChain(y);
  }

  /** A multiple of 400 is a multiple of 100, and a multiple of 100 a multiple of 4. */
  lemma DivisibilityChain(y: int)
    ensures y % 400 == 0 ==> y % 100 == 0
    ensures y % 100 == 0 ==> y % 4 == 0
  {
    var q400, q100 := y / 400, y / 100;
    assert y == 400 * q400 + y % 400;
    assert y == 100 * q100 + y % 100;
    if y % 400 == 0 {
      MultipleOf100(4 * q400, y);
    }
    if y % 100 == 0 {
      MultipleOf4(25 * q100, y);
    }
  }

  lemma MultipleOf100(j: int, y: int)
    requires y == 100 * j
    ensures y % 100 == 0
  {
  }

  lemma MultipleOf4(j: int, y: int)
    requires y == 4 * j
    ensures y % 4 == 0
  {
  }

  /** The three correction terms of DayFromYear, from year `y` to year `y + 1`: each
      goes up by one exactly in a year divisible by 4, 100 or 400 respectively. */
  lemma LeapDayCounts(y: int)
    ensures (y - 1968) / 4 == (y - 1969) / 4 + (if y % 4 == 0 then 1 else 0)
    ensures (y - 1900) / 100 == (y - 1901) / 100 + (if y % 100 == 0 then 1 else 0)
    ensures (y - 1600) / 400 == (y - 1601) / 400 + (if y % 400 == 0 then 1 else 0)
  {
    QuadrennialStep(y);
    CentennialStep(y);
    QuadricentennialStep(y);
  }

  lemma QuadrennialStep(y: int)
    ensures (y - 1968) / 4 == (y - 1969) / 4 + (if y % 4 == 0 then 1 else 0)
  {
    var q, r := (y - 1969) / 4, (y - 1969) % 4;
    var p, m := y / 4, y % 4;
    assert y - 1969 == 4 * q + r && 0 <= r < 4;
    assert y == 4 * p + m && 0 <= m < 4;
    if r == 3 {
      assert y - 1968 == 4 * (q + 1);
      assert m == 0;
    } else {
      assert y - 1968 == 4 * q + (r + 1);
      assert m != 0;
    }
  }

  lemma CentennialStep(y: int)
    ensures (y - 1900) / 100 == (y - 1901) / 100 + (if y % 100 == 0 then 1 else 0)
  {
    var q, r := (y - 1901) / 100, (y - 1901) % 100;
    var p, m := y / 100, y % 100;
    assert y - 1901 == 100 * q + r && 0 <= r < 100;
    assert y == 100 * p + m && 0 <= m < 100;
    if r == 99 {
      assert y - 1900 == 100 * (q + 1);
      assert m == 0;
    } else {
      assert y - 1900 == 100 * q + (r + 1);
      assert m != 0;
    }
  }

  lemma QuadricentennialStep(y: int)
    ensures (y - 1600) / 400 == (y - 1601) / 400 + (if y % 400 == 0 then 1 else 0)
  {
    var q, r := (y - 1601) / 400, (y - 1601) % 400;
    var p, m := y / 400, y % 400;
    assert y - 1601 == 400 * q + r && 0 <= r < 400;
    assert y == 400 * p + m && 0 <= m < 400;
    if r == 399 {
      assert y - 1600 == 400 * (q + 1);
      assert m == 0;
    } else {
      assert y - 1600 == 400 * q + (r + 1);
      assert m != 0;
    }
  }

  /** Consecutive months are adjacent: the next month starts right after this one ends. */
  lemma FirstOfMonthStep(mi: int)
    ensures FirstOfMonth(mi + 1) == FirstOfMonth(mi) + MonthLength(mi)
  {
    if mi % 12 == 11 {
      assert (mi + 1) / 12 == mi / 12 + 1 && (mi + 1) % 12 == 0;
      YearStep(mi / 12);
    } else {
      assert (mi + 1) / 12 == mi / 12 && (mi + 1) % 12 == mi % 12 + 1;
    }
  }

  /** The month before `mi` ends right where `mi` starts. */
  lemma FirstOfMonthBefore(mi: int)
    ensures FirstOfMonth(mi - 1) + MonthLength(mi - 1) == FirstOfMonth(mi)
  {
    var p := mi - 1;
    FirstOfMonthStep(p);
    assert p + 1 == mi;
  }

  /** Between the firsts of two months lie between 28 and 31 days per month. */
  lemma {:induction false} FirstOfMonthGrowth(a: int, b: int)
    requires a <= b
    ensures 28 * (b - a) <= FirstOfMonth(b) - FirstOfMonth(a) <= 31 * (b - a)
    decreases b - a
  {
    if a < b {
      FirstOfMonthGrowth(a, b - 1);
      FirstOfMonthStep(b - 1);
    }
  }

  lemma MonthIndexRoundTrip(c: Civil)
    requires ValidCivil(c)
    ensures MonthIndex(c) / 12 == c.year && MonthIndex(c) % 12 == c.month
    ensures MonthLength(MonthIndex(c)) == DaysInMonth(c.year, c.month)
    ensures DayOf(c) == FirstOfMonth(MonthIndex(c)) + c.date - 1
  {
  }

  /** The valid civil date on the day MakeDay gives for month index `mi` and day `date`.
      Moves whole months backwards or forwards until `date` fits its month. */
  function Normalize(mi: int, date: int): (c: Civil)
    ensures ValidCivil(c)
    ensures DayOf(c) == FirstOfMonth(mi) + date - 1
    decreases if date < 1 then 1 - date else 0, date
  {
    if date < 1 then
      FirstOfMonthBefore(mi);
      Normalize(mi - 1, date + MonthLength(mi - 1))
    else if date > MonthLength(mi) then
      FirstOfMonthStep(mi);
      Normalize(mi + 1, date - MonthLength(mi))
    else
      CivilOfMonthIndex(mi, date);
      Civil(mi / 12, mi % 12, date)
  }

  /** A day inside month `mi`, broken down into year, month and day of the month. */
  lemma CivilOfMonthIndex(mi: int, date: int)
    requires 1 <= date <= MonthLength(mi)
    ensures ValidCivil(Civil(mi / 12, mi % 12, date))
    ensures DayOf(Civil(mi / 12, mi % 12, date)) == FirstOfMonth(mi) + date - 1
  {
    assert 12 * (mi / 12) + mi % 12 == mi;
  }

  /** The broken-down form of day `n`. */
  function ToCivil(n: Day): (c: Civil)
    ensures ValidCivil(c) && DayOf(c) == n
  {
    EpochIsDayZero();
    Normalize(12 * 1970, n + 1)
  }

  lemma EpochIsDayZero()
    ensures FirstOfMonth(12 * 1970) == 0
  {
  }

  /** A valid date lies inside its own month. */
  lemma DayInItsMonth(c: Civil)
    requires ValidCivil(c)
    ensures FirstOfMonth(MonthIndex(c)) <= DayOf(c) < FirstOfMonth(MonthIndex(c) + 1)
  {
    MonthIndexRoundTrip(c);
    FirstOfMonthStep(MonthIndex(c));
  }

  /** Days in an earlier month come before days in a later month. */
  lemma EarlierMonthEarlierDay(c1: Civil, c2: Civil)
    requires ValidCivil(c1) && ValidCivil(c2) && MonthIndex(c1) < MonthIndex(c2)
    ensures DayOf(c1) < DayOf(c2)
  {
    DayInItsMonth(c1);
    DayInItsMonth(c2);
    FirstOfMonthGrowth(MonthIndex(c1) + 1, MonthIndex(c2));
  }

  /** Distinct valid civil dates name distinct days. */
  lemma CivilInjective(c1: Civil, c2: Civil)
    requires ValidCivil(c1) && ValidCivil(c2) && DayOf(c1) == DayOf(c2)
    ensures c1 == c2
  {
    if MonthIndex(c1) < MonthIndex(c2) {
      EarlierMonthEarlierDay(c1, c2);
    } else if MonthIndex(c2) < MonthIndex(c1) {
      EarlierMonthEarlierDay(c2, c1);
    } else {
      MonthIndexRoundTrip(c1);
      MonthIndexRoundTrip(c2);
    }
  }

  /** ToCivil recovers the broken-down form of every valid date. */
  lemma ToCivilOfDay(c: Civil)
    requires ValidCivil(c)
    ensures ToCivil(DayOf(c)) == c
  {
    CivilInjective(ToCivil(DayOf(c)), c);
  }

  /** `setMonth(getMonth() + k)` on the broken-down date `c`: keep the day of the month
      and move `k` months; a day the target month does not have overflows into the
      following month. */
  function ShiftMonths(c: Civil, k: int): Day {
    MakeDay(c.year, c.month + k, c.date)
  }

  /** `setMonth(getMonth() + k)` on day `n`. */
  function AddMonths(n: Day, k: int): Day {
    ShiftMonths(ToCivil(n), k)
  }

  /** Moving `k` months moves a date by exactly the days between the firsts of the
      two months. */
  lemma ShiftMonthsDistance(c: Civil, k: int)
    requires ValidCivil(c)
    ensures ShiftMonths(c, k) - DayOf(c) == FirstOfMonth(MonthIndex(c) + k) - FirstOfMonth(MonthIndex(c))
  {
    MonthIndexRoundTrip(c);
    assert 12 * c.year + (c.month + k) == MonthIndex(c) + k;
  }

  /** The firsts of any two months lie 28 to 31 days per month apart, in the
      direction from `a` to `b`. */
  lemma FirstOfMonthDistance(a: int, b: int)
    ensures a <= b ==> 28 * (b - a) <= FirstOfMonth(b) - FirstOfMonth(a) <= 31 * (b - a)
    ensures b < a ==> 31 * (b - a) <= FirstOfMonth(b) - FirstOfMonth(a) <= 28 * (b - a)
  {
    if a <= b {
      FirstOfMonthGrowth(a, b);
    } else {
      FirstOfMonthGrowth(b, a);
    }
  }

  /** Moving `k` months moves the date by between 28 and 31 days per month, in the
      direction of `k`. */
  lemma AddMonthsDistance(n: Day, k: int)
    ensures k >= 0 ==> 28 * k <= AddMonths(n, k) - n <= 31 * k
    ensures k < 0 ==> 31 * k <= AddMonths(n, k) - n <= 28 * k
  {
    ShiftMonthsBounds(ToCivil(n), k);
  }

  /** The same bounds for a broken-down date. */
  lemma ShiftMonthsBounds(c: Civil, k: int)
    requires ValidCivil(c)
    ensures k >= 0 ==> 28 * k <= ShiftMonths(c, k) - DayOf(c) <= 31 * k
    ensures k < 0 ==> 31 * k <= ShiftMonths(c, k) - DayOf(c) <= 28 * k
  {
    var a, b := MonthIndex(c), MonthIndex(c) + k;
    var d := FirstOfMonth(b) - FirstOfMonth(a);
    assert ShiftMonths(c, k) - DayOf(c) == d by {
      ShiftMonthsDistance(c, k);
    }
    FirstOfMonthDistance(a, b);
  }

  /** One month forward moves a date by exactly the length of its own month. */
  lemma AddOneMonth(n: Day)
    ensures AddMonths(n, 1) == n + MonthLength(MonthIndex(ToCivil(n)))
  {
    var c := ToCivil(n);
    ShiftMonthsDistance(c, 1);
    FirstOfMonthStep(MonthIndex(c));
  }

  /** When the target month has the day, `setMonth` keeps the day of the month. */
  lemma ShiftMonthsKeepsDate(c: Civil, k: int)
    requires ValidCivil(c)
    requires c.date <= MonthLength(MonthIndex(c) + k)
    ensures var mi := MonthIndex(c) + k;
      ToCivil(ShiftMonths(c, k)) == Civil(mi / 12, mi % 12, c.date)
  {
    var mi := MonthIndex(c) + k;
    var t := Civil(mi / 12, mi % 12, c.date);
    assert 12 * t.year + t.month == mi;
    assert 12 * c.year + (c.month + k) == mi;
    assert ShiftMonths(c, k) == DayOf(t);
    ToCivilOfDay(t);
  }

  /** The day after the last of February, counted on from January 31st. */
  lemma January31Overflow(y: int)
    ensures ShiftMonths(Civil(y, 0, 31), 1) == DayOf(Civil(y, 2, if IsLeapYear(y) then 2 else 3))
  {
    FebruaryLength(y);
    JanuaryShift(y);
    MarchDay(y, if IsLeapYear(y) then 2 else 3);
  }

  lemma FebruaryLength(y: int)
    ensures MonthLength(12 * y + 1) == if IsLeapYear(y) then 29 else 28
  {
    var feb := 12 * y + 1;
    assert feb / 12 == y && feb % 12 == 1;
  }

  lemma JanuaryShift(y: int)
    ensures ShiftMonths(Civil(y, 0, 31), 1) == FirstOfMonth(12 * y + 1) + 30
  {
  }

  lemma MarchDay(y: int, d: int)
    ensures DayOf(Civil(y, 2, d)) == FirstOfMonth(12 * y + 1) + MonthLength(12 * y + 1) + d - 1
  {
    var feb := 12 * y + 1;
    FirstOfMonthStep(feb);
    assert feb + 1 == 12 * y + 2;
  }

  /** January 31st plus one month is March 3rd, or March 2nd in a leap year. */
  lemma January31PlusOneMonth(y: int)
    ensures ToCivil(AddMonths(MakeDay(y, 0, 31), 1))
         == Civil(y, 2, if IsLeapYear(y) then 2 else 3)
  {
    ToCivilOfDay(Civil(y, 0, 31));
    January31Overflow(y);
    ToCivilOfDay(Civil(y, 2, if IsLeapYear(y) then 2 else 3));
  }

  /** `getDay()`: 0 is Sunday; 1970-01-01 was a Thursday. */
  function WeekDay(n: Day): (w: int)
    ensures 0 <= w < 7
  {
    (n + 4) % 7
  }
}
