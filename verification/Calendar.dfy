/** Calendar days in the proleptic Gregorian calendar of ISO 8601, counted from 1 January of year 1. */
module Calendar {

  /** A calendar day: the number of days since 1 January of year 1. */
  type Day = int

  /** A day as written: year, month 1-12, day of the month. */
  datatype Civil = Civil(year: int, month: int, day: int)

  predicate IsLeap(y: int) {
    y % 4 == 0 && (y % 100 != 0 || y % 400 == 0)
  }

  function DaysIn(leap: bool, m: int): (n: int)
    requires 1 <= m <= 12
    ensures 28 <= n <= 31
  {
    if m == 2 then (if leap then 29 else 28)
    else if m == 4 || m == 6 || m == 9 || m == 11 then 30
    else 31
  }

  /** Days of a year before month m; month 13 is the end of the year. */
  function DaysBeforeMonth(leap: bool, m: int): (n: int)
    requires 1 <= m <= 13
    ensures 0 <= n
  {
    if m == 1 then 0 else DaysBeforeMonth(leap, m - 1) + DaysIn(leap, m - 1)
  }

  /** Days before 1 January of year y. */
  function DaysBeforeYear(y: int): int {
    365 * (y - 1) + (y - 1) / 4 - (y - 1) / 100 + (y - 1) / 400
  }

  predicate ValidCivil(c: Civil) {
    1 <= c.month <= 12 && 1 <= c.day <= DaysIn(IsLeap(c.year), c.month)
  }

  /** The day a year, month and day name; out-of-range months and days carry over. */
  function Date(year: int, month: int, day: int): Day {
    var y := year + (month - 1) / 12;
    var m := (month - 1) % 12 + 1;
    DaysBeforeYear(y) + DaysBeforeMonth(IsLeap(y), m) + day - 1
  }

  /** A day split into 400-, 100-, 4- and 1-year cycles and the days left over. */
  datatype Cycles = Cycles(q400: int, q100: int, q4: int, q1: int, rest: int)

  function CyclesOf(n: Day): (c: Cycles)
    ensures 0 <= c.q100 <= 3 && 0 <= c.q4 <= 24 && 0 <= c.q1 <= 3 && 0 <= c.rest <= 365
    ensures n == 146097 * c.q400 + 36524 * c.q100 + 1461 * c.q4 + 365 * c.q1 + c.rest
    ensures c.rest == 365 ==> c.q1 == 3 && (c.q4 < 24 || c.q100 == 3)
  {
    var q400, r400 := n / 146097, n % 146097;
    var q100 := if r400 / 36524 > 3 then 3 else r400 / 36524;
    var r100 := r400 - 36524 * q100;
    var q4, r4 := r100 / 1461, r100 % 1461;
    var q1 := if r4 / 365 > 3 then 3 else r4 / 365;
    Cycles(q400, q100, q4, q1, r4 - 365 * q1)
  }

  function CyclesYear(c: Cycles): int {
    400 * c.q400 + 100 * c.q100 + 4 * c.q4 + c.q1 + 1
  }

  function YearOf(n: Day): (y: int)
    ensures DaysBeforeYear(y) <= n < DaysBeforeYear(y) + DaysBeforeMonth(IsLeap(y), 13)
  {
    YearBounds(n);
    CyclesYear(CyclesOf(n))
  }

  /** The latest month, at most m, that starts on or before day yday of its year. */
  function MonthOf(leap: bool, yday: int, m: int): (r: int)
    requires 1 <= m <= 12 && 0 <= yday < DaysBeforeMonth(leap, m + 1)
    ensures 1 <= r <= m && DaysBeforeMonth(leap, r) <= yday < DaysBeforeMonth(leap, r) + DaysIn(leap, r)
    decreases m
  {
    if DaysBeforeMonth(leap, m) <= yday then m else MonthOf(leap, yday, m - 1)
  }

  /** How a day is written. */
  function CivilOf(n: Day): (c: Civil)
    ensures ValidCivil(c)
  {
    var y := YearOf(n);
    var yday := n - DaysBeforeYear(y);
    var m := MonthOf(IsLeap(y), yday, 12);
    Civil(y, m, yday - DaysBeforeMonth(IsLeap(y), m) + 1)
  }

  /** The same month and day some years away, as date arithmetic carries it over. */
  function AddYears(n: Day, years: int): Day {
    var c := CivilOf(n);
    Date(c.year + years, c.month, c.day)
  }

  // ----- Years tile the day line

  lemma MonthStarts(leap: bool)
    ensures var extra := if leap then 1 else 0;
            && DaysBeforeMonth(leap, 2) == 31
            && DaysBeforeMonth(leap, 3) == 59 + extra
            && DaysBeforeMonth(leap, 13) == 365 + extra
  {
    assert DaysBeforeMonth(leap, 4) == DaysBeforeMonth(leap, 3) + 31;
    assert DaysBeforeMonth(leap, 6) == DaysBeforeMonth(leap, 4) + 61;
    assert DaysBeforeMonth(leap, 8) == DaysBeforeMonth(leap, 6) + 61;
    assert DaysBeforeMonth(leap, 10) == DaysBeforeMonth(leap, 8) + 61;
    assert DaysBeforeMonth(leap, 12) == DaysBeforeMonth(leap, 10) + 61;
  }

  lemma DivisionStep(y: int, k: int)
    requires k == 4 || k == 100 || k == 400
    ensures y / k - (y - 1) / k == if y % k == 0 then 1 else 0
  {}

  lemma CenturiesDivide(y: int)
    ensures y % 400 == 0 ==> y % 100 == 0
    ensures y % 100 == 0 ==> y % 4 == 0
  {
    if y % 400 == 0 { RemainderIs(y, 100, 4 * (y / 400), 0); }
    if y % 100 == 0 { RemainderIs(y, 4, 25 * (y / 100), 0); }
  }

  function One(b: bool): int { if b then 1 else 0 }

  lemma YearStep(y: int)
    ensures DaysBeforeYear(y + 1) - DaysBeforeYear(y) == 365 + One(y % 4 == 0) - One(y % 100 == 0) + One(y % 400 == 0)
  {
    DivisionStep(y, 4);
    DivisionStep(y, 100);
    DivisionStep(y, 400);
  }

  lemma YearLength(y: int)
    ensures DaysBeforeYear(y + 1) == DaysBeforeYear(y) + DaysBeforeMonth(IsLeap(y), 13)
  {
    MonthStarts(IsLeap(y));
    CenturiesDivide(y);
    YearStep(y);
  }

  lemma CyclesStart(c: Cycles)
    requires 0 <= c.q100 <= 3 && 0 <= c.q4 <= 24 && 0 <= c.q1 <= 3
    ensures DaysBeforeYear(CyclesYear(c)) == 146097 * c.q400 + 36524 * c.q100 + 1461 * c.q4 + 365 * c.q1
  {
    var z := CyclesYear(c) - 1;
    assert z / 4 == 100 * c.q400 + 25 * c.q100 + c.q4;
    assert z / 100 == 4 * c.q400 + c.q100;
    assert z / 400 == c.q400;
  }

  lemma RemainderIs(y: int, k: int, q: int, r: int)
    requires k == 4 || k == 100 || k == 400
    requires y == k * q + r && 0 <= r < k
    ensures y % k == r
  {}

  /** The last year of a four-year cycle is leap, unless the century says otherwise. */
  lemma CycleEndIsLeap(c: Cycles)
    requires c.q1 == 3 && 0 <= c.q100 <= 3 && 0 <= c.q4 <= 24 && (c.q4 < 24 || c.q100 == 3)
    ensures IsLeap(CyclesYear(c))
  {
    var y := CyclesYear(c);
    RemainderIs(y, 4, 100 * c.q400 + 25 * c.q100 + c.q4 + 1, 0);
    if c.q4 < 24 {
      RemainderIs(y, 100, 4 * c.q400 + c.q100, 4 * (c.q4 + 1));
    } else {
      RemainderIs(y, 400, c.q400 + 1, 0);
    }
  }

  lemma YearBounds(n: Day)
    ensures var y := CyclesYear(CyclesOf(n));
            DaysBeforeYear(y) <= n < DaysBeforeYear(y) + DaysBeforeMonth(IsLeap(y), 13)
  {
    var c := CyclesOf(n);
    CyclesStart(c);
    MonthStarts(IsLeap(CyclesYear(c)));
    if c.rest == 365 {
      CycleEndIsLeap(c);
    }
  }

  lemma {:induction false} YearsIncrease(a: int, b: int)
    requires a < b
    ensures DaysBeforeYear(a) + DaysBeforeMonth(IsLeap(a), 13) <= DaysBeforeYear(b)
    decreases b - a
  {
    YearLength(a);
    if a + 1 < b {
      YearsIncrease(a + 1, b);
    }
  }

  lemma {:induction false} MonthsIncrease(leap: bool, a: int, b: int)
    requires 1 <= a < b <= 13
    ensures DaysBeforeMonth(leap, a) + DaysIn(leap, a) <= DaysBeforeMonth(leap, b)
    decreases b
  {
    if a + 1 < b {
      MonthsIncrease(leap, a, b - 1);
    }
  }

  lemma DateOfValid(c: Civil)
    requires ValidCivil(c)
    ensures Date(c.year, c.month, c.day) ==
            DaysBeforeYear(c.year) + DaysBeforeMonth(IsLeap(c.year), c.month) + c.day - 1
  {
    hide DaysBeforeYear, DaysBeforeMonth, IsLeap;
  }

  predicate Before(a: Civil, b: Civil) {
    a.year < b.year || (a.year == b.year && (a.month < b.month || (a.month == b.month && a.day < b.day)))
  }

  lemma BeforeIsEarlier(a: Civil, b: Civil)
    requires ValidCivil(a) && ValidCivil(b) && Before(a, b)
    ensures Date(a.year, a.month, a.day) < Date(b.year, b.month, b.day)
  {
    DateOfValid(a);
    DateOfValid(b);
    if a.year < b.year {
      YearsIncrease(a.year, b.year);
      MonthsIncrease(IsLeap(a.year), a.month, 13);
    } else if a.month < b.month {
      MonthsIncrease(IsLeap(a.year), a.month, b.month);
    }
  }

  /** Valid dates are ordered as they are written. */
  lemma DateOrder(a: Civil, b: Civil)
    requires ValidCivil(a) && ValidCivil(b)
    ensures Date(a.year, a.month, a.day) < Date(b.year, b.month, b.day) <==> Before(a, b)
  {
    if Before(a, b) {
      BeforeIsEarlier(a, b);
    } else if a != b {
      BeforeIsEarlier(b, a);
    }
  }

  /** A day is the day its written form names. */
  lemma DateOfCivil(n: Day)
    ensures var c := CivilOf(n); Date(c.year, c.month, c.day) == n
  {
    DateOfValid(CivilOf(n));
  }

  /** Writing a day that was named by a valid date gives that date back. */
  lemma CivilOfDate(c: Civil)
    requires ValidCivil(c)
    ensures CivilOf(Date(c.year, c.month, c.day)) == c
  {
    var n := Date(c.year, c.month, c.day);
    DateOfCivil(n);
    DateOrder(c, CivilOf(n));
    DateOrder(CivilOf(n), c);
  }

  lemma DayOrder(a: Day, b: Day)
    ensures a < b <==> Before(CivilOf(a), CivilOf(b))
  {
    DateOfCivil(a);
    DateOfCivil(b);
    DateOrder(CivilOf(a), CivilOf(b));
  }

  /** 29 February of a common year is 1 March. */
  lemma LeapDayCarries(y: int)
    requires !IsLeap(y)
    ensures Date(y, 2, 29) == Date(y, 3, 1)
  {
    hide DaysBeforeYear, DaysBeforeMonth;
    MonthStarts(false);
  }

  /** The lengths of the months, by the Gregorian rule for leap years. */
  lemma MonthLengths(y: int, m: int)
    requires 1 <= m <= 12
    ensures var feb := if y % 4 == 0 && (y % 100 != 0 || y % 400 == 0) then 29 else 28;
            Date(y, m + 1, 1) - Date(y, m, 1) == [31, feb, 31, 30, 31, 30, 31, 31, 30, 31, 30, 31][m - 1]
  {
    hide DaysBeforeYear;
    assert Date(y, m, 1) == DaysBeforeYear(y) + DaysBeforeMonth(IsLeap(y), m);
    if m == 12 {
      YearLength(y);
      assert Date(y, 13, 1) == DaysBeforeYear(y + 1) by { assert DaysBeforeMonth(IsLeap(y + 1), 1) == 0; }
    } else {
      assert Date(y, m + 1, 1) == DaysBeforeYear(y) + DaysBeforeMonth(IsLeap(y), m + 1);
    }
  }

  /** Months carry over into years, and days into months. */
  lemma DatesCarry(y: int, m: int, d: int, years: int)
    ensures Date(y, m + 12 * years, d) == Date(y + years, m, d)
    ensures Date(y, m, d) == Date(y, m, 1) + d - 1
  {
    hide DaysBeforeYear, DaysBeforeMonth, IsLeap;
    assert (m + 12 * years - 1) / 12 == (m - 1) / 12 + years;
    assert (m + 12 * years - 1) % 12 == (m - 1) % 12;
  }

  lemma UnixEpoch()
    ensures Date(1970, 1, 1) == 719162
  {}
}
