/** The canonical entry line, the edit window, and the day boundary at which a year-less date drifts. */
module Canonical {
  import opened Text
  import opened Options
  import opened Sequences
  import opened Amounts
  import opened Calendar
  import opened Records
  import opened Parsing

  /** DD/MM without leading zeros. */
  function DayMonthText(date: Day): string {
    var c := CivilOf(date);
    Decimal(c.day) + "/" + Decimal(c.month)
  }

  function EntryLineParts(b: Entry, amount: string): seq<string> {
    [amount]
    + (if b.description != "" then [b.description] else [])
    + [DayMonthText(b.date)]
    + (if b.account.Some? && b.account.value != "" then ["@" + b.account.value] else [])
  }

  function ExpenseLine(e: Expense): string {
    Join(EntryLineParts(e.base, (if e.settlement then "=" else "") + FormatAmount(e.base.amount)))
  }

  function IncomeLine(i: Income): string {
    Join(EntryLineParts(i.base, (if i.settlement then "=" else "+") + FormatAmount(i.base.amount)))
  }

  /** A record may be edited while it is dated strictly after the same day one year before today. */
  predicate Editable(date: Day, today: Day) {
    date > AddYears(today, -1)
  }

  // ----- When DD/MM names the same day again

  /** The date a month and day land on in some year: 29 February becomes 1 March in a common year. */
  function Landing(year: int, c: Civil): (r: Civil)
    requires ValidCivil(c)
    ensures ValidCivil(r)
  {
    if c.month == 2 && c.day == 29 && !IsLeap(year) then Civil(year, 3, 1) else Civil(year, c.month, c.day)
  }

  lemma LandingIsDate(year: int, c: Civil)
    requires ValidCivil(c)
    ensures CivilOf(Date(year, c.month, c.day)) == Landing(year, c)
  {
    if c.month == 2 && c.day == 29 && !IsLeap(year) {
      LeapDayCarries(year);
    }
    CivilOfDate(Landing(year, c));
  }

  /** The written form of what DD/MM resolves to. */
  function LandingAsOf(c: Civil, today: Civil): Civil
    requires ValidCivil(c) && ValidCivil(today)
  {
    var candidate := Landing(today.year, c);
    if Before(today, candidate) then Landing(today.year - 1, candidate) else candidate
  }

  lemma YearBackLands(n: Day)
    ensures CivilOf(AddYears(n, -1)) == Landing(CivilOf(n).year - 1, CivilOf(n))
  {
    hide CivilOf, Date, DaysBeforeYear, Landing;
    LandingIsDate(CivilOf(n).year - 1, CivilOf(n));
  }

  lemma DayMonthLands(c: Civil, today: Day)
    requires ValidCivil(c)
    ensures CivilOf(ResolveDayMonth(c.day, c.month, today)) == LandingAsOf(c, CivilOf(today))
  {
    hide CivilOf, Date, DaysBeforeYear;
    var year := CivilOf(today).year;
    var candidate := Date(year, c.month, c.day);
    LandingIsDate(year, c);
    DayOrder(today, candidate);
    YearBackLands(candidate);
  }

  lemma EditableIs(x: Day, today: Day)
    ensures Editable(x, today) <==> Before(Landing(CivilOf(today).year - 1, CivilOf(today)), CivilOf(x))
  {
    YearBackLands(today);
    DayOrder(AddYears(today, -1), x);
  }

  lemma SameDay(a: Day, b: Day)
    ensures a == b <==> CivilOf(a) == CivilOf(b)
  {
    DateOfCivil(a);
    DateOfCivil(b);
  }

  predicate IsLeapDayOfPreviousYear(x: Day, today: Day) {
    CivilOf(x) == Civil(CivilOf(today).year - 1, 2, 29)
  }

  /** 1 March a year before a 29 February. */
  predicate IsMarchFirstBeforeLeapDay(x: Day, today: Day) {
    var t := CivilOf(today);
    t.month == 2 && t.day == 29 && CivilOf(x) == Civil(t.year - 1, 3, 1)
  }

  /** The day a record is dated when its DD/MM is read back. */
  function Redated(x: Day, today: Day): Day {
    var c := CivilOf(x);
    ResolveDayMonth(c.day, c.month, today)
  }

  /** The boundary in written dates alone. */
  lemma LandingAsOfIsItself(c: Civil, t: Civil)
    requires ValidCivil(c) && ValidCivil(t)
    ensures LandingAsOf(c, t) == c <==>
            && !Before(t, c)
            && ((Before(Landing(t.year - 1, t), c) && c != Civil(t.year - 1, 2, 29))
                || (t.month == 2 && t.day == 29 && c == Civil(t.year - 1, 3, 1)))
  {}

  lemma LandingAsOfIsRecent(c: Civil, t: Civil)
    requires ValidCivil(c) && ValidCivil(t)
    ensures !Before(t, LandingAsOf(c, t)) && LandingAsOf(c, t).year >= t.year - 1
  {}

  /** A year-less date reads back to its own day exactly when that day is not in the future and the
      edit window holds it, apart from the two leap-day exceptions. */
  lemma DriftBoundary(x: Day, today: Day)
    ensures Redated(x, today) == x <==>
            && x <= today
            && ((Editable(x, today) && !IsLeapDayOfPreviousYear(x, today)) || IsMarchFirstBeforeLeapDay(x, today))
  {
    hide CivilOf, Date, DaysBeforeYear;
    DayMonthLands(CivilOf(x), today);
    EditableIs(x, today);
    SameDay(Redated(x, today), x);
    DayOrder(today, x);
    LandingAsOfIsItself(CivilOf(x), CivilOf(today));
  }

  /** A year-less date of a real day never reads back to the future, nor to before last year. */
  lemma RedatedIsRecent(x: Day, today: Day)
    ensures Redated(x, today) <= today
    ensures CivilOf(Redated(x, today)).year >= CivilOf(today).year - 1
  {
    DayMonthLands(CivilOf(x), today);
    DayOrder(today, Redated(x, today));
    LandingAsOfIsRecent(CivilOf(x), CivilOf(today));
  }

  // ----- When DD/MM is the most recent occurrence

  /** A day that falls on a day and month as written. */
  predicate IsOccurrence(day: int, month: int, x: Day) {
    CivilOf(x).day == day && CivilOf(x).month == month
  }

  /** The documented reading of DD/MM: the latest day up to today that falls on it. */
  ghost predicate IsMostRecentOccurrence(day: int, month: int, x: Day, today: Day) {
    IsOccurrence(day, month, x) && x <= today && forall y :: IsOccurrence(day, month, y) && y <= today ==> y <= x
  }

  /** Whether some year has the day and month: the 29 February of a leap year counts. */
  predicate InCalendar(day: int, month: int) {
    1 <= month <= 12 && 1 <= day <= DaysIn(true, month)
  }

  /** DD/MM resolves to the most recent occurrence of its day and month exactly when they are in the
      calendar and are not 29 February, or today is in a leap year on or after its 29 February. */
  lemma DayMonthIsMostRecent(day: int, month: int, today: Day)
    ensures var t := CivilOf(today);
            IsMostRecentOccurrence(day, month, ResolveDayMonth(day, month, today), today) <==>
              && InCalendar(day, month)
              && (day == 29 && month == 2 ==> IsLeap(t.year) && !Before(t, Civil(t.year, 2, 29)))
  {
    hide CivilOf, Date, DaysBeforeYear, ResolveDayMonth, LandingAsOf;
    var t, r := CivilOf(today), ResolveDayMonth(day, month, today);
    if InCalendar(day, month) {
      var c := Civil(2000, month, day);
      DayMonthLands(c, today);
      LandingAsOfOccurs(c, t);
      LandingAsOfIsRecent(c, t);
      DayOrder(today, r);
      forall y | IsOccurrence(day, month, y) && y <= today ensures y <= r {
        DayOrder(today, y);
        DayOrder(r, y);
        assert CivilOf(y) == Civil(CivilOf(y).year, month, day);
        LandingAsOfIsLatest(c, CivilOf(y).year, t);
      }
    }
  }

  lemma LandingAsOfOccurs(c: Civil, t: Civil)
    requires ValidCivil(c) && ValidCivil(t)
    ensures var r := LandingAsOf(c, t);
            r.month == c.month && r.day == c.day <==>
              (c.day == 29 && c.month == 2 ==> IsLeap(t.year) && !Before(t, Civil(t.year, 2, 29)))
  {}

  /** 29/2 as read on 1 May 2023: 1 March of that year, which is not a 29 February. */
  lemma LeapDayIsMisread()
    ensures var today := Date(2023, 5, 1);
            && CivilOf(ResolveDayMonth(29, 2, today)) == Civil(2023, 3, 1)
            && !IsMostRecentOccurrence(29, 2, ResolveDayMonth(29, 2, today), today)
  {
    hide Date, CivilOf, DaysBeforeYear, ResolveDayMonth;
    var today := Date(2023, 5, 1);
    CivilOfDate(Civil(2023, 5, 1));
    DayMonthLands(Civil(2000, 2, 29), today);
    DayMonthIsMostRecent(29, 2, today);
  }

  lemma LandingAsOfIsLatest(c: Civil, year: int, t: Civil)
    requires ValidCivil(c) && ValidCivil(t) && ValidCivil(Civil(year, c.month, c.day))
    requires !Before(t, Civil(year, c.month, c.day))
    ensures !Before(LandingAsOf(c, t), Civil(year, c.month, c.day))
  {}

  /** Months and days out of range carry over, so DD/MM can name the future after all: it does so
      unless the day it carries over to lies in this year or before, or within next year up to today's
      own month and day. */
  lemma DayMonthIsNotAhead(day: int, month: int, today: Day)
    ensures var t := CivilOf(today);
            var c := CivilOf(Date(t.year, month, day));
            ResolveDayMonth(day, month, today) <= today <==>
              c.year <= t.year || (c.year == t.year + 1 && !Before(t, Landing(t.year, c)))
  {
    hide CivilOf, Date, DaysBeforeYear;
    var candidate := Date(CivilOf(today).year, month, day);
    DayOrder(today, candidate);
    DayOrder(today, AddYears(candidate, -1));
    YearBackLands(candidate);
  }

  /** 1/25, the first day of a twenty-fifth month, is read as a day of next year. */
  lemma TwentyFifthMonthIsAhead(today: Day)
    ensures ResolveDayMonth(1, 25, today) > today
  {
    var year := CivilOf(today).year;
    assert Date(year, 25, 1) == Date(year + 2, 1, 1);
    CivilOfDate(Civil(year + 2, 1, 1));
    DayMonthIsNotAhead(1, 25, today);
  }

  /** For a record that may be edited, the date survives unless it is a future one or last year's leap day. */
  lemma EditableDateSurvives(x: Day, today: Day)
    requires Editable(x, today)
    ensures Redated(x, today) == x <==> x <= today && !IsLeapDayOfPreviousYear(x, today)
  {
    DriftBoundary(x, today);
    EditableIs(x, today);
  }

  // ----- Where the edit window is not the drift boundary

  /** Being editable and reading back to the same day agree except on future days, on last year's
      29 February until the end of February, and on 1 March a year before a 29 February. */
  lemma EditableIsDriftBoundary(x: Day, today: Day)
    ensures (Editable(x, today) <==> Redated(x, today) == x) <==>
            && x <= today
            && !(IsLeapDayOfPreviousYear(x, today) && CivilOf(today).month <= 2)
            && !IsMarchFirstBeforeLeapDay(x, today)
  {
    hide CivilOf, Date, DaysBeforeYear, Redated, Editable;
    DriftBoundary(x, today);
    EditableIs(x, today);
    DayOrder(today, x);
  }

  /** Every future day is editable, and none reads back. */
  lemma FutureDaysDrift(x: Day, today: Day)
    requires x > today
    ensures Editable(x, today) && Redated(x, today) < x
  {
    hide CivilOf, Date, DaysBeforeYear, Redated, Editable;
    EditableIs(x, today);
    DayOrder(today, x);
    RedatedIsRecent(x, today);
  }

  /** 16 January 2025 as of the day before: a line can name it in full, it is editable, and it reads back
      as last year's. */
  lemma TomorrowDrifts()
    ensures var x, today := Date(2025, 1, 16), Date(2025, 1, 15);
            && CivilOf(x) == Civil(2025, 1, 16)
            && IsDateToken(FullDateText(x)) && ResolveDate(FullDateText(x), today) == x
            && Editable(x, today) && CivilOf(Redated(x, today)) == Civil(2024, 1, 16)
  {
    hide CivilOf, Date, DaysBeforeYear, ResolveDayMonth, ResolveDate, IsDateToken, FullDateText, Editable;
    var x, today := Date(2025, 1, 16), Date(2025, 1, 15);
    CivilOfDate(Civil(2025, 1, 16));
    CivilOfDate(Civil(2025, 1, 15));
    DayOrder(today, x);
    FutureDaysDrift(x, today);
    FullDateReads(x, today);
    DayMonthLands(Civil(2025, 1, 16), today);
  }

  /** 29 February 2024 as of 15 January 2025: editable, and it reads back as 1 March 2024. */
  lemma LeapDayDrifts()
    ensures var x, today := Date(2024, 2, 29), Date(2025, 1, 15);
            Editable(x, today) && CivilOf(Redated(x, today)) == Civil(2024, 3, 1)
  {
    hide CivilOf, Date, DaysBeforeYear, ResolveDayMonth, Editable;
    var x, today := Date(2024, 2, 29), Date(2025, 1, 15);
    CivilOfDate(Civil(2024, 2, 29));
    CivilOfDate(Civil(2025, 1, 15));
    EditableIs(x, today);
    DayMonthLands(Civil(2024, 2, 29), today);
  }

  /** 1 March 2023 as of 29 February 2024: no longer editable, and yet it reads back to itself. */
  lemma MarchFirstSurvives()
    ensures var x, today := Date(2023, 3, 1), Date(2024, 2, 29);
            !Editable(x, today) && Redated(x, today) == x
  {
    hide CivilOf, Date, DaysBeforeYear, ResolveDayMonth, Editable, Redated;
    var x, today := Date(2023, 3, 1), Date(2024, 2, 29);
    CivilOfDate(Civil(2023, 3, 1));
    CivilOfDate(Civil(2024, 2, 29));
    DayOrder(today, x);
    EditableIs(x, today);
    DriftBoundary(x, today);
  }

  lemma DayMonthTextReads(x: Day, today: Day)
    ensures var t := DayMonthText(x);
            IsToken(t) && IsDateToken(t) && !IsAccountToken(t) && ResolveDate(t, today) == Redated(x, today)
  {
    var c := CivilOf(x);
    DecimalLength(c.day);
    DecimalLength(c.month);
    ValueOfDecimal(c.day);
    ValueOfDecimal(c.month);
    DigitsSlashDigits(Decimal(c.day), Decimal(c.month), today);
  }

  lemma DigitsSlashDigits(d: string, m: string, today: Day)
    requires IsShort(d) && IsShort(m)
    ensures var t := d + "/" + m;
            && IsToken(t) && IsDayMonth(t) && !IsRelativeDate(t) && !IsDayMonthYear(t) && !IsAccountToken(t)
            && ResolveDate(t, today) == ResolveDayMonth(Value(d), Value(m), today)
  {
    hide ResolveDate, ResolveDayMonth, Value;
    var t := d + "/" + m;
    assert t == d + ("/" + m);
    SlashAfterDigits(d, m);
    NoSlashInDigits(m);
    assert t[..|d|] == d && t[|d| + 1..] == m;
    assert t[0] == d[0] && IsDigit(d[0]);
    ResolvesWithoutYear(t, today);
  }

  lemma ResolvesWithoutYear(t: string, today: Day)
    requires IsDayMonth(t) && !IsRelativeDate(t) && !IsDayMonthYear(t)
    ensures var i := IndexOf(t, '/');
            ResolveDate(t, today) == ResolveDayMonth(Value(t[..i]), Value(t[i + 1..]), today)
  {
    hide Value, IndexOf, ResolveDayMonth;
  }

  /** DD/MM/YYYY as written. */
  function FullDateText(date: Day): string
    requires 0 <= CivilOf(date).year < 10000
  {
    var c := CivilOf(date);
    DayMonthText(date) + "/" + TwoDigits(c.year / 100) + TwoDigits(c.year % 100)
  }

  lemma YearTextReads(year: nat)
    requires year < 10000
    ensures var y := TwoDigits(year / 100) + TwoDigits(year % 100);
            |y| == 4 && AllDigits(y) && Value(y) == year
  {
    ValueOfAppend(TwoDigits(year / 100), TwoDigits(year % 100));
    ValueOfTwoDigits(year / 100);
    ValueOfTwoDigits(year % 100);
    assert Pow10(2) == 100;
  }

  /** A day written out in full reads back to itself whatever the day it is read on. */
  lemma FullDateReads(x: Day, today: Day)
    requires 0 <= CivilOf(x).year < 10000
    ensures IsDateToken(FullDateText(x)) && ResolveDate(FullDateText(x), today) == x
  {
    hide CivilOf, Date, ResolveDate, IsDayMonthYear, Value, IndexOf;
    var c := CivilOf(x);
    var d, m, y := Decimal(c.day), Decimal(c.month), TwoDigits(c.year / 100) + TwoDigits(c.year % 100);
    DecimalLength(c.day);
    DecimalLength(c.month);
    ValueOfDecimal(c.day);
    ValueOfDecimal(c.month);
    YearTextReads(c.year);
    assert FullDateText(x) == d + ("/" + (m + ("/" + y)));
    FullDateIs(d, m, y, today);
    DateOfCivil(x);
  }

  lemma FullDateParts(d: string, m: string, y: string)
    requires IsShort(d) && IsShort(m)
    ensures var rest := m + ("/" + y);
            var t := d + ("/" + rest);
            && IndexOf(t, '/') == |d| && t[..|d|] == d && t[|d| + 1..] == rest && !IsRelativeDate(t)
            && IndexOf(rest, '/') == |m| && rest[..|m|] == m && rest[|m| + 1..] == y
  {
    var rest := m + ("/" + y);
    var t := d + ("/" + rest);
    SlashAfterDigits(d, rest);
    SlashAfterDigits(m, y);
    assert t[0] == d[0] && IsDigit(d[0]);
  }

  lemma FullDateIsToken(d: string, m: string, y: string)
    requires IsShort(d) && IsShort(m) && |y| == 4 && AllDigits(y)
    ensures IsDayMonthYear(d + ("/" + (m + ("/" + y))))
  {
    hide IndexOf, IsRelativeDate, IsDigit;
    FullDateParts(d, m, y);
  }

  lemma FullDateIs(d: string, m: string, y: string, today: Day)
    requires IsShort(d) && IsShort(m) && |y| == 4 && AllDigits(y)
    ensures var t := d + ("/" + (m + ("/" + y)));
            IsDayMonthYear(t) && ResolveDate(t, today) == Date(Value(y), Value(m), Value(d))
  {
    hide Date, Value, IndexOf, IsRelativeDate, IsDayMonth, IsDayMonthYear, IsDigit, ResolveDate;
    FullDateParts(d, m, y);
    FullDateIsToken(d, m, y);
    var rest := m + ("/" + y);
    ResolvesInFull(d + ("/" + rest), rest, d, m, y, today);
  }

  lemma ResolvesInFull(t: string, rest: string, d: string, m: string, y: string, today: Day)
    requires IsDayMonthYear(t) && !IsRelativeDate(t) && AllDigits(d) && AllDigits(m) && AllDigits(y)
    requires IndexOf(t, '/') == |d| < |t| && t[..|d|] == d && t[|d| + 1..] == rest
    requires IndexOf(rest, '/') == |m| < |rest| && rest[..|m|] == m && rest[|m| + 1..] == y
    ensures ResolveDate(t, today) == Date(Value(y), Value(m), Value(d))
  {
    hide Date, Value, IndexOf, IsRelativeDate, AllDigits;
  }

  /** -N reads as the day N days before today, however N is written. */
  lemma RelativeDateReads(n: string, today: Day)
    requires n != "" && AllDigits(n)
    ensures IsDateToken("-" + n) && ResolveDate("-" + n, today) == today - Value(n)
  {
    assert ("-" + n)[1..] == n;
  }

  lemma SlashAfterDigits(a: string, b: string)
    requires AllDigits(a)
    ensures IndexOf(a + ("/" + b), '/') == |a|
  {
    if a == "" {
      assert a + ("/" + b) == "/" + b;
    } else {
      assert (a + ("/" + b))[1..] == a[1..] + ("/" + b);
      SlashAfterDigits(a[1..], b);
    }
  }

  lemma NoSlashInDigits(a: string)
    requires AllDigits(a)
    ensures IndexOf(a, '/') == |a|
  {
    var i := IndexOf(a, '/');
    assert i < |a| ==> IsDigit(a[i]);
  }

  // ----- What is storable, and what its line means

  /** A description as the parser leaves it: text tokens one space apart, at least one. */
  predicate DescriptionOK(s: string) {
    s != "" && s == Join(Fields(s)) && forall k :: 0 <= k < |Fields(s)| ==> IsTextToken(Fields(s)[k])
  }

  predicate AccountOK(a: Option<string>) {
    a.Some? ==> IsToken(a.value)
  }

  predicate Storable(b: Entry) {
    b.amount > 0 && DescriptionOK(b.description) && AccountOK(b.account)
  }

  function AccountText(a: Option<string>): string {
    if a.Some? then a.value else ""
  }

  lemma JoinThree(a: string, b: string, c: string)
    ensures Fields(Join([a, b, c])) == Fields(a) + Fields(b) + Fields(c)
  {
    hide Fields;
    assert [a, b, c][1..] == [b, c] && [b, c][1..] == [c];
    assert Join([b, c]) == b + " " + c;
    assert Join([a, b, c]) == a + " " + (b + " " + c);
    FieldsOfSpaced(b, c);
    FieldsOfSpaced(a, b + " " + c);
  }

  lemma JoinFour(a: string, b: string, c: string, d: string)
    ensures Fields(Join([a, b, c, d])) == Fields(a) + Fields(b) + Fields(c) + Fields(d)
  {
    hide Fields;
    assert [a, b, c, d][1..] == [b, c, d];
    assert Join([a, b, c, d]) == a + " " + Join([b, c, d]);
    JoinThree(b, c, d);
    FieldsOfSpaced(a, Join([b, c, d]));
  }

  /** The tokens of a canonical line: the amount, the description's, the date and perhaps the account. */
  lemma LineFields(b: Entry, amount: string)
    requires IsToken(amount) && Storable(b)
    ensures Fields(Join(EntryLineParts(b, amount))) ==
            [amount] + Fields(b.description) + [DayMonthText(b.date)] + AccountTokens(b)
  {
    hide Fields, DayMonthText, Redated, IsToken, EntryLineParts, Join;
    var dm := DayMonthText(b.date);
    DayMonthTextReads(b.date, b.date);
    FieldsOfToken(amount);
    FieldsOfToken(dm);
    if b.account.None? {
      LinePartsWithoutAccount(b, amount);
      JoinThree(amount, b.description, dm);
    } else {
      var at := "@" + b.account.value;
      AccountIsToken(b.account.value);
      FieldsOfToken(at);
      LinePartsWithAccount(b, amount);
      JoinFour(amount, b.description, dm, at);
    }
  }

  function AccountTokens(b: Entry): seq<string> {
    if b.account.Some? then ["@" + b.account.value] else []
  }

  /** A stored record's line as it is written: amount under its sigil, description, day/month without
      leading zeros, @account when there is one. */
  lemma LineIs(b: Entry, amount: string)
    requires b.description != "" && (b.account.Some? ==> b.account.value != "")
    ensures Join(EntryLineParts(b, amount)) ==
            amount + " " + b.description + " " + Decimal(CivilOf(b.date).day) + "/" + Decimal(CivilOf(b.date).month)
              + if b.account.Some? then " @" + b.account.value else ""
  {
    hide CivilOf, Decimal, EntryLineParts;
    var dm := DayMonthText(b.date);
    if b.account.None? {
      LinePartsWithoutAccount(b, amount);
      JoinAppend([amount], [b.description, dm]);
      JoinAppend([b.description], [dm]);
      assert [amount, b.description, dm] == [amount] + [b.description, dm];
      assert [b.description, dm] == [b.description] + [dm];
    } else {
      var at := "@" + b.account.value;
      LinePartsWithAccount(b, amount);
      JoinAppend([amount], [b.description, dm, at]);
      JoinAppend([b.description], [dm, at]);
      JoinAppend([dm], [at]);
      assert [amount, b.description, dm, at] == [amount] + [b.description, dm, at];
      assert [b.description, dm, at] == [b.description] + [dm, at];
      assert [dm, at] == [dm] + [at];
    }
  }

  lemma AccountIsToken(account: string)
    requires IsToken(account)
    ensures IsToken("@" + account) && IsAccountToken("@" + account) && ("@" + account)[1..] == account
  {}

  lemma LinePartsWithoutAccount(b: Entry, amount: string)
    requires b.description != "" && b.account.None?
    ensures EntryLineParts(b, amount) == [amount, b.description, DayMonthText(b.date)]
  {}

  lemma LinePartsWithAccount(b: Entry, amount: string)
    requires b.description != "" && b.account.Some? && b.account.value != ""
    ensures EntryLineParts(b, amount) == [amount, b.description, DayMonthText(b.date), "@" + b.account.value]
  {}

  /** Picking the amount, the other text, the date and the account back out of a line laid out in that order. */
  lemma LinePicks<T>(a: T, text: seq<T>, dm: T, accounts: seq<T>,
                     isAmount: T -> bool, isText: T -> bool, isDate: T -> bool, isAccount: T -> bool)
    requires isAmount(a) && !isDate(a) && !isAccount(a)
    requires isDate(dm) && !isAccount(dm) && !isText(dm)
    requires forall t :: t in text ==> isText(t) && !isDate(t) && !isAccount(t)
    requires forall t :: t in accounts ==> isAccount(t) && !isText(t) && !isDate(t)
    ensures var ts := [a] + text + [dm] + accounts;
            && FirstMatch(ts, isAmount) == Some(a) && Others(ts, isAmount, isText) == text
            && Filter(ts, isDate) == [dm] && Filter(ts, isAccount) == accounts
  {
    hide Filter;
    var rest := text + [dm] + accounts;
    assert [a] + text + [dm] + accounts == [a] + rest;
    FirstPicked(a, rest, isAmount, isText);
    FilterAppend([a], rest, isDate);
    FilterAppend([a], rest, isAccount);
    FilterNone([a], isDate);
    FilterNone([a], isAccount);
    TailPicks(text, dm, accounts, isText);
    TailPicks(text, dm, accounts, isDate);
    TailPicks(text, dm, accounts, isAccount);
    FilterAll(text, isText);
    FilterNone(text, isDate);
    FilterNone(text, isAccount);
    FilterNone(accounts, isText);
    FilterNone(accounts, isDate);
    FilterAll(accounts, isAccount);
  }

  lemma TailPicks<T>(text: seq<T>, dm: T, accounts: seq<T>, p: T -> bool)
    ensures Filter(text + [dm] + accounts, p) ==
            Filter(text, p) + (if p(dm) then [dm] else []) + Filter(accounts, p)
  {
    FilterAppend(text + [dm], accounts, p);
    FilterAppend(text, [dm], p);
  }

  /** A canonical line means the record it was written from, up to what its date reads back to. */
  lemma CanonicalMeaning(b: Entry, amount: string, today: Day)
    requires Storable(b) && IsToken(amount) && IsAmountToken(amount) && UnitsOf(amount) == b.amount
    ensures Parsed(Join(EntryLineParts(b, amount)), today) ==
            ParsedEntry(b.amount, true, b.description, AccountText(b.account), IsIncomeNumber(amount),
                        IsSettlementNumber(amount), Redated(b.date, today), [])
  {
    LineFields(b, amount);
    DayMonthTextReads(b.date, today);
    NumbersAreText(amount);
    StorableTokens(b);
    LaidOutMeaning(amount, Fields(b.description), DayMonthText(b.date), AccountTokens(b), today);
  }

  lemma StorableTokens(b: Entry)
    requires Storable(b)
    ensures forall t :: t in Fields(b.description) ==> IsTextToken(t) && !IsDateToken(t) && !IsAccountToken(t)
    ensures forall t :: t in AccountTokens(b) ==> IsAccountToken(t) && !IsTextToken(t) && !IsDateToken(t)
    ensures |AccountTokens(b)| <= 1 && AccountIn(AccountTokens(b)) == AccountText(b.account)
  {
    if b.account.Some? {
      AccountIsToken(b.account.value);
      DatesAreNotAccounts("@" + b.account.value);
    }
  }

  lemma LaidOutMeaning(amount: string, text: seq<string>, dm: string, accounts: seq<string>, today: Day)
    requires IsAmountToken(amount) && IsTextToken(amount) && IsDateToken(dm) && !IsAccountToken(dm)
    requires forall t :: t in text ==> IsTextToken(t) && !IsDateToken(t) && !IsAccountToken(t)
    requires forall t :: t in accounts ==> IsAccountToken(t) && !IsTextToken(t) && !IsDateToken(t)
    requires Join(text) != "" && |accounts| <= 1
    ensures Meaning([amount] + text + [dm] + accounts, today) ==
            ParsedEntry(UnitsOf(amount), true, Join(text), AccountIn(accounts), IsIncomeNumber(amount),
                        IsSettlementNumber(amount), ResolveDate(dm, today), [])
  {
    LinePicks(amount, text, dm, accounts, IsAmountToken, IsTextToken, IsDateToken, IsAccountToken);
    PickedMeaning([amount] + text + [dm] + accounts, amount, text, dm, accounts, today);
  }

  lemma PickedMeaning(ts: seq<string>, amount: string, text: seq<string>, dm: string, accounts: seq<string>, today: Day)
    requires IsAmountToken(amount) && IsDateToken(dm) && Join(text) != ""
    requires |accounts| <= 1 && forall t :: t in accounts ==> IsAccountToken(t)
    requires AmountToken(ts) == Some(amount) && DescriptionTokens(ts) == text
    requires Filter(ts, IsDateToken) == [dm] && Filter(ts, IsAccountToken) == accounts
    ensures Meaning(ts, today) ==
            ParsedEntry(UnitsOf(amount), true, Join(text), AccountIn(accounts), IsIncomeNumber(amount),
                        IsSettlementNumber(amount), ResolveDate(dm, today), [])
  {}

  /** The amount token of a canonical line, bare or under a sigil. */
  lemma AmountTokenReads(n: nat, sigil: string)
    requires n > 0 && (sigil == "" || sigil == "+" || sigil == "=")
    ensures var t := sigil + FormatAmount(n);
            && IsToken(t) && IsAmountToken(t) && UnitsOf(t) == n
            && (IsIncomeNumber(t) <==> sigil == "+") && (IsSettlementNumber(t) <==> sigil == "=")
  {
    var f := FormatAmount(n);
    var t := sigil + f;
    FormatAmountRoundTrip(n);
    BareNumberIsToken(f);
    ShapesExclude(t);
    if sigil == "" {
      assert t == f;
    } else {
      assert t[1..] == f;
      assert !IsBareNumber(t) by { if IsBareNumber(t) { BareNumberIsToken(t); } }
    }
  }

  /** A line of one amount and one word, without a date or an account, passes the parser's gates. */
  lemma TwoTokenLine(n: nat, sigil: string, word: string, today: Day)
    requires n > 0 && (sigil == "" || sigil == "+" || sigil == "=") && IsToken(word) && IsTextToken(word)
    ensures var p := Parsed(sigil + FormatAmount(n) + " " + word, today);
            p.OK() && p.amount == n && (p.isIncome <==> sigil == "+") && (p.isSettlement <==> sigil == "=")
  {
    hide IsAmountToken, IsIncomeNumber, IsSettlementNumber, IsTextToken, IsToken, UnitsOf, FormatAmount, Parsed, Completes;
    AmountTokenReads(n, sigil);
    LeadingAmount(sigil + FormatAmount(n), word, today);
    OneWordCompletes(word);
  }
}
