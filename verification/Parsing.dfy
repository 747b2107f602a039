/** The entry-line parser: from free text to a resolved entry and its save-gate violations. */
module Parsing {
  import opened Text
  import opened Sequences
  import opened Amounts
  import opened Calendar
  import opened Options

  datatype ParseError =
    | NoAmount | EmptyDescription | TwoDateTokens | TwoAccounts
    | MustBeIncome | MustBeExpense | SettlementOutsideShared | IncomeInShared | MustBeSettlement

  datatype ParsedEntry = ParsedEntry(
    amount: nat,
    hasAmount: bool,
    description: string,
    account: string,
    isIncome: bool,
    isSettlement: bool,
    date: Day,
    errors: seq<ParseError>)
  {
    predicate OK() { errors == [] }
  }

  // ----- Token shapes

  predicate IsIncomeNumber(t: string) {
    t != "" && t[0] == '+' && IsBareNumber(t[1..])
  }

  predicate IsSettlementNumber(t: string) {
    t != "" && t[0] == '=' && IsBareNumber(t[1..])
  }

  predicate IsNumberShaped(t: string) {
    IsBareNumber(t) || IsIncomeNumber(t) || IsSettlementNumber(t)
  }

  function UnitsOf(t: string): nat
    requires IsNumberShaped(t)
  {
    if IsBareNumber(t) then AmountMinorUnits(t) else AmountMinorUnits(t[1..])
  }

  /** A token that can be a line's amount: number-shaped and above zero. */
  predicate IsAmountToken(t: string) {
    IsNumberShaped(t) && UnitsOf(t) > 0
  }

  function IndexOf(t: string, c: char): (i: nat)
    ensures i <= |t|
    ensures forall k :: 0 <= k < i ==> t[k] != c
    ensures i < |t| ==> t[i] == c
  {
    if t == "" || t[0] == c then 0 else 1 + IndexOf(t[1..], c)
  }

  /** One or two digits. */
  predicate IsShort(s: string) {
    1 <= |s| <= 2 && AllDigits(s)
  }

  /** -N: N days before today. */
  predicate IsRelativeDate(t: string) {
    |t| > 1 && t[0] == '-' && AllDigits(t[1..])
  }

  /** DD/MM. */
  predicate IsDayMonth(t: string) {
    var i := IndexOf(t, '/');
    i < |t| && IsShort(t[..i]) && IsShort(t[i + 1..])
  }

  /** DD/MM/YYYY. */
  predicate IsDayMonthYear(t: string) {
    var i := IndexOf(t, '/');
    && i < |t| && IsShort(t[..i])
    && var rest := t[i + 1..];
       var j := IndexOf(rest, '/');
       j < |rest| && IsShort(rest[..j]) && |rest[j + 1..]| == 4 && AllDigits(rest[j + 1..])
  }

  predicate IsDateToken(t: string) {
    IsRelativeDate(t) || IsDayMonth(t) || IsDayMonthYear(t)
  }

  predicate IsAccountToken(t: string) {
    |t| > 1 && t[0] == '@'
  }

  /** A token that is neither a date nor an account: the amount, or description text. */
  predicate IsTextToken(t: string) {
    !IsDateToken(t) && !IsAccountToken(t)
  }

  lemma NumbersAreText(t: string)
    requires IsNumberShaped(t)
    ensures IsTextToken(t)
  {
    var digits := if IsBareNumber(t) then t else t[1..];
    BareNumberIsToken(digits);
    var i := IndexOf(t, '/');
    assert i < |t| && i >= |t| - |digits| ==> IsDigit('/') || '/' == '.' || '/' == ',';
  }

  lemma DatesAreNotAccounts(t: string)
    ensures !(IsDateToken(t) && IsAccountToken(t))
  {
    var i := IndexOf(t, '/');
    if i < |t| && IsShort(t[..i]) {
      assert t[..i][0] == t[0] && IsDigit(t[0]);
    }
  }

  // ----- Dates

  /** The calendar day a date token names as of today. */
  function ResolveDate(t: string, today: Day): Day
    requires IsDateToken(t)
  {
    if IsRelativeDate(t) then today - Value(t[1..])
    else
      var i := IndexOf(t, '/');
      var day, rest := Value(t[..i]), t[i + 1..];
      if IsDayMonthYear(t) then
        var j := IndexOf(rest, '/');
        Date(Value(rest[j + 1..]), Value(rest[..j]), day)
      else ResolveDayMonth(day, Value(rest), today)
  }

  /** This year's occurrence of a day and month, or the one a year before when that is still ahead. */
  function ResolveDayMonth(day: int, month: int, today: Day): Day {
    var candidate := Date(CivilOf(today).year, month, day);
    if candidate > today then AddYears(candidate, -1) else candidate
  }

  // ----- What a line means

  /** The line's amount: the first token that can be one. */
  function AmountToken(ts: seq<string>): Option<string> {
    FirstMatch(ts, IsAmountToken)
  }

  /** The tokens of the description: all the text but the amount. */
  function DescriptionTokens(ts: seq<string>): seq<string> {
    Others(ts, IsAmountToken, IsTextToken)
  }

  function AccountIn(accounts: seq<string>): string
    requires forall t :: t in accounts ==> IsAccountToken(t)
  {
    if accounts == [] then ""
    else
      assert IsAccountToken(accounts[0]) by { assert accounts[0] in accounts; }
      accounts[0][1..]
  }

  function DateIn(dates: seq<string>, today: Day): Day
    requires forall t :: t in dates ==> IsDateToken(t)
  {
    if dates == [] then today
    else
      assert IsDateToken(dates[0]) by { assert dates[0] in dates; }
      ResolveDate(dates[0], today)
  }

  function GateErrors(hasAmount: bool, description: string, dates: nat, accounts: nat): seq<ParseError> {
    (if hasAmount then [] else [NoAmount])
    + (if description == "" then [EmptyDescription] else [])
    + (if dates > 1 then [TwoDateTokens] else [])
    + (if accounts > 1 then [TwoAccounts] else [])
  }

  /** The entry a list of tokens spells, stated without a scan: the amount is the first token that can
      be one, dates and accounts are picked out wherever they stand, the remaining text describes. */
  function Meaning(ts: seq<string>, today: Day): (p: ParsedEntry)
    ensures !(p.isIncome && p.isSettlement)
    ensures p.hasAmount <==> p.amount > 0
  {
    FilterMembers(ts, IsDateToken);
    FilterMembers(ts, IsAccountToken);
    var amount := AmountToken(ts);
    var has := amount.Some?;
    var dates, accounts := Filter(ts, IsDateToken), Filter(ts, IsAccountToken);
    var description := Join(DescriptionTokens(ts));
    ParsedEntry(
      if has then UnitsOf(amount.value) else 0, has, description, AccountIn(accounts),
      has && IsIncomeNumber(amount.value), has && IsSettlementNumber(amount.value), DateIn(dates, today),
      GateErrors(has, description, |dates|, |accounts|))
  }

  function Parsed(raw: string, today: Day): ParsedEntry {
    Meaning(Fields(raw), today)
  }

  // ----- The scan

  /** What the scan holds after some tokens. */
  datatype Scan = Scan(
    amount: nat, hasAmount: bool, isIncome: bool, isSettlement: bool,
    descTokens: seq<string>, dateTokens: seq<string>, accountTokens: seq<string>)

  function Scanned(ts: seq<string>): Scan {
    var amount := AmountToken(ts);
    Scan(
      if amount.Some? then UnitsOf(amount.value) else 0, amount.Some?,
      amount.Some? && IsIncomeNumber(amount.value), amount.Some? && IsSettlementNumber(amount.value),
      DescriptionTokens(ts), Filter(ts, IsDateToken), Filter(ts, IsAccountToken))
  }

  /** What one more token changes. */
  function Next(s: Scan, t: string): Scan {
    if !s.hasAmount && IsAmountToken(t) then
      s.(amount := UnitsOf(t), hasAmount := true, isIncome := IsIncomeNumber(t), isSettlement := IsSettlementNumber(t))
    else if IsDateToken(t) then s.(dateTokens := s.dateTokens + [t])
    else if IsAccountToken(t) then s.(accountTokens := s.accountTokens + [t])
    else s.(descTokens := s.descTokens + [t])
  }

  lemma ScanStep(ts: seq<string>, t: string)
    ensures Scanned(ts + [t]) == Next(Scanned(ts), t)
  {
    hide IsAmountToken, IsDateToken, IsAccountToken, Filter, FirstMatch, Others;
    FirstMatchStep(ts, t, IsAmountToken);
    OthersStep(ts, t, IsAmountToken, IsTextToken);
    FilterAppend(ts, [t], IsDateToken);
    FilterAppend(ts, [t], IsAccountToken);
    DatesAreNotAccounts(t);
    AmountsAreText(t);
    FilterOne(t, IsDateToken);
    FilterOne(t, IsAccountToken);
  }

  lemma AmountsAreText(t: string)
    ensures IsAmountToken(t) ==> IsTextToken(t)
  {
    if IsNumberShaped(t) { NumbersAreText(t); }
  }

  /** The three number shapes exclude each other, and none is a date or an account. */
  lemma ShapesExclude(t: string)
    ensures IsNumberShaped(t) ==> IsTextToken(t)
    ensures IsBareNumber(t) ==> !IsIncomeNumber(t) && !IsSettlementNumber(t)
    ensures !(IsIncomeNumber(t) && IsSettlementNumber(t))
  {
    if IsNumberShaped(t) { NumbersAreText(t); }
    if IsBareNumber(t) { BareNumberIsToken(t); }
  }

  lemma NothingScanned()
    ensures Scanned([]) == Scan(0, false, false, false, [], [], [])
  {}

  /** One round of the scan: the token goes to the first case that takes it. */
  method ScanToken(s: Scan, tok: string) returns (r: Scan)
    requires !s.hasAmount ==> !s.isIncome && !s.isSettlement
    ensures r == Next(s, tok)
  {
    hide IsBareNumber, AmountMinorUnits, IsRelativeDate, IsDayMonth, IsDayMonthYear;
    ShapesExclude(tok);
    if !s.hasAmount && IsBareNumber(tok) {
      var units := AmountMinorUnits(tok);
      r := if units > 0 then s.(amount := units, hasAmount := true)
           else s.(descTokens := s.descTokens + [tok]);
    } else if !s.hasAmount && IsIncomeNumber(tok) {
      var units := AmountMinorUnits(tok[1..]);
      r := if units > 0 then s.(amount := units, hasAmount := true, isIncome := true)
           else s.(descTokens := s.descTokens + [tok]);
    } else if !s.hasAmount && IsSettlementNumber(tok) {
      var units := AmountMinorUnits(tok[1..]);
      r := if units > 0 then s.(amount := units, hasAmount := true, isSettlement := true)
           else s.(descTokens := s.descTokens + [tok]);
    } else if IsDateToken(tok) {
      r := s.(dateTokens := s.dateTokens + [tok]);
    } else if |tok| > 1 && tok[0] == '@' {
      r := s.(accountTokens := s.accountTokens + [tok]);
    } else {
      r := s.(descTokens := s.descTokens + [tok]);
    }
  }

  /** Parses a line by one scan over its tokens. */
  method Parse(raw: string, today: Day) returns (p: ParsedEntry)
    ensures p == Parsed(raw, today)
    ensures Filter(Fields(raw), IsDateToken) == [] ==> p.date == today
  {
    DateAndAccountRead(raw, today);
    hide Fields, IsAmountToken, IsDateToken, Filter, FirstMatch, Others, ResolveDate, GateErrors;
    var ts := Fields(raw);
    NothingScanned();
    var scan := Scan(0, false, false, false, [], [], []);
    var i := 0;
    while i < |ts|
      invariant 0 <= i <= |ts|
      invariant scan == Scanned(ts[..i])
    {
      ScanStep(ts[..i], ts[i]);
      assert ts[..i + 1] == ts[..i] + [ts[i]];
      scan := ScanToken(scan, ts[i]);
      i := i + 1;
    }
    assert ts[..i] == ts;
    FilterMembers(ts, IsDateToken);
    FilterMembers(ts, IsAccountToken);
    var date := DateIn(scan.dateTokens, today);
    var description := Join(scan.descTokens);
    var errors := CollectErrors(scan.hasAmount, description, |scan.dateTokens|, |scan.accountTokens|);
    p := ParsedEntry(scan.amount, scan.hasAmount, description, AccountIn(scan.accountTokens),
                     scan.isIncome, scan.isSettlement, date, errors);
  }

  /** The save-gate violations in their fixed order. */
  method CollectErrors(hasAmount: bool, description: string, dates: nat, accounts: nat) returns (errors: seq<ParseError>)
    ensures errors == GateErrors(hasAmount, description, dates, accounts)
  {
    errors := [];
    if !hasAmount { errors := errors + [NoAmount]; }
    if description == "" { errors := errors + [EmptyDescription]; }
    if dates > 1 { errors := errors + [TwoDateTokens]; }
    if accounts > 1 { errors := errors + [TwoAccounts]; }
  }

  // ----- Consequences

  /** Every token lands in exactly one place: amount, dates, accounts or description. */
  lemma EveryTokenIsConsumedOnce(ts: seq<string>)
    ensures multiset(ts) == Held(AmountToken(ts))
              + multiset(Filter(ts, IsDateToken)) + multiset(Filter(ts, IsAccountToken))
              + multiset(DescriptionTokens(ts))
  {
    forall t | IsAmountToken(t) ensures IsTextToken(t) { NumbersAreText(t); }
    forall t ensures !(IsDateToken(t) && IsAccountToken(t)) { DatesAreNotAccounts(t); }
    FirstAndOthers(ts, IsAmountToken, IsTextToken);
    ThreeWayPartition(ts, IsDateToken, IsAccountToken, IsTextToken);
  }

  /** Dates and accounts float: lines with the same text, the same dates and the same accounts, each in
      its own order but interleaved in any way, mean the same. */
  lemma DatesAndAccountsFloat(a: seq<string>, b: seq<string>, today: Day)
    requires Filter(a, IsTextToken) == Filter(b, IsTextToken)
    requires Filter(a, IsDateToken) == Filter(b, IsDateToken)
    requires Filter(a, IsAccountToken) == Filter(b, IsAccountToken)
    ensures Meaning(a, today) == Meaning(b, today)
  {
    forall t | IsAmountToken(t) ensures IsTextToken(t) { NumbersAreText(t); }
    OthersOfFilter(a, IsAmountToken, IsTextToken);
    OthersOfFilter(b, IsAmountToken, IsTextToken);
  }

  // ----- The columns of a line, token by token

  /** A line that names no date is dated today, otherwise as its first date token; its account is the first
      @ token without the @, or blank. */
  lemma DateAndAccountRead(raw: string, today: Day)
    ensures var p := Parsed(raw, today);
            var dates, accounts := Filter(Fields(raw), IsDateToken), Filter(Fields(raw), IsAccountToken);
            && (dates == [] ==> p.date == today)
            && (dates != [] ==> IsDateToken(dates[0]) && p.date == ResolveDate(dates[0], today))
            && (accounts == [] ==> p.account == "")
            && (accounts != [] ==> "@" + p.account == accounts[0])
  {
    hide IsDateToken, ResolveDate, Fields, Join, AmountToken, DescriptionTokens;
    var ts := Fields(raw);
    FilterMembers(ts, IsDateToken);
    FilterMembers(ts, IsAccountToken);
    var dates, accounts := Filter(ts, IsDateToken), Filter(ts, IsAccountToken);
    if dates != [] { assert dates[0] in dates; }
    if accounts != [] { assert accounts[0] in accounts; }
  }

  /** The first token that can be an amount is taken out of the line and decides amount and kind; the text
      that is left, in order, is the description. */
  lemma FirstAmountIsTaken(raw: string, today: Day, k: nat)
    requires k < |Fields(raw)| && IsAmountToken(Fields(raw)[k])
    requires forall j :: 0 <= j < k ==> !IsAmountToken(Fields(raw)[j])
    ensures var ts, p := Fields(raw), Parsed(raw, today);
            && p.hasAmount && p.amount == UnitsOf(ts[k])
            && p.isIncome == (ts[k][0] == '+') && p.isSettlement == (ts[k][0] == '=')
            && p.description == Join(Filter(ts[..k] + ts[k + 1..], IsTextToken))
  {
    hide Fields, IsDateToken, IsAccountToken, IsAmountToken, DateIn, AccountIn, Join, UnitsOf;
    var ts := Fields(raw);
    FirstAt(ts, k, IsAmountToken, IsTextToken);
    NumberSigil(ts[k]);
  }

  lemma NumberSigil(t: string)
    ensures IsAmountToken(t) ==> t != "" && IsIncomeNumber(t) == (t[0] == '+') && IsSettlementNumber(t) == (t[0] == '=')
  {
    if IsBareNumber(t) { BareNumberIsToken(t); }
  }

  /** A line without such a token has no amount and no kind, and all its text describes. */
  lemma NoAmountIsTaken(raw: string, today: Day)
    requires forall t :: t in Fields(raw) ==> !IsAmountToken(t)
    ensures var p := Parsed(raw, today);
            !p.hasAmount && p.amount == 0 && !p.isIncome && !p.isSettlement
            && p.description == Join(Filter(Fields(raw), IsTextToken))
  {
    hide Fields, IsDateToken, IsAccountToken, IsAmountToken, DateIn, AccountIn, Join, UnitsOf;
    NoneMatches(Fields(raw), IsAmountToken, IsTextToken);
  }

  /** Which gate errors a line has, each at most once and in the fixed order. */
  lemma GateErrorsRead(raw: string, today: Day)
    ensures var p, ts := Parsed(raw, today), Fields(raw);
            && (NoAmount in p.errors <==> forall t :: t in ts ==> !IsAmountToken(t))
            && (EmptyDescription in p.errors <==> p.description == "")
            && (TwoDateTokens in p.errors <==> |Filter(ts, IsDateToken)| > 1)
            && (TwoAccounts in p.errors <==> |Filter(ts, IsAccountToken)| > 1)
            && p.errors == Filter([NoAmount, EmptyDescription, TwoDateTokens, TwoAccounts], e => e in p.errors)
  {
    hide Fields, IsDateToken, IsAccountToken, IsAmountToken, DateIn, AccountIn, Join, UnitsOf, Filter, FirstMatch;
    var ts := Fields(raw);
    var p := Parsed(raw, today);
    FirstMatchExists(ts, IsAmountToken);
    GateErrorsAre(p.hasAmount, p.description, |Filter(ts, IsDateToken)|, |Filter(ts, IsAccountToken)|);
    var errors := p.errors;
    FilterFour(NoAmount, EmptyDescription, TwoDateTokens, TwoAccounts, e => e in errors);
  }

  lemma GateErrorsAre(has: bool, description: string, dates: nat, accounts: nat)
    ensures var errors := GateErrors(has, description, dates, accounts);
            && (NoAmount in errors <==> !has) && (EmptyDescription in errors <==> description == "")
            && (TwoDateTokens in errors <==> dates > 1) && (TwoAccounts in errors <==> accounts > 1)
            && errors == (if has then [] else [NoAmount]) + (if description == "" then [EmptyDescription] else [])
                 + (if dates > 1 then [TwoDateTokens] else []) + (if accounts > 1 then [TwoAccounts] else [])
  {}

  // ----- Which tokens are what

  predicate DigitsBut(t: string, i: int, j: int) {
    forall k :: 0 <= k < |t| && k != i && k != j ==> '0' <= t[k] <= '9'
  }

  /** Character by character: DD/MM is one or two digits on both sides of a slash. */
  lemma DayMonthShape(t: string)
    ensures IsDayMonth(t) <==>
            exists i :: 1 <= i <= 2 && 1 <= |t| - i - 1 <= 2 && t[i] == '/' && DigitsBut(t, i, i)
  {
    var i := IndexOf(t, '/');
    if IsDayMonth(t) {
      var d, m := t[..i], t[i + 1..];
      forall k | 0 <= k < |t| && k != i ensures IsDigit(t[k]) { assert if k < i then t[k] == d[k] else t[k] == m[k - i - 1]; }
      assert DigitsBut(t, i, i);
    }
    if j :| 1 <= j <= 2 && 1 <= |t| - j - 1 <= 2 && t[j] == '/' && DigitsBut(t, j, j) {
      assert i == j;
    }
  }

  predicate DayMonthYearAt(t: string, i: int, j: int) {
    1 <= i <= 2 && 1 <= j - i - 1 <= 2 && |t| - j - 1 == 4 && t[i] == '/' && t[j] == '/' && DigitsBut(t, i, j)
  }

  /** DD/MM/YYYY has a second slash before exactly four digits. */
  lemma DayMonthYearShape(t: string)
    ensures IsDayMonthYear(t) <==> exists i, j :: DayMonthYearAt(t, i, j)
  {
    hide IsDayMonthYear, DayMonthYearAt;
    if IsDayMonthYear(t) {
      var i, j := DayMonthYearSlashes(t);
    }
    if a, b :| DayMonthYearAt(t, a, b) {
      SlashesMakeDayMonthYear(t, a, b);
    }
  }

  lemma DayMonthYearSlashes(t: string) returns (i: int, j: int)
    requires IsDayMonthYear(t)
    ensures DayMonthYearAt(t, i, j)
  {
    i := IndexOf(t, '/');
    var rest := t[i + 1..];
    var n := IndexOf(rest, '/');
    j := i + 1 + n;
    assert t[j] == rest[n] && |t| - j - 1 == |rest[n + 1..]|;
    PartsAreDigits(t, i, j, t[..i], rest[..n], rest[n + 1..]);
  }

  lemma PartsAreDigits(t: string, i: int, j: int, d: string, m: string, y: string)
    requires 0 <= i < j < |t| && d == t[..i] && m == t[i + 1..][..j - i - 1] && y == t[i + 1..][j - i..]
    requires AllDigits(d) && AllDigits(m) && AllDigits(y)
    ensures DigitsBut(t, i, j)
  {
    forall k | 0 <= k < |t| && k != i && k != j ensures '0' <= t[k] <= '9' {
      if k < i {
        assert IsDigit(d[k]);
      } else if k < j {
        assert IsDigit(m[k - i - 1]);
      } else {
        assert IsDigit(y[k - j - 1]);
      }
    }
  }

  lemma SlashesMakeDayMonthYear(t: string, a: int, b: int)
    requires DayMonthYearAt(t, a, b)
    ensures IsDayMonthYear(t)
  {
    hide IndexOf;
    FirstSlash(t, a, b);
    SecondSlash(t, a, b);
    var rest := t[a + 1..];
    var n := b - a - 1;
    assert AllDigits(t[..a]) && AllDigits(rest[..n]) && AllDigits(rest[n + 1..]);
  }

  lemma FirstSlash(t: string, a: int, b: int)
    requires 0 <= a < b < |t| && t[a] == '/' && DigitsBut(t, a, b)
    ensures IndexOf(t, '/') == a
  {}

  lemma SecondSlash(t: string, a: int, b: int)
    requires 0 <= a < b < |t| && t[b] == '/' && DigitsBut(t, a, b)
    ensures IndexOf(t[a + 1..], '/') == b - a - 1
  {
    var rest := t[a + 1..];
    assert rest[b - a - 1] == '/';
    forall k | 0 <= k < b - a - 1 ensures rest[k] != '/' { assert rest[k] == t[a + 1 + k]; }
  }

  /** The remaining shapes: -N, an @ with something behind it, and numbers under a sigil. */
  lemma PrefixedShapes(t: string)
    ensures IsRelativeDate(t) <==> |t| > 1 && t[0] == '-' && DigitsBut(t, 0, 0)
    ensures IsAccountToken(t) <==> |t| > 1 && t[0] == '@'
    ensures IsDateToken(t) <==> IsRelativeDate(t) || IsDayMonth(t) || IsDayMonthYear(t)
    ensures IsIncomeNumber("+" + t) == IsSettlementNumber("=" + t) == IsBareNumber(t) == ParseAmount(t).1
    ensures IsIncomeNumber(t) ==> t[0] == '+'
    ensures IsSettlementNumber(t) ==> t[0] == '='
    ensures IsBareNumber(t) ==> UnitsOf(t) == UnitsOf("+" + t) == UnitsOf("=" + t) == ParseAmount(t).0
  {
    hide IsDayMonth, IsDayMonthYear, AmountMinorUnits;
    assert ("+" + t)[1..] == t && ("=" + t)[1..] == t;
    if |t| > 1 && DigitsBut(t, 0, 0) {
      assert AllDigits(t[1..]);
    }
    if IsRelativeDate(t) {
      forall k | 1 <= k < |t| ensures IsDigit(t[k]) { assert t[k] == t[1..][k - 1]; }
    }
    SigilsAreNotNumbers(t);
  }

  lemma SigilsAreNotNumbers(t: string)
    ensures !IsBareNumber("+" + t) && !IsBareNumber("=" + t)
  {
    if IsBareNumber("+" + t) { BareNumberIsToken("+" + t); }
    if IsBareNumber("=" + t) { BareNumberIsToken("=" + t); }
  }

  // ----- Lines that open with their amount

  /** Words that complete a line: some text, at most one date, at most one account. */
  predicate Completes(words: string) {
    var ws := Fields(words);
    Filter(ws, IsTextToken) != [] && |Filter(ws, IsDateToken)| <= 1 && |Filter(ws, IsAccountToken)| <= 1
  }

  /** A line that opens with an amount token has that amount, and passes the gates exactly when the words
      behind it complete it. */
  lemma LeadingAmount(tok: string, words: string, today: Day)
    requires IsToken(tok) && IsAmountToken(tok)
    ensures var p := Parsed(tok + " " + words, today);
            && p.amount == UnitsOf(tok) && p.isSettlement == IsSettlementNumber(tok) && p.isIncome == IsIncomeNumber(tok)
            && (p.OK() <==> Completes(words))
  {
    hide Fields, IsAmountToken, IsDateToken, IsAccountToken, UnitsOf, Filter, FirstMatch, Others, DateIn, AccountIn, Join;
    var ws := Fields(words);
    var ts := [tok] + ws;
    FieldsOfSpaced(tok, words);
    FieldsOfToken(tok);
    FirstPicked(tok, ws, IsAmountToken, IsTextToken);
    FilterAppend([tok], ws, IsDateToken);
    FilterAppend([tok], ws, IsAccountToken);
    FilterOne(tok, IsDateToken);
    FilterOne(tok, IsAccountToken);
    AmountsAreText(tok);
    JoinedText(ws);
  }

  lemma JoinedText(ws: seq<string>)
    requires AllTokens(ws)
    ensures Join(Filter(ws, IsTextToken)) == "" <==> Filter(ws, IsTextToken) == []
  {
    var text := Filter(ws, IsTextToken);
    FilterMembers(ws, IsTextToken);
    assert AllTokens(text) by {
      forall k | 0 <= k < |text| ensures IsToken(text[k]) { assert text[k] in ws; }
    }
    if text != [] { JoinNonEmpty(text); }
  }

  lemma OneWordCompletes(word: string)
    requires IsToken(word) && IsTextToken(word)
    ensures Completes(word)
  {
    FieldsOfToken(word);
    hide IsDateToken, IsAccountToken, Fields;
    assert [word][1..] == [];
  }
}
