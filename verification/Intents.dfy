/** Submitting a line under an intent: which record it may become, and the text round trip of editing. */
module Intents {
  import opened Text
  import opened Options
  import opened Sequences
  import opened Amounts
  import opened Calendar
  import opened Records
  import opened Parsing
  import opened Canonical

  datatype IntentKind = Adding | AddingPayback | EditingExpense | EditingIncome

  /** What the user is doing with an entry line. id is the edited record's, zero when adding; linked is
      the expense a resulting income pays back; a missing payer means Javi. */
  datatype Intent = Intent(
    kind: IntentKind, id: int, linked: Option<int>, shared: bool, settlement: bool, payer: Option<Payer>)
  {
    function PaidBy(): Payer {
      if payer.Some? then payer.value else Javi
    }

    predicate MustBeIncome() {
      kind == AddingPayback || kind == EditingIncome
    }

    function WithSharedTab(tab: bool): Intent {
      this.(shared := tab)
    }
  }

  function Add(): Intent {
    Intent(Adding, 0, None, false, false, None)
  }

  function AddShared(payer: Payer): Intent {
    Intent(Adding, 0, None, true, false, Some(payer))
  }

  function AddPayback(parent: Expense): Intent {
    Intent(AddingPayback, 0, Some(parent.base.id), parent.shared, false, None)
  }

  function EditExpense(e: Expense, today: Day): Option<Intent> {
    if !Editable(e.base.date, today) then None
    else Some(Intent(EditingExpense, e.base.id, None, e.shared || e.settlement, e.settlement, Some(e.paidBy)))
  }

  function EditIncome(i: Income, today: Day): Option<Intent> {
    if !Editable(i.base.date, today) then None
    else if i.settlement then Some(Intent(EditingIncome, i.base.id, i.linked, true, true, Some(Carla)))
    else Some(Intent(EditingIncome, i.base.id, i.linked, false, false, None))
  }

  /** The parsed line, and when it passed every gate exactly one record ready to store. */
  datatype Submission = Submission(parsed: ParsedEntry, expense: Option<Expense>, income: Option<Income>)
  {
    predicate OK() { parsed.OK() }
  }

  /** The violation of the intent's kind rules, if any. */
  function KindErrors(intent: Intent, p: ParsedEntry): seq<ParseError> {
    if intent.kind == Adding && !intent.shared && p.isSettlement then [SettlementOutsideShared]
    else if intent.kind == Adding && intent.shared && p.isIncome then [IncomeInShared]
    else if intent.settlement && !p.isSettlement then [MustBeSettlement]
    else if intent.MustBeIncome() && !intent.settlement && !p.isIncome then [MustBeIncome]
    else if intent.kind == EditingExpense && !intent.settlement && (p.isIncome || p.isSettlement) then [MustBeExpense]
    else []
  }

  function AccountPtr(account: string): Option<string> {
    if account == "" then None else Some(account)
  }

  /** The kind rules on top of a parse, and the record the line becomes. */
  function Judge(intent: Intent, parsed: ParsedEntry, raw: string): (s: Submission)
    ensures !s.OK() ==> s.expense.None? && s.income.None?
    ensures s.OK() ==> s.expense.Some? != s.income.Some?
  {
    var p := parsed.(errors := parsed.errors + KindErrors(intent, parsed));
    if !p.OK() then Submission(p, None, None)
    else
      var account := AccountPtr(p.account);
      if p.isSettlement then
        if intent.PaidBy() == Carla then
          var i := NewIncome(p.date, p.amount, p.description, account, None, raw);
          Submission(p, None, Some(i.(settlement := true, base := i.base.(id := intent.id))))
        else
          var e := NewExpense(p.date, p.amount, p.description, account, false, raw);
          Submission(p, Some(e.(settlement := true, base := e.base.(id := intent.id))), None)
      else if p.isIncome then
        var i := NewIncome(p.date, p.amount, p.description, account, intent.linked, raw);
        Submission(p, None, Some(i.(base := i.base.(id := intent.id))))
      else
        var e := NewExpense(p.date, p.amount, p.description, account, intent.shared, raw);
        Submission(p, Some(e.(paidBy := intent.PaidBy(), base := e.base.(id := intent.id))), None)
  }

  function Submit(intent: Intent, raw: string, today: Day): (s: Submission)
    ensures !s.OK() ==> s.expense.None? && s.income.None?
    ensures s.OK() ==> s.expense.Some? != s.income.Some?
  {
    Judge(intent, Parsed(raw, today), raw)
  }

  method SubmitLine(intent: Intent, raw: string, today: Day) returns (s: Submission)
    ensures s == Submit(intent, raw, today)
  {
    var p := Parse(raw, today);
    s := Judge(intent, p, raw);
  }

  // ----- What every stored record satisfies

  /** A settlement is neither shared nor halved; only a shared expense may be paid by Carla. */
  predicate GoodExpense(e: Expense) {
    Storable(e.base) && (e.settlement ==> !e.shared) && (!e.shared ==> e.paidBy == Javi)
  }

  /** A settlement income pays back no expense. */
  predicate GoodIncome(i: Income) {
    Storable(i.base) && (i.settlement ==> i.linked.None?)
  }

  /** An intent as its constructors build it from good records. */
  predicate GoodIntent(intent: Intent) {
    match intent.kind
    case Adding => intent.linked.None? && !intent.settlement && (!intent.shared ==> intent.payer.None?)
    case AddingPayback => intent.linked.Some? && !intent.settlement
    case EditingExpense => intent.linked.None? && (intent.settlement || !intent.shared ==> intent.PaidBy() == Javi)
    case EditingIncome => intent.settlement ==> intent.linked.None? && intent.payer == Some(Carla)
  }

  /** What passes the parser's own gates is storable. */
  lemma ParsedIsStorable(raw: string, today: Day)
    requires Parsed(raw, today).OK()
    ensures var p := Parsed(raw, today);
            p.amount > 0 && DescriptionOK(p.description) && AccountOK(AccountPtr(p.account))
  {
    var ts := Fields(raw);
    var p := Parsed(raw, today);
    DescriptionIsText(ts);
    FilterMembers(ts, IsAccountToken);
    AccountHasNoSpace(Filter(ts, IsAccountToken));
    GateErrorsEmpty(AmountToken(ts).Some?, p.description, |Filter(ts, IsDateToken)|, |Filter(ts, IsAccountToken)|);
  }

  lemma GateErrorsEmpty(hasAmount: bool, description: string, dates: nat, accounts: nat)
    ensures GateErrors(hasAmount, description, dates, accounts) == [] <==>
            hasAmount && description != "" && dates <= 1 && accounts <= 1
  {}

  lemma {:induction false} OthersMembers<T>(s: seq<T>, p: T -> bool, q: T -> bool)
    ensures forall x :: x in Others(s, p, q) ==> x in s && q(x)
  {
    if s != [] {
      if p(s[0]) {
        FilterMembers(s[1..], q);
      } else {
        OthersMembers(s[1..], p, q);
      }
      assert forall x :: x in s[1..] ==> x in s;
      assert s[0] in s;
    }
  }

  lemma DescriptionIsText(ts: seq<string>)
    requires AllTokens(ts) && Join(DescriptionTokens(ts)) != ""
    ensures DescriptionOK(Join(DescriptionTokens(ts)))
  {
    hide IsTextToken, IsAmountToken, Fields, Join;
    var text := DescriptionTokens(ts);
    OthersMembers(ts, IsAmountToken, IsTextToken);
    forall k | 0 <= k < |text| ensures IsToken(text[k]) && IsTextToken(text[k]) {
      assert text[k] in text;
      assert text[k] in ts;
    }
    FieldsOfJoin(text);
  }

  lemma AccountHasNoSpace(accounts: seq<string>)
    requires forall t :: t in accounts ==> IsAccountToken(t) && IsToken(t)
    ensures AccountOK(AccountPtr(AccountIn(accounts)))
  {
    if accounts != [] {
      assert accounts[0] in accounts;
    }
  }

  /** Whatever a good intent lets through is a good record, of the intent's kind, identity and link. */
  lemma SubmitIsGood(intent: Intent, raw: string, today: Day)
    requires GoodIntent(intent) && Submit(intent, raw, today).OK()
    ensures var s := Submit(intent, raw, today);
            && (s.expense.Some? ==>
                  var e := s.expense.value;
                  GoodExpense(e) && e.base.id == intent.id && e.settlement == s.parsed.isSettlement
                  && (!e.settlement ==> e.shared == intent.shared && e.paidBy == intent.PaidBy()))
            && (s.income.Some? ==>
                  var i := s.income.value;
                  GoodIncome(i) && i.base.id == intent.id && i.settlement == s.parsed.isSettlement
                  && i.linked == intent.linked)
            && (intent.kind == EditingExpense ==> s.expense.Some? && s.expense.value.settlement == intent.settlement)
            && (intent.kind == EditingIncome ==> s.income.Some? && s.income.value.settlement == intent.settlement)
            && (intent.kind == AddingPayback ==> s.income.Some?)
  {
    hide Parsed, Meaning, DescriptionOK, AccountOK;
    assert Parsed(raw, today).OK() by {
      assert Parsed(raw, today).errors <= Submit(intent, raw, today).parsed.errors;
    }
    ParsedIsStorable(raw, today);
    ParsedFlagsExclude(raw, today);
  }

  // ----- What a submission saves, in terms of its line alone

  /** The columns a line fills. */
  function Filled(p: ParsedEntry, raw: string, id: int, createdAt: int, updatedAt: int): Entry {
    Entry(id, p.date, p.amount, p.description, AccountPtr(p.account), raw, createdAt, updatedAt)
  }

  /** Whether the line's sigil is one the intent allows. */
  predicate Fits(intent: Intent, p: ParsedEntry) {
    match intent.kind
    case Adding => if intent.shared then !p.isIncome else !p.isSettlement
    case AddingPayback => p.isIncome
    case EditingExpense => !p.isIncome && p.isSettlement == intent.settlement
    case EditingIncome => if intent.settlement then p.isSettlement else p.isIncome
  }

  lemma KindErrorsReject(intent: Intent, p: ParsedEntry)
    requires GoodIntent(intent) && !(p.isIncome && p.isSettlement)
    ensures KindErrors(intent, p) == [] <==> Fits(intent, p)
  {}

  lemma ErrorsAppend(errors: seq<ParseError>, more: seq<ParseError>)
    ensures errors + more == [] <==> errors == [] && more == []
  {}

  /** A submission reports the line's own errors and then, when its sigil does not fit, one more: in the
      add box by the tab, in an edit by what the record must stay. The rest of the parse stands. */
  lemma SubmissionErrors(intent: Intent, raw: string, today: Day)
    requires GoodIntent(intent)
    ensures var p := Parsed(raw, today);
            var misfit :=
              match intent.kind
              case Adding => if intent.shared then IncomeInShared else SettlementOutsideShared
              case AddingPayback => MustBeIncome
              case EditingExpense => if intent.settlement then MustBeSettlement else MustBeExpense
              case EditingIncome => if intent.settlement then MustBeSettlement else MustBeIncome;
            Submit(intent, raw, today).parsed == p.(errors := p.errors + if Fits(intent, p) then [] else [misfit])
  {
    hide Parsed;
    ParsedFlagsExclude(raw, today);
  }

  /** A submission succeeds exactly when the line passes the parser's gates with a sigil the intent allows.
      A settlement is Javi's unshared expense or Carla's unlinked income; a line of either kind fills the
      record's columns and the intent supplies the rest. */
  lemma SubmitFills(intent: Intent, raw: string, today: Day)
    requires GoodIntent(intent)
    ensures var s := Submit(intent, raw, today);
            var p := Parsed(raw, today);
            var filled := Filled(p, raw, intent.id, 0, 0);
            && (s.OK() <==> p.OK() && Fits(intent, p))
            && (s.OK() ==>
                  && p.amount > 0 && !(p.isIncome && p.isSettlement)
                  && s.income.Some? == (p.isIncome || (p.isSettlement && intent.PaidBy() == Carla))
                  && (s.income.Some? ==> s.income.value == Income(filled, intent.linked, p.isSettlement))
                  && (s.expense.Some? ==>
                        s.expense.value == Expense(filled, intent.shared && !p.isSettlement,
                          if p.isSettlement then Javi else intent.PaidBy(), p.isSettlement)))
  {
    hide Parsed, KindErrors, Storable, DescriptionOK, AccountOK;
    ParsedFlagsExclude(raw, today);
    var p := Parsed(raw, today);
    KindErrorsReject(intent, p);
    ErrorsAppend(p.errors, KindErrors(intent, p));
    if p.OK() {
      ParsedIsStorable(raw, today);
    }
  }

  lemma ParsedFlagsExclude(raw: string, today: Day)
    ensures var p := Parsed(raw, today); !(p.isIncome && p.isSettlement)
  {}

  lemma IntentsAreGood(payer: Payer, e: Expense, i: Income, today: Day, tab: bool)
    requires GoodExpense(e) && GoodIncome(i)
    ensures GoodIntent(Add()) && GoodIntent(AddShared(payer)) && GoodIntent(AddPayback(e))
    ensures EditExpense(e, today).Some? ==> GoodIntent(EditExpense(e, today).value)
    ensures EditIncome(i, today).Some? ==> GoodIntent(EditIncome(i, today).value.WithSharedTab(tab))
  {
    hide Storable, Editable;
  }

  // ----- The text round trip

  /** A record as an untouched edit submits it: everything kept but the text, the times the store owns,
      and the date when it drifts. */
  function Resubmitted(b: Entry, line: string, today: Day): Entry {
    b.(date := Redated(b.date, today), rawText := line, createdAt := 0, updatedAt := 0)
  }

  lemma ExpenseRoundTrip(e: Expense, today: Day)
    requires GoodExpense(e) && EditExpense(e, today).Some?
    ensures var s := Submit(EditExpense(e, today).value, ExpenseLine(e), today);
            s.OK() && s.income.None? && s.expense == Some(e.(base := Resubmitted(e.base, ExpenseLine(e), today)))
  {
    hide Parsed, DescriptionOK, AccountOK, Redated, Editable, IsToken, IsAmountToken, UnitsOf, EntryLineParts, FormatAmount;
    var sigil := if e.settlement then "=" else "";
    AmountTokenReads(e.base.amount, sigil);
    CanonicalMeaning(e.base, sigil + FormatAmount(e.base.amount), today);
    AccountTextRoundTrip(e.base.account);
  }

  lemma IncomeRoundTrip(i: Income, tab: bool, today: Day)
    requires GoodIncome(i) && EditIncome(i, today).Some?
    ensures var s := Submit(EditIncome(i, today).value.WithSharedTab(tab), IncomeLine(i), today);
            s.OK() && s.expense.None? && s.income == Some(i.(base := Resubmitted(i.base, IncomeLine(i), today)))
  {
    hide Parsed, DescriptionOK, AccountOK, Redated, Editable, IsToken, IsAmountToken, UnitsOf, EntryLineParts, FormatAmount;
    var sigil := if i.settlement then "=" else "+";
    AmountTokenReads(i.base.amount, sigil);
    CanonicalMeaning(i.base, sigil + FormatAmount(i.base.amount), today);
    AccountTextRoundTrip(i.base.account);
  }

  lemma AccountTextRoundTrip(a: Option<string>)
    requires AccountOK(a)
    ensures AccountPtr(AccountText(a)) == a
  {}

  /** Any record any good intent ever let through, stored under any identity, can be resubmitted from its
      own line whenever it may be edited, and comes back the same in every field the user can set exactly
      when it is not dated ahead of today nor on last year's leap day. */
  lemma SubmittedRoundTrip(intent: Intent, raw: string, day: Day, id: int, tab: bool, today: Day)
    requires GoodIntent(intent) && Submit(intent, raw, day).OK()
    ensures var s := Submit(intent, raw, day);
            && (s.expense.Some? ==>
                  var e := s.expense.value.(base := s.expense.value.base.(id := id));
                  EditExpense(e, today).Some? ==>
                    var again := Submit(EditExpense(e, today).value, ExpenseLine(e), today).expense;
                    && again.Some?
                    && (again.value == e.(base := e.base.(rawText := ExpenseLine(e))) <==>
                        e.base.date <= today && !IsLeapDayOfPreviousYear(e.base.date, today)))
            && (s.income.Some? ==>
                  var i := s.income.value.(base := s.income.value.base.(id := id));
                  EditIncome(i, today).Some? ==>
                    var again := Submit(EditIncome(i, today).value.WithSharedTab(tab), IncomeLine(i), today).income;
                    && again.Some?
                    && (again.value == i.(base := i.base.(rawText := IncomeLine(i))) <==>
                        i.base.date <= today && !IsLeapDayOfPreviousYear(i.base.date, today)))
  {
    SubmitIsGood(intent, raw, day);
    var s := Submit(intent, raw, day);
    SubmissionsAreUntimed(intent, raw, day);
    hide Submit, Redated, Editable, IsLeapDayOfPreviousYear, DescriptionOK, AccountOK;
    if s.expense.Some? {
      var e := s.expense.value.(base := s.expense.value.base.(id := id));
      if EditExpense(e, today).Some? {
        ExpenseRoundTrip(e, today);
        EditableDateSurvives(e.base.date, today);
      }
    }
    if s.income.Some? {
      var i := s.income.value.(base := s.income.value.base.(id := id));
      if EditIncome(i, today).Some? {
        IncomeRoundTrip(i, tab, today);
        EditableDateSurvives(i.base.date, today);
      }
    }
  }

  lemma SubmissionsAreUntimed(intent: Intent, raw: string, today: Day)
    ensures var s := Submit(intent, raw, today);
            && (s.expense.Some? ==> s.expense.value.base.createdAt == 0 && s.expense.value.base.updatedAt == 0)
            && (s.income.Some? ==> s.income.value.base.createdAt == 0 && s.income.value.base.updatedAt == 0)
  {}
}
