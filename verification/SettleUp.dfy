/** Settling and forgiving the displayed balance through the entry box and the forgive form. */
module SettleUp {
  import opened Text
  import opened Options
  import opened Sequences
  import opened Amounts
  import opened Calendar
  import opened Records
  import opened Parsing
  import opened Canonical
  import opened Intents
  import opened Tables
  import opened Balance
  import opened Ledger
  import opened BalanceSteps

  /** What Javi owes Carla as shown; negative when Carla owes Javi. */
  function OwedIn(t: Tables): int {
    Rounded(DoubledOf(t)) + Forgiven(t)
  }

  lemma CurrentBalanceIs(t: Tables)
    ensures CurrentBalance(t) == Worded(OwedIn(t))
  {
    SortContents(AllRows(t.forgivenesses), ForgivenessDay);
    SumOfMultiset(ListForgivenesses(t), AllRows(t.forgivenesses), ForgivenAmount);
  }

  /** The prefilled texts: = and the balance with two decimals to settle, the same without = to forgive. */
  lemma PrefillsAreWritten()
    ensures SettleRaw(Balance(Some(Carla), 5000)) == "=50.00" && SettleRaw(Balance(Some(Javi), 7)) == "=0.07"
    ensures MoneyText(123456) == "1234.56"
  {
    hide Decimal;
    SomeNumerals();
  }

  lemma SomeNumerals()
    ensures Decimal(0) == "0" && Decimal(50) == "50" && Decimal(1234) == "1234"
  {
    assert Decimal(5) == "5" && Decimal(1) == "1" && Decimal(12) == "12" && Decimal(123) == "123";
  }

  // ----- Settling up

  /** The prefilled settlement of a balance, for the user who owes it: =50.00. */
  function SettleRaw(b: Balance): string {
    "=" + MoneyText(b.amount)
  }

  /** The debtor sends the prefilled settlement with some words of their own behind it. */
  predicate IsSettleUp(t: Tables, s: Step, words: string) {
    var b := CurrentBalance(t);
    b.debtor.Some? && s.request == AddLine(b.debtor.value, true, None, SettleRaw(b) + " " + words)
  }

  lemma SettleTokenReads(n: nat)
    requires n > 0
    ensures var t := "=" + MoneyText(n);
            IsToken(t) && IsAmountToken(t) && UnitsOf(t) == n && IsSettlementNumber(t) && !IsIncomeNumber(t)
  {
    var m := MoneyText(n);
    var t := "=" + m;
    MoneyTextRoundTrip(n);
    BareNumberIsToken(m);
    assert t[1..] == m;
    assert !IsBareNumber(t) by { if IsBareNumber(t) { BareNumberIsToken(t); } }
  }

  /** A settle-up is saved exactly when the debtor's words complete the line. */
  lemma SettleUpIsSaved(t: Tables, s: Step, words: string)
    requires Inv(t) && IsSettleUp(t, s, words)
    ensures Handle(t, s.request, s.today, s.now).1 == Saved <==> Completes(words)
  {
    hide HandleAdd, Parsed, Completes, MoneyText, CurrentBalance, Inv;
    var b := CurrentBalance(t);
    SettleUpDebtor(t, s, words);
    SettleTokenReads(b.amount);
    LeadingAmount(SettleRaw(b), words, s.today);
    AddFrame(t, b.debtor.value, true, None, SettleRaw(b) + " " + words, s.today, s.now);
  }

  /** A saved settle-up moves the doubled balance by twice what was displayed, towards zero. */
  lemma SettleUpPays(t: Tables, s: Step, words: string)
    requires Inv(t) && IsSettleUp(t, s, words) && Handle(t, s.request, s.today, s.now).1 == Saved
    ensures DoubledOf(After(t, s)) == DoubledOf(t) - 2 * OwedIn(t)
    ensures Forgiven(After(t, s)) == Forgiven(t)
  {
    hide Submit, DoubledOf, Forgiven, MoneyText, CurrentBalance, GoodExpense, GoodIncome, Inv, InsertExpense, InsertIncome, Fields;
    var b := CurrentBalance(t);
    var user := b.debtor.value;
    CurrentBalanceIs(t);
    SettleTokenReads(b.amount);
    var sub := Submit(AddShared(user), SettleRaw(b) + " " + words, s.today);
    SettlementSubmission(user, SettleRaw(b), words, b.amount, s.today);
    SubmitIsGood(AddShared(user), SettleRaw(b) + " " + words, s.today);
    if sub.income.Some? {
      AddIncomeMoves(t, sub.income.value, s.now);
    } else {
      AddExpenseMoves(t, sub.expense.value, s.now);
    }
    InsertsForgiveNothing(t, s);
  }

  lemma InsertsForgiveNothing(t: Tables, s: Step)
    requires s.request.AddLine?
    ensures Forgiven(After(t, s)) == Forgiven(t)
  {
    hide Submit;
  }

  lemma SettlementSubmission(user: Payer, tok: string, words: string, n: nat, today: Day)
    requires IsToken(tok) && IsAmountToken(tok) && UnitsOf(tok) == n && IsSettlementNumber(tok)
    requires Submit(AddShared(user), tok + " " + words, today).OK()
    ensures var sub := Submit(AddShared(user), tok + " " + words, today);
            && (user == Carla ==> sub.income.Some? && sub.income.value.settlement && sub.income.value.linked.None?
                                  && sub.income.value.base.amount == n)
            && (user == Javi ==> sub.expense.Some? && sub.expense.value.settlement && sub.expense.value.base.amount == n)
  {
    hide Parsed, Fields, IsToken, IsAmountToken, UnitsOf;
    LeadingAmount(tok, words, today);
  }

  /** After a settle-up at most one cent is left, and none exactly when the doubled balance was even, or
      it was negative and something had been forgiven. */
  lemma SettleUpLeavesACent(t: Tables, s: Step, words: string)
    requires Inv(t) && IsSettleUp(t, s, words) && Handle(t, s.request, s.today, s.now).1 == Saved
    ensures var b, b' := CurrentBalance(t), CurrentBalance(After(t, s));
            && b'.amount <= 1
            && (b' == EVEN <==> b'.amount == 0)
            && (b' == EVEN <==> DoubledOf(t) % 2 == 0 || (DoubledOf(t) < 0 && Forgiven(t) > 0))
            && (b'.amount == 1 && Forgiven(t) == 0 ==> b'.debtor == Some(Other(b.debtor.value)))
            && DoubledOf(After(t, s)) % 2 == DoubledOf(t) % 2
  {
    hide DoubledOf, Forgiven, After, CurrentBalance, Inv, IsSettleUp;
    SettleUpPays(t, s, words);
    CurrentBalanceIs(t);
    CurrentBalanceIs(After(t, s));
    ForgivenIsNatural(t);
    RoundedIsNearest(DoubledOf(t));
    RoundedIsNearest(DoubledOf(After(t, s)));
    SettleUpDebtor(t, s, words);
  }

  lemma SettleUpDebtor(t: Tables, s: Step, words: string)
    requires IsSettleUp(t, s, words)
    ensures CurrentBalance(t).debtor.Some? && CurrentBalance(t).amount > 0 && OwedIn(t) != 0
  {
    CurrentBalanceIs(t);
  }

  lemma {:induction false} AmountsAreNatural(fs: seq<Forgiveness>)
    ensures Sum(fs, ForgivenAmount) >= 0
  {
    if fs != [] { AmountsAreNatural(fs[1..]); }
  }

  lemma ForgivenIsNatural(t: Tables)
    ensures Forgiven(t) >= 0
  {
    AmountsAreNatural(AllRows(t.forgivenesses));
  }

  /** A run in which every step is a saved settle-up of the balance it finds. */
  ghost predicate SettleUpRun(t: Tables, steps: seq<Step>)
    decreases |steps|
  {
    steps != [] ==>
    && (exists words :: IsSettleUp(t, steps[0], words))
    && Handle(t, steps[0].request, steps[0].today, steps[0].now).1 == Saved
    && SettleUpRun(After(t, steps[0]), steps[1..])
  }

  function DebtorAfter(p: Payer, n: nat): Payer {
    if n % 2 == 0 then p else Other(p)
  }

  /** With nothing forgiven and an odd doubled balance, settling up never ends: each settle-up leaves one
      cent and hands the debt to the other user. */
  lemma {:induction false} OddSettleUpsAlternate(t: Tables, steps: seq<Step>)
    requires Inv(t) && SettleUpRun(t, steps) && steps != []
    requires Forgiven(t) == 0 && DoubledOf(t) % 2 != 0
    ensures CurrentBalance(t).debtor.Some?
    ensures CurrentBalance(Run(t, steps)) == Balance(Some(DebtorAfter(CurrentBalance(t).debtor.value, |steps|)), 1)
    decreases |steps|
  {
    hide DoubledOf, Forgiven, After, CurrentBalance, IsSettleUp, Inv, Handle;
    var s, rest := steps[0], steps[1..];
    var words :| IsSettleUp(t, s, words);
    SettleUpDebtor(t, s, words);
    SettleUpLeavesACent(t, s, words);
    SettleUpPays(t, s, words);
    var t' := After(t, s);
    StepKeepsInvariant(t, s);
    if rest == [] {
      assert Run(t', rest) == t';
    } else {
      OddSettleUpsAlternate(t', rest);
    }
  }

  function SettleUpStep(t: Tables, words: string, today: Day, now: int): Step
    requires CurrentBalance(t).debtor.Some?
  {
    var b := CurrentBalance(t);
    Step(AddLine(b.debtor.value, true, None, SettleRaw(b) + " " + words), today, now)
  }

  /** Settle-ups one after another, as many as asked for while someone owes. */
  function SettleUps(t: Tables, n: nat, words: string, today: Day, now: int): seq<Step>
    decreases n
  {
    if n == 0 || CurrentBalance(t).debtor.None? then []
    else
      var s := SettleUpStep(t, words, today, now);
      [s] + SettleUps(After(t, s), n - 1, words, today, now)
  }

  /** Such runs exist at every length. */
  lemma {:induction false} OddSettleUpsGoOn(t: Tables, n: nat, words: string, today: Day, now: int)
    requires Inv(t) && Completes(words)
    requires CurrentBalance(t).debtor.Some? && Forgiven(t) == 0 && DoubledOf(t) % 2 != 0
    ensures |SettleUps(t, n, words, today, now)| == n && SettleUpRun(t, SettleUps(t, n, words, today, now))
    decreases n
  {
    hide DoubledOf, Forgiven, After, CurrentBalance, Inv, Handle, Completes, SettleRaw;
    if n > 0 {
      var s := SettleUpStep(t, words, today, now);
      var rest := SettleUps(After(t, s), n - 1, words, today, now);
      assert IsSettleUp(t, s, words);
      SettleUpIsSaved(t, s, words);
      SettleUpLeavesACent(t, s, words);
      SettleUpPays(t, s, words);
      StepKeepsInvariant(t, s);
      OddSettleUpsGoOn(After(t, s), n - 1, words, today, now);
      assert ([s] + rest)[1..] == rest;
    }
  }

  /** A ledger to start one from: Javi pays one shared cent. */
  lemma OneCentIsOdd(today: Day)
    ensures var t := Run(EMPTY, [Step(AddLine(Javi, true, None, "0.01 x"), today, 0)]);
            Inv(t) && DoubledOf(t) == -1 && Forgiven(t) == 0 && CurrentBalance(t) == Balance(Some(Carla), 1)
  {
    hide HandleAdd, Parsed, Inv, FormatAmount, CurrentBalance, Doubled;
    var s := Step(AddLine(Javi, true, None, "0.01 x"), today, 0);
    var t := After(EMPTY, s);
    assert Run(EMPTY, [s]) == t by { assert [s][1..] == []; }
    EveryRunIsGood([]);
    EveryRunIsGood([s]);
    OneCentText();
    TwoTokenLine(1, "", "x", today);
    assert "" + "0.01" + " " + "x" == "0.01 x";
    AddFrame(EMPTY, Javi, true, None, "0.01 x", today, 0);
    StepMovesBalance(EMPTY, s);
    NothingIsOwed();
    CurrentBalanceIs(t);
  }

  lemma OneCentText()
    ensures FormatAmount(1) == "0.01"
  {}

  lemma NothingIsOwed()
    ensures DoubledOf(EMPTY) == 0 && Forgiven(EMPTY) == 0
  {}

  // ----- Forgiving

  /** The forgive form's prefilled amount reads back to the whole balance. */
  lemma ForgiveAmountReads(b: Balance)
    ensures ParseAmount(MoneyText(b.amount)) == (b.amount, true)
  {
    MoneyTextRoundTrip(b.amount);
  }

  /** A forgive form is accepted exactly from Javi, while Carla owes him, for a bare number above zero and
      within the balance (or a blank one), on a day that is not ahead (or a blank one). Any other changes
      nothing; Carla is told there is no such page. */
  lemma ForgiveIsAccepted(t: Tables, user: Payer, amount: string, date: PostedDate, today: Day, now: int)
    ensures var (t', r) := Handle(t, Forgive(user, amount, date), today, now);
            && (r == Missing <==> user == Carla)
            && (r != Saved ==> t' == t && (r == Missing || r == Unprocessable))
            && (r == Saved ==> t'.expenses == t.expenses && t'.incomes == t.incomes)
    ensures Handle(t, Forgive(user, amount, date), today, now).1 == Saved <==>
            && user == Javi && CurrentBalance(t).debtor == Some(Carla)
            && (amount == "" || (ParseAmount(amount).1 && 0 < ParseAmount(amount).0 <= CurrentBalance(t).amount))
            && (date == Blank || (date.OnDay? && date.day <= today))
  {
    hide CurrentBalance, IsBareNumber, AmountMinorUnits;
    DebtHasAmount(t);
  }

  /** An accepted forgiveness lowers the balance by exactly itself, never past zero, and deleting it
      restores the ledger as it was. */
  lemma ForgiveLowersBalance(t: Tables, amount: string, date: PostedDate, today: Day, now: int)
    requires Inv(t) && Handle(t, Forgive(Javi, amount, date), today, now).1 == Saved
    ensures var t' := Handle(t, Forgive(Javi, amount, date), today, now).0;
            var id := NextId(t.forgivenesses.Keys);
            && id in t'.forgivenesses
            && (var asked := if amount == "" then CurrentBalance(t).amount else ParseAmount(amount).0;
                && t'.forgivenesses == t.forgivenesses[id := Forgiveness(id, if date.OnDay? then date.day else today, asked, now)]
                && CurrentBalance(t') == Worded(asked - CurrentBalance(t).amount)
                && asked <= CurrentBalance(t).amount)
            && Handle(t', DeleteForgiveness(Javi, id), today, now) == (t, Saved)
  {
    hide CurrentBalance, DoubledOf, ParseAmount, Inv, Handle;
    var t' := Handle(t, Forgive(Javi, amount, date), today, now).0;
    var id := NextId(t.forgivenesses.Keys);
    ForgiveStores(t, amount, date, today, now);
    CurrentBalanceIs(t);
    CurrentBalanceIs(t');
    SumUpdate(t.forgivenesses, id, t'.forgivenesses[id], ForgivenAmount);
    SameRecordsSameDoubled(t, t');
    StepKeepsInvariant(t, Step(Forgive(Javi, amount, date), today, now));
    TakingBackRestoresDebt(t', Javi, id, today, now);
    assert t'.forgivenesses - {id} == t.forgivenesses;
  }

  lemma ForgiveStores(t: Tables, amount: string, date: PostedDate, today: Day, now: int)
    requires Handle(t, Forgive(Javi, amount, date), today, now).1 == Saved
    ensures var asked := if amount == "" then CurrentBalance(t).amount else ParseAmount(amount).0;
            var id := NextId(t.forgivenesses.Keys);
            && asked <= CurrentBalance(t).amount && CurrentBalance(t).debtor == Some(Carla)
            && Handle(t, Forgive(Javi, amount, date), today, now).0 ==
                 t.(forgivenesses := t.forgivenesses[id := Forgiveness(id, if date.OnDay? then date.day else today, asked, now)])
  {
    hide CurrentBalance, ParseAmount, NextId;
  }

  /** Only Javi can take a forgiveness back; that removes its row alone, and Carla owes its amount again. */
  lemma TakingBackRestoresDebt(t: Tables, user: Payer, id: int, today: Day, now: int)
    requires Inv(t)
    ensures var (t', r) := Handle(t, DeleteForgiveness(user, id), today, now);
            && (r == Saved <==> user == Javi && id in t.forgivenesses)
            && (r != Saved ==> t' == t && r == Missing)
            && (r == Saved ==>
                  && t' == t.(forgivenesses := t.forgivenesses - {id})
                  && OwedIn(t') == OwedIn(t) - t.forgivenesses[id].amount
                  && CurrentBalance(t') == Worded(OwedIn(t')))
  {
    hide CurrentBalance, DoubledOf;
    var (t', r) := Handle(t, DeleteForgiveness(user, id), today, now);
    if r == Saved {
      CurrentBalanceIs(t');
      SumWithout(t.forgivenesses, id, ForgivenAmount);
      SameRecordsSameDoubled(t, t');
    }
  }

  lemma SameRecordsSameDoubled(t: Tables, t': Tables)
    requires t.expenses == t'.expenses && t.incomes == t'.incomes
    ensures DoubledOf(t) == DoubledOf(t')
  {}

  /** Forgiving the prefilled amount leaves the two even, odd cents and all. */
  lemma ForgivingAllLeavesEven(t: Tables, today: Day, now: int)
    requires Inv(t) && CurrentBalance(t).debtor == Some(Carla)
    ensures var (t', r) := Handle(t, Forgive(Javi, MoneyText(CurrentBalance(t).amount), Blank), today, now);
            r == Saved && CurrentBalance(t') == EVEN
  {
    hide CurrentBalance, MoneyText, Inv, ParseAmount;
    var amount := MoneyText(CurrentBalance(t).amount);
    ForgiveAmountReads(CurrentBalance(t));
    MoneyTextIsNotBlank(CurrentBalance(t).amount);
    DebtHasAmount(t);
    ForgiveIsAccepted(t, Javi, amount, Blank, today, now);
    ForgiveLowersBalance(t, amount, Blank, today, now);
  }

  lemma DebtHasAmount(t: Tables)
    ensures CurrentBalance(t).debtor.Some? ==> CurrentBalance(t).amount > 0
  {
    CurrentBalanceIs(t);
  }
}
