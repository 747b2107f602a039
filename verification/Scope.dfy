/** Carla's scope: what she can load, and when her steps leave the ordinary tab alone. */
module Scope {
  import opened Text
  import opened Options
  import opened Sequences
  import opened Amounts
  import opened Calendar
  import opened Records
  import opened Parsing
  import opened Canonical
  import opened Intents
  import opened Tables
  import opened Balance
  import opened Ledger
  import opened Tabs
  import BalanceSteps

  // ----- The tabs of a ledger

  function OrdinaryTab(t: Tables): (seq<Expense>, seq<Income>) {
    (TabExpenses(ListExpenses(t), false), TabIncomes(ListExpenses(t), ListIncomes(t), false))
  }

  // ----- Loading

  /** Carla can load an expense exactly when the Shared tab lists it. */
  lemma CarlaLoadsListedExpenses(t: Tables, id: int)
    requires Inv(t)
    ensures LoadExpense(t, Carla, id).Some? <==>
            id in t.expenses && t.expenses[id] in TabExpenses(ListExpenses(t), true)
  {
    hide Inv, ListExpenses;
    ListsAreGood(t);
    FilterMembers(ListExpenses(t), InTab(true));
    if id in t.expenses { ExpenseRow(t, id); }
  }

  /** Carla can load an income exactly when the Shared tab lists it. */
  lemma CarlaLoadsListedIncomes(t: Tables, id: int)
    requires Inv(t)
    ensures LoadIncome(t, Carla, id).Some? <==>
            id in t.incomes && t.incomes[id] in TabIncomes(ListExpenses(t), ListIncomes(t), true)
  {
    hide Inv, ListExpenses, ListIncomes, IncomeIsShared;
    ListsAreGood(t);
    FilterMembers(ListIncomes(t), IncomeInTab(ListExpenses(t), true));
    if id in t.incomes {
      IncomeRow(t, id);
      IncomeSharedInLedger(t, t.incomes[id]);
    }
  }

  lemma IncomeRow(t: Tables, id: int)
    requires Inv(t) && id in t.incomes
    ensures id >= 1 && t.incomes[id].base.id == id && GoodIncome(t.incomes[id])
    ensures t.incomes[id].linked.Some? ==> t.incomes[id].linked.value in t.expenses
  {}

  // ----- The ordinary tab is a function of the ordinary rows

  function OrdinaryExpenses(t: Tables): map<int, Expense> {
    map k | k in t.expenses && !InSharedTab(t.expenses[k]) :: t.expenses[k]
  }

  function OrdinaryIncomes(t: Tables): map<int, Income> {
    map k | k in t.incomes && !IncomeOfSharedTab(t, t.incomes[k]) :: t.incomes[k]
  }

  lemma OrdinaryTabIs(t: Tables)
    requires Inv(t)
    ensures OrdinaryTab(t) == (Sort(AllRows(OrdinaryExpenses(t)), ExpenseDay), Sort(AllRows(OrdinaryIncomes(t)), IncomeDay))
  {
    hide Inv, AllRows, Sort, IncomeIsShared, IncomeOfSharedTab, InSharedTab;
    FilterOfSort(AllRows(t.expenses), ExpenseDay, InTab(false));
    AllRowsOfSubmap(t.expenses, OrdinaryExpenses(t), InTab(false));
    var tab := IncomeInTab(ListExpenses(t), false);
    FilterOfSort(AllRows(t.incomes), IncomeDay, tab);
    forall k | k in t.incomes ensures tab(t.incomes[k]) == !IncomeOfSharedTab(t, t.incomes[k]) {
      IncomeSharedInLedger(t, t.incomes[k]);
    }
    AllRowsOfSubmap(t.incomes, OrdinaryIncomes(t), tab);
  }

  /** The ordinary rows of two ledgers agree when they do id by id. */
  lemma SameOrdinaryIncomes(t: Tables, t': Tables)
    requires forall k :: (k in t.incomes && !IncomeOfSharedTab(t, t.incomes[k])) <==> (k in t'.incomes && !IncomeOfSharedTab(t', t'.incomes[k]))
    requires forall k :: k in t.incomes && k in t'.incomes && !IncomeOfSharedTab(t, t.incomes[k]) ==> t.incomes[k] == t'.incomes[k]
    ensures OrdinaryIncomes(t) == OrdinaryIncomes(t')
  {
    var a, b := OrdinaryIncomes(t), OrdinaryIncomes(t');
    forall k ensures k in a <==> k in b {
      assert (k in t.incomes && !IncomeOfSharedTab(t, t.incomes[k])) <==> (k in t'.incomes && !IncomeOfSharedTab(t', t'.incomes[k]));
    }
    forall k | k in a ensures k in b && a[k] == b[k] {
      assert k in t.incomes && k in t'.incomes && t.incomes[k] == t'.incomes[k];
    }
  }

  lemma SameRowsSameTab(t: Tables, t': Tables)
    requires Inv(t) && Inv(t')
    requires OrdinaryExpenses(t) == OrdinaryExpenses(t') && OrdinaryIncomes(t) == OrdinaryIncomes(t')
    ensures OrdinaryTab(t) == OrdinaryTab(t')
  {
    hide Inv, OrdinaryTab, OrdinaryExpenses, OrdinaryIncomes;
    OrdinaryTabIs(t);
    OrdinaryTabIs(t');
  }

  /** Different ordinary incomes are a different ordinary tab. */
  lemma OtherIncomesOtherTab(t: Tables, t': Tables, id: int)
    requires Inv(t) && Inv(t')
    requires id in OrdinaryIncomes(t) && id !in OrdinaryIncomes(t')
    ensures OrdinaryTab(t) != OrdinaryTab(t')
  {
    hide Inv, OrdinaryTab, AllRows, Sort, IncomeOfSharedTab;
    OrdinaryTabIs(t);
    OrdinaryTabIs(t');
    var i := OrdinaryIncomes(t)[id];
    IncomeRow(t, id);
    OrdinaryMember(t, i);
    OrdinaryMember(t', i);
  }

  lemma OrdinaryMember(t: Tables, i: Income)
    requires Inv(t)
    ensures i in Sort(AllRows(OrdinaryIncomes(t)), IncomeDay) <==>
            i.base.id in OrdinaryIncomes(t) && OrdinaryIncomes(t)[i.base.id] == i
  {
    hide IncomeOfSharedTab;
    var m := OrdinaryIncomes(t);
    SortContents(AllRows(m), IncomeDay);
    AllRowsMembers(m, i);
  }

  // ----- Carla's steps

  /** A request aimed at the paybacks of a settlement: a line posted against it, or the deletion of one
      that has some. */
  predicate AimsAtSettlementPaybacks(t: Tables, r: Request) {
    match r
    case AddLine(_, _, linked, _) =>
      linked.Some? && linked.value in t.expenses && t.expenses[linked.value].settlement
    case Delete(_, ExpenseKind, id) =>
      && id in t.expenses && t.expenses[id].settlement
      && exists k :: k in t.incomes && t.incomes[k].linked == Some(id)
    case _ => false
  }

  /** Such a request that will be saved when Carla makes it: a posted line must be an income that passes
      the parser's gates. */
  predicate TouchesSettlementPaybacks(t: Tables, r: Request, today: Day) {
    && AimsAtSettlementPaybacks(t, r)
    && (r.AddLine? ==> Parsed(r.raw, today).OK() && Parsed(r.raw, today).isIncome)
  }

  lemma TouchingIsSaved(t: Tables, s: Step)
    requires Inv(t) && s.request.user == Carla
    ensures TouchesSettlementPaybacks(t, s.request, s.today) <==>
            AimsAtSettlementPaybacks(t, s.request) && Handle(t, s.request, s.today, s.now).1 == Saved
  {
    hide HandleAdd, HandleDelete, HandleEditSave, HandleForgive, HandleDeleteForgiveness, Parsed, GoodExpense, GoodIncome;
    match s.request
    case AddLine(_, sharedTab, linked, raw) => AddFrame(t, Carla, sharedTab, linked, raw, s.today, s.now);
    case Delete(_, kind, id) => DeleteFrame(t, Carla, kind, id, s.today, s.now);
    case _ =>
  }

  lemma InsertedExpenseRows(t: Tables, e: Expense, now: int)
    requires Inv(t) && GoodExpense(e) && InSharedTab(e)
    ensures var t' := InsertExpense(t, e, now);
            OrdinaryExpenses(t') == OrdinaryExpenses(t) && OrdinaryIncomes(t') == OrdinaryIncomes(t)
  {
    hide GoodExpense, GoodIncome;
    var t' := InsertExpense(t, e, now);
    forall k | k in t.incomes ensures IncomeOfSharedTab(t', t.incomes[k]) == IncomeOfSharedTab(t, t.incomes[k]) {
      IncomeRow(t, k);
    }
    SameOrdinaryIncomes(t, t');
  }

  lemma InsertedIncomeRows(t: Tables, i: Income, now: int)
    requires Inv(t) && GoodIncome(i) && (i.linked.Some? ==> i.linked.value in t.expenses)
    ensures var t' := InsertIncome(t, i, now).0;
            var id := NextId(t.incomes.Keys);
            && OrdinaryExpenses(t') == OrdinaryExpenses(t)
            && (IncomeOfSharedTab(t, i) ==> OrdinaryIncomes(t') == OrdinaryIncomes(t))
            && (!IncomeOfSharedTab(t, i) ==> id in OrdinaryIncomes(t') && id !in OrdinaryIncomes(t))
  {
    hide DescriptionOK, AccountOK;
  }

  /** What Carla's accepted line becomes: a shared expense, a settlement, or a payback of what she can see. */
  lemma CarlaSubmits(t: Tables, sharedTab: bool, linked: Option<int>, raw: string, today: Day)
    requires Inv(t) && AddIntent(t, Carla, sharedTab, linked).Some?
    requires Submit(AddIntent(t, Carla, sharedTab, linked).value, raw, today).OK()
    ensures var s := Submit(AddIntent(t, Carla, sharedTab, linked).value, raw, today);
            && (s.expense.Some? ==> InSharedTab(s.expense.value))
            && (s.income.Some? ==>
                  var parent := if linked.Some? && linked.value > 0 then linked else None;
                  && s.income.value.linked == parent
                  && (parent.None? ==> s.income.value.settlement)
                  && (parent.Some? ==> parent.value in t.expenses && InSharedTab(t.expenses[parent.value]) && !s.income.value.settlement))
            && (s.expense.Some? ==> linked.None? || linked.value <= 0)
  {
    hide Parsed, Storable;
    ParsedFlagsExclude(raw, today);
    AddIntentIsGood(t, Carla, sharedTab, linked);
    SubmitIsGood(AddIntent(t, Carla, sharedTab, linked).value, raw, today);
  }

  lemma CarlaAdds(t: Tables, sharedTab: bool, linked: Option<int>, raw: string, today: Day, now: int)
    requires Inv(t)
    ensures var s := Step(AddLine(Carla, sharedTab, linked, raw), today, now);
            OrdinaryTab(After(t, s)) == OrdinaryTab(t) <==> !(AimsAtSettlementPaybacks(t, s.request) && Handle(t, s.request, s.today, s.now).1 == Saved)
  {
    hide Submit, AddIntent, GoodIntent, GoodExpense, GoodIncome, Inv, OrdinaryTab, InsertExpense, InsertIncome, OrdinaryExpenses, OrdinaryIncomes;
    var s := Step(AddLine(Carla, sharedTab, linked, raw), today, now);
    var intent := AddIntent(t, Carla, sharedTab, linked);
    StepKeepsInvariant(t, s);
    if intent.Some? && Submit(intent.value, raw, today).OK() {
      AddIntentIsGood(t, Carla, sharedTab, linked);
      AddIntentAdds(t, Carla, sharedTab, linked);
      SubmitIsGood(intent.value, raw, today);
      CarlaSubmits(t, sharedTab, linked, raw, today);
      var sub := Submit(intent.value, raw, today);
      if linked.Some? && linked.value in t.expenses { ExpenseRow(t, linked.value); }
      if sub.income.Some? {
        InsertIncomeKeepsInvariant(t, sub.income.value, now);
        InsertedIncomeRows(t, sub.income.value, now);
        if IncomeOfSharedTab(t, sub.income.value) {
          SameRowsSameTab(t, After(t, s));
          if !sub.income.value.settlement { SharedParentIsNoSettlement(t, sub.income.value); }
        } else {
          OtherIncomesOtherTab(After(t, s), t, NextId(t.incomes.Keys));
        }
      } else {
        InsertedExpenseRows(t, sub.expense.value, now);
        SameRowsSameTab(t, After(t, s));
      }
    }
  }

  lemma SharedParentIsNoSettlement(t: Tables, i: Income)
    requires Inv(t) && IncomeOfSharedTab(t, i) && !i.settlement
    ensures i.linked.Some? && i.linked.value in t.expenses && !t.expenses[i.linked.value].settlement
  {
    ExpenseRow(t, i.linked.value);
  }

  lemma CarlaEdits(t: Tables, kind: Kind, id: int, raw: string, today: Day, now: int)
    requires Inv(t)
    ensures OrdinaryTab(After(t, Step(SaveEdit(Carla, kind, id, raw), today, now))) == OrdinaryTab(t)
  {
    hide HandleEditSave, GoodExpense, GoodIncome, OrdinaryTab;
    var s := Step(SaveEdit(Carla, kind, id, raw), today, now);
    var (t', r) := HandleEditSave(t, Carla, kind, id, raw, today, now);
    EditFrame(t, Carla, kind, id, raw, today, now);
    StepKeepsInvariant(t, s);
    if r == Saved {
      CarlaEditsShared(t, kind, id, raw, today, now);
      assert OrdinaryExpenses(t') == OrdinaryExpenses(t);
      SameOrdinaryIncomes(t, t');
      SameRowsSameTab(t, t');
    }
  }

  lemma CarlaEditsShared(t: Tables, kind: Kind, id: int, raw: string, today: Day, now: int)
    requires HandleEditSave(t, Carla, kind, id, raw, today, now).1 == Saved
    ensures kind == ExpenseKind ==> id in t.expenses && InSharedTab(t.expenses[id])
    ensures kind == IncomeKind ==> id in t.incomes && IncomeOfSharedTab(t, t.incomes[id])
  {
    hide Submit, Editable, ExpenseLine, IncomeLine;
  }

  lemma CarlaDeletes(t: Tables, kind: Kind, id: int, today: Day, now: int)
    requires Inv(t)
    ensures var s := Step(Delete(Carla, kind, id), today, now);
            OrdinaryTab(After(t, s)) == OrdinaryTab(t) <==> !(AimsAtSettlementPaybacks(t, s.request) && Handle(t, s.request, s.today, s.now).1 == Saved)
  {
    hide GoodExpense, GoodIncome, OrdinaryTab;
    var s := Step(Delete(Carla, kind, id), today, now);
    var (t', r) := HandleDelete(t, Carla, kind, id);
    StepKeepsInvariant(t, s);
    if r == Saved && kind == IncomeKind {
      DeletedIncomeRows(t, id);
      SameRowsSameTab(t, t');
    } else if r == Saved {
      ExpenseRow(t, id);
      if k :| k in t.incomes && t.incomes[k].linked == Some(id) && t.expenses[id].settlement {
        UnsharedSettlement(t, id);
        DeletedPaybackRows(t, id, k);
        OtherIncomesOtherTab(t, t', k);
      } else {
        DeletedExpenseRows(t, id);
        SameRowsSameTab(t, t');
      }
    }
  }

  lemma UnsharedSettlement(t: Tables, id: int)
    requires Inv(t) && id in t.expenses && t.expenses[id].settlement
    ensures !t.expenses[id].shared
  {}

  lemma DeletedIncomeRows(t: Tables, id: int)
    requires id in t.incomes && IncomeOfSharedTab(t, t.incomes[id])
    ensures var t' := RemoveIncome(t, id).0;
            OrdinaryExpenses(t') == OrdinaryExpenses(t) && OrdinaryIncomes(t') == OrdinaryIncomes(t)
  {
    SameOrdinaryIncomes(t, RemoveIncome(t, id).0);
  }

  lemma DeletedExpenseRows(t: Tables, id: int)
    requires id in t.expenses && InSharedTab(t.expenses[id])
    requires t.expenses[id].shared || forall k :: k in t.incomes ==> t.incomes[k].linked != Some(id)
    ensures var t' := RemoveExpense(t, id).0;
            OrdinaryExpenses(t') == OrdinaryExpenses(t) && OrdinaryIncomes(t') == OrdinaryIncomes(t)
  {
    var t' := RemoveExpense(t, id).0;
    forall k | k in t'.incomes ensures IncomeOfSharedTab(t', t'.incomes[k]) == IncomeOfSharedTab(t, t.incomes[k]) {}
    SameOrdinaryIncomes(t, t');
  }

  lemma DeletedPaybackRows(t: Tables, id: int, k: int)
    requires Inv(t) && id in t.expenses && !t.expenses[id].shared && k in t.incomes && t.incomes[k].linked == Some(id)
    ensures k in OrdinaryIncomes(t) && k !in OrdinaryIncomes(RemoveExpense(t, id).0)
  {}

  /** A step of Carla's, cascades included, leaves the ordinary tab as it was exactly when it does not touch
      the paybacks of a settlement. */
  lemma CarlaKeepsOrdinaryTab(t: Tables, s: Step)
    requires Inv(t) && s.request.user == Carla
    ensures OrdinaryTab(After(t, s)) == OrdinaryTab(t) <==> !TouchesSettlementPaybacks(t, s.request, s.today)
  {
    hide OrdinaryTab, Inv, HandleAdd, HandleEditSave, HandleDelete, Parsed;
    TouchingIsSaved(t, s);
    match s.request
    case AddLine(_, sharedTab, linked, raw) => CarlaAdds(t, sharedTab, linked, raw, s.today, s.now);
    case SaveEdit(_, kind, id, raw) => CarlaEdits(t, kind, id, raw, s.today, s.now);
    case Delete(_, kind, id) => CarlaDeletes(t, kind, id, s.today, s.now);
    case Forgive(_, amount, date) =>
    case DeleteForgiveness(_, id) =>
  }

  // ----- Runs without paybacks of settlements

  ghost predicate NoSettlementPaybacks(t: Tables) {
    forall k :: k in t.incomes && t.incomes[k].linked.Some? && t.incomes[k].linked.value in t.expenses ==>
      !t.expenses[t.incomes[k].linked.value].settlement
  }

  /** A payback posted against a settlement, as the page never offers but the server accepts. */
  predicate PostsSettlementPayback(t: Tables, r: Request) {
    r.AddLine? && r.linked.Some? && r.linked.value in t.expenses && t.expenses[r.linked.value].settlement
  }

  /** No step of the run posts a payback against a settlement. */
  ghost predicate CleanRun(t: Tables, steps: seq<Step>)
    decreases |steps|
  {
    steps != [] ==> !PostsSettlementPayback(t, steps[0].request) && CleanRun(After(t, steps[0]), steps[1..])
  }

  lemma CleanStep(t: Tables, s: Step)
    requires Inv(t) && NoSettlementPaybacks(t) && !PostsSettlementPayback(t, s.request)
    ensures NoSettlementPaybacks(After(t, s))
  {
    hide Submit, GoodExpense, GoodIncome, HandleEditSave, CurrentBalance;
    match s.request
    case AddLine(user, sharedTab, linked, raw) => CleanAdd(t, user, sharedTab, linked, raw, s.today, s.now);
    case SaveEdit(user, kind, id, raw) => EditFrame(t, user, kind, id, raw, s.today, s.now);
    case Delete(user, kind, id) =>
    case Forgive(_, _, _) =>
    case DeleteForgiveness(_, _) =>
  }

  lemma CleanAdd(t: Tables, user: Payer, sharedTab: bool, linked: Option<int>, raw: string, today: Day, now: int)
    requires Inv(t) && NoSettlementPaybacks(t) && !PostsSettlementPayback(t, AddLine(user, sharedTab, linked, raw))
    ensures NoSettlementPaybacks(HandleAdd(t, user, sharedTab, linked, raw, today, now).0)
  {
    hide Submit, AddIntent, GoodIntent, GoodExpense, GoodIncome;
    var intent := AddIntent(t, user, sharedTab, linked);
    if intent.Some? && Submit(intent.value, raw, today).OK() {
      AddIntentIsGood(t, user, sharedTab, linked);
      AddIntentAdds(t, user, sharedTab, linked);
      SubmitIsGood(intent.value, raw, today);
    }
  }

  lemma {:induction false} CleanRunsStayClean(t: Tables, steps: seq<Step>)
    requires Inv(t) && NoSettlementPaybacks(t) && CleanRun(t, steps)
    ensures NoSettlementPaybacks(Run(t, steps))
    decreases |steps|
  {
    hide Inv, After, NoSettlementPaybacks;
    if steps != [] {
      CleanStep(t, steps[0]);
      StepKeepsInvariant(t, steps[0]);
      CleanRunsStayClean(After(t, steps[0]), steps[1..]);
    }
  }

  /** Where no payback is ever posted against a settlement, no step of Carla's changes the ordinary tab. */
  lemma CarlaNeverTouchesOrdinaryTab(steps: seq<Step>, s: Step)
    requires CleanRun(EMPTY, steps) && s.request.user == Carla
    requires !PostsSettlementPayback(Run(EMPTY, steps), s.request)
    ensures OrdinaryTab(After(Run(EMPTY, steps), s)) == OrdinaryTab(Run(EMPTY, steps))
  {
    hide OrdinaryTab, Run, After, Inv, CleanRun;
    var t := Run(EMPTY, steps);
    EveryRunIsGood(steps);
    EmptyIsGood();
    CleanRunsStayClean(EMPTY, steps);
    CarlaKeepsOrdinaryTab(t, s);
  }

  lemma EmptyIsGood()
    ensures Inv(EMPTY) && NoSettlementPaybacks(EMPTY)
  {}

  // ----- The server accepts a payback of a settlement

  lemma WholeEuros()
    ensures FormatAmount(1000) == "10" && FormatAmount(500) == "5"
  {
    assert Decimal(1) == "1" && Decimal(10) == Decimal(1) + "0";
  }

  /** From an empty ledger Javi settles ten euros in the Shared tab and Carla posts a payback of five
      against that settlement: the payback is saved and changes the ordinary tab. */
  lemma PaybackOfSettlementReachesOrdinaryTab(today: Day)
    ensures var t := Run(EMPTY, [Step(AddLine(Javi, true, None, "=10 x"), today, 0)]);
            var s := Step(AddLine(Carla, true, Some(1), "+5 y"), today, 1);
            Handle(t, s.request, today, 1).1 == Saved && OrdinaryTab(After(t, s)) != OrdinaryTab(t)
  {
    hide Handle, OrdinaryTab, Parsed, Inv, FormatAmount, HandleAdd, Submit;
    WholeEuros();
    TwoTokenLine(1000, "=", "x", today);
    TwoTokenLine(500, "+", "y", today);
    assert "=" + "10" + " " + "x" == "=10 x" && "+" + "5" + " " + "y" == "+5 y";
    SettledTen(today);
    var steps := [Step(AddLine(Javi, true, None, "=10 x"), today, 0)];
    EveryRunIsGood(steps);
    var t := Run(EMPTY, steps);
    var s := Step(AddLine(Carla, true, Some(1), "+5 y"), today, 1);
    TouchingIsSaved(t, s);
    CarlaKeepsOrdinaryTab(t, s);
  }

  /** What Javi's settlement leaves: one expense under id 1. */
  lemma SettledTen(today: Day)
    requires Parsed("=10 x", today).OK() && Parsed("=10 x", today).isSettlement && !Parsed("=10 x", today).isIncome
    ensures var t := Run(EMPTY, [Step(AddLine(Javi, true, None, "=10 x"), today, 0)]);
            1 in t.expenses && t.expenses[1].settlement
  {
    hide HandleAdd, Parsed, Inv;
    EmptyIsGood();
    AddFrame(EMPTY, Javi, true, None, "=10 x", today, 0);
    var s := Step(AddLine(Javi, true, None, "=10 x"), today, 0);
    assert Run(EMPTY, [s]) == After(EMPTY, s) by { assert [s][1..] == []; }
  }

  // ----- Reused ids

  /** A new expense, even under the id of a deleted one, starts with no paybacks. */
  lemma NewExpenseHasNoPaybacks(t: Tables, e: Expense, now: int)
    requires Inv(t) && GoodExpense(e)
    ensures var t' := InsertExpense(t, e, now);
            PaybacksOf(NextId(t.expenses.Keys), ListIncomes(t')) == []
  {
    hide GoodExpense, GoodIncome;
    BalanceSteps.IncomesInTable(t);
    SortContents(AllRows(t.incomes), IncomeDay);
    FilterNone(ListIncomes(t), LinksTo(NextId(t.expenses.Keys)));
  }

  /** Deleting the expense with the highest id frees that id for the next one exactly when the ids below
      it leave no gap: when it is 1, or the id before it is in use. */
  lemma HighestIdIsReused(t: Tables, id: int)
    requires Inv(t) && id in t.expenses && forall k :: k in t.expenses ==> k <= id
    ensures NextId(RemoveExpense(t, id).0.expenses.Keys) == id <==> id == 1 || id - 1 in t.expenses
  {
    hide Inv;
    ExpenseRow(t, id);
    assert RemoveExpense(t, id).0.expenses.Keys == t.expenses.Keys - {id};
    PositiveIds(t);
    NextIdAfterHighest(t.expenses.Keys, id);
  }

  lemma PositiveIds(t: Tables)
    requires Inv(t)
    ensures forall k :: k in t.expenses ==> k >= 1
  {
    hide GoodExpense, GoodIncome;
  }

  lemma NextIdAfterHighest(ids: set<int>, id: int)
    requires id in ids && forall k :: k in ids ==> 1 <= k <= id
    ensures NextId(ids - {id}) == id <==> id == 1 || id - 1 in ids
  {
    var rest := ids - {id};
    assert id - 1 in ids ==> id - 1 in rest;
    assert forall k :: k in rest ==> k <= id - 1;
  }
}
