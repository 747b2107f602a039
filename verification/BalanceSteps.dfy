/** How each step of the ledger moves the Shared balance. */
module BalanceSteps {
  import opened Options
  import opened Sequences
  import opened Calendar
  import opened Records
  import opened Parsing
  import opened Canonical
  import opened Intents
  import opened Tables
  import opened Balance
  import opened Ledger

  /** Twice what Javi owes Carla in a ledger. */
  function DoubledOf(t: Tables): int {
    Doubled(ListExpenses(t), ListIncomes(t))
  }

  function Forgiven(t: Tables): int {
    Sum(AllRows(t.forgivenesses), ForgivenAmount)
  }

  // ----- The balance record by record

  /** What an expense contributes by itself, before any payback. */
  function OwnShare(e: Expense): int {
    if e.settlement then -2 * e.base.amount else if e.shared then Sign(e.paidBy) * e.base.amount else 0
  }

  /** What a payback takes off its parent's contribution: nothing unless the parent is shared. */
  function PaybackShare(i: Income, expenses: map<int, Expense>): int {
    if i.linked.None? || i.linked.value !in expenses then 0
    else
      var parent := expenses[i.linked.value];
      if parent.shared && !parent.settlement then -Sign(parent.paidBy) * i.base.amount else 0
  }

  function IncomeShare(i: Income, expenses: map<int, Expense>): int {
    SettlementShare(i) + PaybackShare(i, expenses)
  }

  function IncomeShareIn(expenses: map<int, Expense>): Income -> int {
    (i: Income) => IncomeShare(i, expenses)
  }

  function PaybackShareIn(expenses: map<int, Expense>): Income -> int {
    (i: Income) => PaybackShare(i, expenses)
  }

  /** What one payback changes in each expense's share. */
  function Adjustment(i: Income): Expense -> int {
    (e: Expense) => if i.linked == Some(e.base.id) && e.shared && !e.settlement then -Sign(e.paidBy) * i.base.amount else 0
  }

  lemma {:induction false} AdjustmentsSum(m: map<int, Expense>, n: nat, i: Income)
    requires forall k :: k in m ==> m[k].base.id == k
    ensures Sum(Rows(m, n), Adjustment(i)) ==
            if i.linked.Some? && 1 <= i.linked.value <= n then PaybackShare(i, m) else 0
  {
    if n > 0 {
      RowsTop(m, n, Adjustment(i));
      AdjustmentsSum(m, n - 1, i);
    }
  }

  lemma ShareStep(e: Expense, i: Income, rest: seq<Income>)
    ensures ExpenseShare(e, [i] + rest) == ExpenseShare(e, rest) + Adjustment(i)(e)
  {
    FilterAppend([i], rest, LinksTo(e.base.id));
    SumAppend(PaybacksOf(e.base.id, [i]), PaybacksOf(e.base.id, rest), IncomeAmount);
  }

  /** Regrouping the paybacks by payback instead of by parent. */
  lemma {:induction false} SharesByRecord(m: map<int, Expense>, ins: seq<Income>)
    requires forall k :: k in m ==> k >= 1 && m[k].base.id == k
    ensures Sum(AllRows(m), ShareGiven(ins)) == Sum(AllRows(m), OwnShare) + Sum(ins, PaybackShareIn(m))
  {
    if ins == [] {
      SumCongruent(AllRows(m), ShareGiven(ins), OwnShare);
    } else {
      var i, rest := ins[0], ins[1..];
      SharesByRecord(m, rest);
      assert ins == [i] + rest;
      forall e ensures ShareGiven(ins)(e) == ShareGiven(rest)(e) + Adjustment(i)(e) { ShareStep(e, i, rest); }
      SumPlus(AllRows(m), ShareGiven(rest), Adjustment(i), ShareGiven(ins));
      AdjustmentsSum(m, Highest(m.Keys), i);
    }
  }

  /** The doubled balance is the sum of every record's own contribution. */
  lemma DoubledByRecord(t: Tables)
    requires Inv(t)
    ensures DoubledOf(t) == Sum(AllRows(t.expenses), OwnShare) + Sum(AllRows(t.incomes), IncomeShareIn(t.expenses))
  {
    var es, ins := AllRows(t.expenses), AllRows(t.incomes);
    SortContents(es, ExpenseDay);
    SortContents(ins, IncomeDay);
    DoubledIgnoresOrder(ListExpenses(t), es, ListIncomes(t), ins);
    SharesByRecord(t.expenses, ins);
    SumPlus(ins, SettlementShare, PaybackShareIn(t.expenses), IncomeShareIn(t.expenses));
  }

  // ----- What each write moves

  lemma IncomesInTable(t: Tables)
    requires Inv(t)
    ensures forall i :: i in AllRows(t.incomes) ==> i.base.id in t.incomes && t.incomes[i.base.id] == i
  {
    hide GoodIncome, GoodExpense;
    forall i | i in AllRows(t.incomes) ensures i.base.id in t.incomes && t.incomes[i.base.id] == i {
      AllRowsMembers(t.incomes, i);
    }
  }

  lemma AddExpenseMoves(t: Tables, e: Expense, now: int)
    requires Inv(t) && GoodExpense(e)
    ensures DoubledOf(InsertExpense(t, e, now)) == DoubledOf(t) + OwnShare(e)
  {
    hide DoubledOf, DescriptionOK, AccountOK, AllRows, Sum;
    var t' := InsertExpense(t, e, now);
    var id := NextId(t.expenses.Keys);
    InsertExpenseKeepsInvariant(t, e, now);
    DoubledByRecord(t);
    DoubledByRecord(t');
    SumUpdate(t.expenses, id, t'.expenses[id], OwnShare);
    IncomesInTable(t);
    SumCongruent(AllRows(t.incomes), IncomeShareIn(t.expenses), IncomeShareIn(t'.expenses));
  }

  lemma AddIncomeMoves(t: Tables, i: Income, now: int)
    requires Inv(t) && GoodIncome(i) && (i.linked.Some? ==> i.linked.value in t.expenses)
    ensures DoubledOf(InsertIncome(t, i, now).0) == DoubledOf(t) + IncomeShare(i, t.expenses)
  {
    hide DoubledOf, DescriptionOK, AccountOK;
    var t' := InsertIncome(t, i, now).0;
    var id := NextId(t.incomes.Keys);
    InsertIncomeKeepsInvariant(t, i, now);
    DoubledByRecord(t);
    DoubledByRecord(t');
    SumUpdate(t.incomes, id, t'.incomes[id], IncomeShareIn(t.expenses));
  }

  /** Editing an expense moves the balance by the change in its own share; its paybacks stay as they were. */
  lemma ReplaceExpenseMoves(t: Tables, t': Tables, id: int)
    requires Inv(t) && Inv(t') && id in t.expenses && id in t'.expenses
    requires t' == t.(expenses := t.expenses[id := t'.expenses[id]])
    requires t'.expenses[id] == t.expenses[id].(base := t'.expenses[id].base)
    ensures DoubledOf(t') == DoubledOf(t) + OwnShare(t'.expenses[id]) - OwnShare(t.expenses[id])
  {
    hide DoubledOf, Inv, AllRows, OwnShare;
    ExpenseRow(t, id);
    DoubledByRecord(t);
    DoubledByRecord(t');
    SumUpdate(t.expenses, id, t'.expenses[id], OwnShare);
    SumCongruent(AllRows(t.incomes), IncomeShareIn(t.expenses), IncomeShareIn(t'.expenses));
  }

  lemma ReplaceIncomeMoves(t: Tables, t': Tables, id: int)
    requires Inv(t) && Inv(t') && id in t.incomes && id in t'.incomes
    requires t' == t.(incomes := t.incomes[id := t'.incomes[id]])
    ensures DoubledOf(t') == DoubledOf(t) + IncomeShare(t'.incomes[id], t.expenses) - IncomeShare(t.incomes[id], t.expenses)
  {
    hide DoubledOf, GoodExpense, GoodIncome;
    DoubledByRecord(t);
    DoubledByRecord(t');
    SumUpdate(t.incomes, id, t'.incomes[id], IncomeShareIn(t.expenses));
  }

  lemma RemoveIncomeMoves(t: Tables, id: int)
    requires Inv(t) && id in t.incomes
    ensures DoubledOf(RemoveIncome(t, id).0) == DoubledOf(t) - IncomeShare(t.incomes[id], t.expenses)
  {
    hide DoubledOf, GoodExpense, GoodIncome;
    DoubledByRecord(t);
    DoubledByRecord(RemoveIncome(t, id).0);
    SumWithout(t.incomes, id, IncomeShareIn(t.expenses));
  }

  function NotLinksTo(id: int): Income -> bool {
    (i: Income) => i.linked != Some(id)
  }

  function LinkedShare(id: int, expenses: map<int, Expense>): Income -> int {
    (i: Income) => if i.linked == Some(id) then IncomeShare(i, expenses) else 0
  }

  function UnlinkedShare(id: int, expenses: map<int, Expense>): Income -> int {
    (i: Income) => if i.linked != Some(id) then IncomeShare(i, expenses) else 0
  }

  lemma {:induction false} LinkedSharesSum(id: int, expenses: map<int, Expense>, ins: seq<Income>)
    requires id in expenses
    requires forall i :: i in ins && i.settlement ==> i.linked.None?
    ensures Sum(ins, LinkedShare(id, expenses)) ==
            var e := expenses[id]; if e.shared && !e.settlement then -Sign(e.paidBy) * PaidBack(id, ins) else 0
  {
    if ins == [] {
      PaidBackIsSum(id, ins);
    } else {
      hide PaidBack;
      assert ins[0] in ins;
      assert forall i :: i in ins[1..] ==> i in ins;
      LinkedSharesSum(id, expenses, ins[1..]);
      PaidBackIsSum(id, ins);
      PaidBackIsSum(id, ins[1..]);
    }
  }

  /** The incomes a cascade keeps contribute what they did, so the sum loses the linked ones' part. */
  lemma CascadeShares(t: Tables, id: int)
    requires Inv(t) && id in t.expenses
    ensures var t' := RemoveExpense(t, id).0;
            Sum(AllRows(t'.incomes), IncomeShareIn(t'.expenses)) ==
            Sum(AllRows(t.incomes), IncomeShareIn(t.expenses)) - Sum(AllRows(t.incomes), LinkedShare(id, t.expenses))
  {
    hide GoodExpense, GoodIncome, AllRows, Filter, Sum;
    var t' := RemoveExpense(t, id).0;
    var ins := AllRows(t.incomes);
    AllRowsOfSubmap(t.incomes, t'.incomes, NotLinksTo(id));
    IncomesInTable(t);
    FilterMembers(ins, NotLinksTo(id));
    SumCongruent(Filter(ins, NotLinksTo(id)), IncomeShareIn(t.expenses), IncomeShareIn(t'.expenses));
    SumFilter(ins, NotLinksTo(id), IncomeShareIn(t.expenses), UnlinkedShare(id, t.expenses));
    SumPlus(ins, LinkedShare(id, t.expenses), UnlinkedShare(id, t.expenses), IncomeShareIn(t.expenses));
  }

  lemma SettlementsUnlinked(t: Tables)
    requires Inv(t)
    ensures forall i :: i in AllRows(t.incomes) && i.settlement ==> i.linked.None?
  {
    IncomesInTable(t);
  }

  /** Deleting an expense, paybacks and all, moves the balance by exactly its signed net cost (twice the
      amount for a settlement, nothing for an ordinary expense). */
  lemma RemoveExpenseMoves(t: Tables, id: int)
    requires Inv(t) && id in t.expenses
    ensures DoubledOf(RemoveExpense(t, id).0) == DoubledOf(t) - ExpenseShare(t.expenses[id], ListIncomes(t))
  {
    hide DoubledOf, Inv, GoodExpense, PaidBack, ListIncomes, AllRows, IncomeShareIn, LinkedShare;
    var t' := RemoveExpense(t, id).0;
    var ins := AllRows(t.incomes);
    RemoveExpenseKeepsInvariant(t, id);
    ExpenseRow(t, id);
    DoubledByRecord(t);
    DoubledByRecord(t');
    SumWithout(t.expenses, id, OwnShare);
    CascadeShares(t, id);
    SettlementsUnlinked(t);
    LinkedSharesSum(id, t.expenses, ins);
    IncomesAsListed(t);
    PaidBackIgnoresOrder(id, ins, ListIncomes(t));
    ShareOfNet(t.expenses[id], ListIncomes(t));
  }

  lemma ShareOfNet(e: Expense, ins: seq<Income>)
    ensures ExpenseShare(e, ins) ==
            OwnShare(e) + if e.shared && !e.settlement then -Sign(e.paidBy) * PaidBack(e.base.id, ins) else 0
  {}

  lemma IncomesAsListed(t: Tables)
    ensures multiset(ListIncomes(t)) == multiset(AllRows(t.incomes))
  {
    SortContents(AllRows(t.incomes), IncomeDay);
  }

  // ----- What each request moves

  /** The signed contribution of what a step adds, changes or deletes. */
  function Effect(t: Tables, s: Step): int {
    var (t', r) := Handle(t, s.request, s.today, s.now);
    if r != Saved then 0
    else match s.request
      case AddLine(_, _, _, _) =>
        var e, i := NextId(t.expenses.Keys), NextId(t.incomes.Keys);
        if e in t'.expenses then OwnShare(t'.expenses[e])
        else if i in t'.incomes then IncomeShare(t'.incomes[i], t.expenses)
        else 0
      case SaveEdit(_, kind, id, _) =>
        if kind == ExpenseKind && id in t.expenses && id in t'.expenses then
          OwnShare(t'.expenses[id]) - OwnShare(t.expenses[id])
        else if kind == IncomeKind && id in t.incomes && id in t'.incomes then
          IncomeShare(t'.incomes[id], t.expenses) - IncomeShare(t.incomes[id], t.expenses)
        else 0
      case Delete(_, kind, id) =>
        if kind == ExpenseKind && id in t.expenses then -ExpenseShare(t.expenses[id], ListIncomes(t))
        else if kind == IncomeKind && id in t.incomes then -IncomeShare(t.incomes[id], t.expenses)
        else 0
      case Forgive(_, _, _) => 0
      case DeleteForgiveness(_, _) => 0
  }

  lemma AddMoves(t: Tables, user: Payer, sharedTab: bool, linked: Option<int>, raw: string, today: Day, now: int)
    requires Inv(t)
    ensures var s := Step(AddLine(user, sharedTab, linked, raw), today, now);
            DoubledOf(After(t, s)) == DoubledOf(t) + Effect(t, s)
  {
    hide Submit, AddIntent, GoodIntent, GoodExpense, GoodIncome, Inv, DoubledOf, InsertExpense, InsertIncome;
    var s := Step(AddLine(user, sharedTab, linked, raw), today, now);
    var intent := AddIntent(t, user, sharedTab, linked);
    if intent.Some? && Submit(intent.value, raw, today).OK() {
      AddIntentIsGood(t, user, sharedTab, linked);
      AddIntentAdds(t, user, sharedTab, linked);
      SubmitIsGood(intent.value, raw, today);
      var sub := Submit(intent.value, raw, today);
      if sub.income.Some? {
        AddIncomeMoves(t, sub.income.value, now);
        InsertedIncome(t, sub.income.value, now);
      } else {
        AddExpenseMoves(t, sub.expense.value, now);
        InsertedExpense(t, sub.expense.value, now);
      }
    }
  }

  lemma InsertedExpense(t: Tables, e: Expense, now: int)
    ensures var t' := InsertExpense(t, e, now);
            var id := NextId(t.expenses.Keys);
            id in t'.expenses && OwnShare(t'.expenses[id]) == OwnShare(e)
  {}

  lemma InsertedIncome(t: Tables, i: Income, now: int)
    requires Inv(t) && GoodIncome(i) && (i.linked.Some? ==> i.linked.value in t.expenses)
    ensures var (t', o) := InsertIncome(t, i, now);
            var id := NextId(t.incomes.Keys);
            && o == Done && t'.expenses == t.expenses && NextId(t.expenses.Keys) !in t'.expenses
            && id in t'.incomes && IncomeShare(t'.incomes[id], t.expenses) == IncomeShare(i, t.expenses)
  {
    InsertIncomeKeepsInvariant(t, i, now);
  }

  lemma EditMoves(t: Tables, user: Payer, kind: Kind, id: int, raw: string, today: Day, now: int)
    requires Inv(t)
    ensures var s := Step(SaveEdit(user, kind, id, raw), today, now);
            DoubledOf(After(t, s)) == DoubledOf(t) + Effect(t, s)
  {
    hide HandleEditSave, DoubledOf, GoodExpense, GoodIncome;
    var (t', r) := HandleEditSave(t, user, kind, id, raw, today, now);
    EditFrame(t, user, kind, id, raw, today, now);
    StepKeepsInvariant(t, Step(SaveEdit(user, kind, id, raw), today, now));
    if r == Saved {
      if kind == ExpenseKind {
        ReplaceExpenseMoves(t, t', id);
      } else {
        ReplaceIncomeMoves(t, t', id);
      }
    }
  }

  lemma DeleteMoves(t: Tables, user: Payer, kind: Kind, id: int, today: Day, now: int)
    requires Inv(t)
    ensures var s := Step(Delete(user, kind, id), today, now);
            DoubledOf(After(t, s)) == DoubledOf(t) + Effect(t, s)
  {
    hide DoubledOf, Inv, ListIncomes, IncomeShare, ExpenseShare;
    if kind == ExpenseKind && id in t.expenses { RemoveExpenseMoves(t, id); }
    if kind == IncomeKind && id in t.incomes { RemoveIncomeMoves(t, id); }
  }

  lemma ForgiveMovesNothing(t: Tables, s: Step)
    requires s.request.Forgive? || s.request.DeleteForgiveness?
    ensures DoubledOf(After(t, s)) == DoubledOf(t) && Effect(t, s) == 0
  {
    hide CurrentBalance;
    assert After(t, s).expenses == t.expenses && After(t, s).incomes == t.incomes;
  }

  /** Every step of every reachable ledger moves the doubled balance by exactly its effect. */
  lemma StepMovesBalance(t: Tables, s: Step)
    requires Inv(t)
    ensures DoubledOf(After(t, s)) == DoubledOf(t) + Effect(t, s)
  {
    hide After, Effect, DoubledOf, Inv;
    match s.request
    case AddLine(user, sharedTab, linked, raw) => AddMoves(t, user, sharedTab, linked, raw, s.today, s.now);
    case SaveEdit(user, kind, id, raw) => EditMoves(t, user, kind, id, raw, s.today, s.now);
    case Delete(user, kind, id) => DeleteMoves(t, user, kind, id, s.today, s.now);
    case Forgive(_, _, _) => ForgiveMovesNothing(t, s);
    case DeleteForgiveness(_, _) => ForgiveMovesNothing(t, s);
  }

  /** A step that touches only records outside the Shared tab: what Carla could not load. */
  predicate IsOrdinary(t: Tables, r: Request) {
    match r
    case AddLine(user, sharedTab, linked, _) =>
      if linked.None? || linked.value <= 0 then user == Javi && !sharedTab else LoadExpense(t, Carla, linked.value).None?
    case SaveEdit(_, ExpenseKind, id, _) => LoadExpense(t, Carla, id).None?
    case SaveEdit(_, IncomeKind, id, _) => LoadIncome(t, Carla, id).None?
    case Delete(_, ExpenseKind, id) => LoadExpense(t, Carla, id).None?
    case Delete(_, IncomeKind, id) => LoadIncome(t, Carla, id).None?
    case Forgive(_, _, _) => true
    case DeleteForgiveness(_, _) => true
  }

  /** Steps on ordinary records never move the balance. */
  lemma OrdinaryStepsKeepBalance(t: Tables, s: Step)
    requires Inv(t) && IsOrdinary(t, s.request)
    ensures DoubledOf(After(t, s)) == DoubledOf(t)
  {
    hide DoubledOf, Submit, Storable, GoodIntent, CurrentBalance, Editable, ExpenseLine, IncomeLine;
    StepMovesBalance(t, s);
    match s.request
    case AddLine(user, sharedTab, linked, raw) => OrdinaryAddHasNoEffect(t, user, sharedTab, linked, raw, s.today, s.now);
    case SaveEdit(user, kind, id, raw) => OrdinaryEditHasNoEffect(t, user, kind, id, raw, s.today, s.now);
    case Delete(user, kind, id) => OrdinaryDeleteHasNoEffect(t, user, kind, id, s.today, s.now);
    case Forgive(_, _, _) => ForgiveMovesNothing(t, s);
    case DeleteForgiveness(_, _) => ForgiveMovesNothing(t, s);
  }

  lemma OrdinaryAddHasNoEffect(t: Tables, user: Payer, sharedTab: bool, linked: Option<int>, raw: string, today: Day, now: int)
    requires Inv(t) && IsOrdinary(t, AddLine(user, sharedTab, linked, raw))
    ensures Effect(t, Step(AddLine(user, sharedTab, linked, raw), today, now)) == 0
  {
    hide Submit, Storable, Inv, InsertExpense, InsertIncome;
    var intent := AddIntent(t, user, sharedTab, linked);
    if intent.Some? && Submit(intent.value, raw, today).OK() {
      AddIntentIsGood(t, user, sharedTab, linked);
      SubmitIsGood(intent.value, raw, today);
      SettlementsNeedShared(intent.value, raw, today);
      var sub := Submit(intent.value, raw, today);
      if sub.income.Some? {
        InsertedIncome(t, sub.income.value, now);
      } else {
        InsertedExpense(t, sub.expense.value, now);
      }
    }
  }

  lemma SettlementsNeedShared(intent: Intent, raw: string, today: Day)
    requires (intent.kind == Adding && !intent.shared) || (intent.kind == AddingPayback && !intent.settlement)
    requires Submit(intent, raw, today).OK()
    ensures !Submit(intent, raw, today).parsed.isSettlement
  {
    hide Parsed;
    ParsedFlagsExclude(raw, today);
  }

  lemma OrdinaryEditHasNoEffect(t: Tables, user: Payer, kind: Kind, id: int, raw: string, today: Day, now: int)
    requires Inv(t) && IsOrdinary(t, SaveEdit(user, kind, id, raw))
    ensures Effect(t, Step(SaveEdit(user, kind, id, raw), today, now)) == 0
  {
    hide HandleEditSave, Storable;
    EditFrame(t, user, kind, id, raw, today, now);
  }

  lemma OrdinaryDeleteHasNoEffect(t: Tables, user: Payer, kind: Kind, id: int, today: Day, now: int)
    requires Inv(t) && IsOrdinary(t, Delete(user, kind, id))
    ensures Effect(t, Step(Delete(user, kind, id), today, now)) == 0
  {
    hide HandleDelete, Storable, ListIncomes;
  }
}
