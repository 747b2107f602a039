/** The two tabs: how they share out the records, conserve the totals and agree with the balance. */
module Tabs {
  import opened Options
  import opened Sequences
  import opened Records
  import opened Tables
  import opened Balance
  import opened Ledger
  import opened Feed

  // ----- What each tab lists

  function InTab(shared: bool): Expense -> bool {
    (e: Expense) => InSharedTab(e) == shared
  }

  /** Whether the expense an id names is shared; the last one listed under the id decides, none is not shared. */
  function ParentShared(expenses: seq<Expense>, id: int): bool
    decreases |expenses|
  {
    if expenses == [] then false
    else
      var last := expenses[|expenses| - 1];
      if last.base.id == id then last.shared else ParentShared(expenses[..|expenses| - 1], id)
  }

  /** Settlements belong to the Shared tab, a payback where its parent is shared, the rest to the ordinary tab. */
  predicate IncomeIsShared(i: Income, expenses: seq<Expense>) {
    i.settlement || (i.linked.Some? && ParentShared(expenses, i.linked.value))
  }

  function IncomeInTab(expenses: seq<Expense>, shared: bool): Income -> bool {
    (i: Income) => IncomeIsShared(i, expenses) == shared
  }

  function TabExpenses(expenses: seq<Expense>, shared: bool): seq<Expense> {
    Filter(expenses, InTab(shared))
  }

  function TabIncomes(expenses: seq<Expense>, incomes: seq<Income>, shared: bool): seq<Income> {
    Filter(incomes, IncomeInTab(expenses, shared))
  }

  function AtOrFalse(m: map<int, bool>, id: int): bool {
    if id in m then m[id] else false
  }

  /** Picks what a tab lists, noting on the way which expenses are shared. */
  method TabRecords(expenses: seq<Expense>, incomes: seq<Income>, shared: bool)
    returns (es: seq<Expense>, ins: seq<Income>)
    ensures es == TabExpenses(expenses, shared)
    ensures ins == TabIncomes(expenses, incomes, shared)
  {
    hide Filter;
    NothingListed(shared, expenses);
    var parentShared: map<int, bool> := map[];
    es, ins := [], [];
    var k := 0;
    while k < |expenses|
      invariant 0 <= k <= |expenses|
      invariant es == TabExpenses(expenses[..k], shared)
      invariant forall id :: AtOrFalse(parentShared, id) == ParentShared(expenses[..k], id)
    {
      var e := expenses[k];
      FilterTake(expenses, k, InTab(shared));
      parentShared := parentShared[e.base.id := e.shared];
      if InSharedTab(e) == shared {
        es := es + [e];
      }
      forall id ensures AtOrFalse(parentShared, id) == ParentShared(expenses[..k + 1], id) {
        assert expenses[..k + 1][..k] == expenses[..k];
      }
      k := k + 1;
    }
    assert expenses[..k] == expenses;
    k := 0;
    while k < |incomes|
      invariant 0 <= k <= |incomes|
      invariant ins == TabIncomes(expenses, incomes[..k], shared)
    {
      var i := incomes[k];
      FilterTake(incomes, k, IncomeInTab(expenses, shared));
      if i.settlement {
        if shared {
          ins := ins + [i];
        }
      } else if i.linked.Some? {
        assert AtOrFalse(parentShared, i.linked.value) == ParentShared(expenses, i.linked.value);
        if AtOrFalse(parentShared, i.linked.value) == shared {
          ins := ins + [i];
        }
      } else if !shared {
        ins := ins + [i];
      }
      k := k + 1;
    }
    assert incomes[..k] == incomes;
  }

  lemma NothingListed(shared: bool, expenses: seq<Expense>)
    ensures TabExpenses([], shared) == [] && TabIncomes(expenses, [], shared) == []
  {}

  /** The Shared tab lists, in their order, the shared expenses and settlements, and the settlements received
      and paybacks of shared expenses; the ordinary tab lists the rest. */
  lemma TabsList(t: Tables, e: Expense, i: Income)
    requires Inv(t)
    ensures e in TabExpenses(ListExpenses(t), true) <==> e in ListExpenses(t) && (e.shared || e.settlement)
    ensures e in TabExpenses(ListExpenses(t), false) <==> e in ListExpenses(t) && !(e.shared || e.settlement)
    ensures i in TabIncomes(ListExpenses(t), ListIncomes(t), true) <==>
            i in ListIncomes(t) && IncomeOfSharedTab(t, i)
    ensures i in TabIncomes(ListExpenses(t), ListIncomes(t), false) <==>
            i in ListIncomes(t) && !IncomeOfSharedTab(t, i)
  {
    hide Inv, ListExpenses, ListIncomes;
    FilterMembers(ListExpenses(t), InTab(true));
    FilterMembers(ListExpenses(t), InTab(false));
    FilterMembers(ListIncomes(t), IncomeInTab(ListExpenses(t), true));
    FilterMembers(ListIncomes(t), IncomeInTab(ListExpenses(t), false));
    IncomeSharedInLedger(t, i);
  }

  /** Every record is listed in exactly one tab, as often as it is stored. */
  lemma TabsShareOutRecords(expenses: seq<Expense>, incomes: seq<Income>)
    ensures multiset(TabExpenses(expenses, false)) + multiset(TabExpenses(expenses, true)) == multiset(expenses)
    ensures multiset(TabIncomes(expenses, incomes, false)) + multiset(TabIncomes(expenses, incomes, true)) == multiset(incomes)
  {
    FilterPartition(expenses, InTab(false), InTab(true));
    FilterPartition(incomes, IncomeInTab(expenses, false), IncomeInTab(expenses, true));
  }

  // ----- Records in good order

  /** No two different expenses share an id. */
  ghost predicate DistinctIds(expenses: seq<Expense>) {
    forall a, b :: a in expenses && b in expenses && a.base.id == b.base.id ==> a == b
  }

  /** What every reachable ledger lists: distinct ids, settlements not shared, settlement incomes unlinked. */
  ghost predicate GoodLists(expenses: seq<Expense>, incomes: seq<Income>) {
    && DistinctIds(expenses)
    && (forall e :: e in expenses && e.settlement ==> !e.shared)
    && (forall i :: i in incomes && i.settlement ==> i.linked.None?)
  }

  lemma ListedExpenses(t: Tables)
    requires Inv(t)
    ensures forall e :: e in ListExpenses(t) <==> e.base.id in t.expenses && t.expenses[e.base.id] == e
  {
    hide GoodIncomes, GoodForgivenesses, AllRows, Sort;
    SortContents(AllRows(t.expenses), ExpenseDay);
    forall e ensures e in ListExpenses(t) <==> e.base.id in t.expenses && t.expenses[e.base.id] == e {
      AllRowsMembers(t.expenses, e);
    }
  }

  lemma ListedIncomes(t: Tables)
    requires Inv(t)
    ensures forall i :: i in ListIncomes(t) <==> i.base.id in t.incomes && t.incomes[i.base.id] == i
  {
    hide GoodExpenses, GoodForgivenesses, AllRows, Sort;
    SortContents(AllRows(t.incomes), IncomeDay);
    forall i ensures i in ListIncomes(t) <==> i.base.id in t.incomes && t.incomes[i.base.id] == i {
      AllRowsMembers(t.incomes, i);
    }
  }

  lemma ListsAreGood(t: Tables)
    requires Inv(t)
    ensures GoodLists(ListExpenses(t), ListIncomes(t))
    ensures forall e :: e in ListExpenses(t) <==> e.base.id in t.expenses && t.expenses[e.base.id] == e
    ensures forall i :: i in ListIncomes(t) <==> i.base.id in t.incomes && t.incomes[i.base.id] == i
  {
    hide ListExpenses, ListIncomes;
    ListedExpenses(t);
    ListedIncomes(t);
  }

  lemma {:induction false} ParentSharedIs(expenses: seq<Expense>, e: Expense)
    requires e in expenses
    requires forall a :: a in expenses && a.base.id == e.base.id ==> a == e
    ensures ParentShared(expenses, e.base.id) == e.shared
    decreases |expenses|
  {
    var front, last := expenses[..|expenses| - 1], expenses[|expenses| - 1];
    assert expenses == front + [last];
    if last.base.id == e.base.id {
      assert last in expenses;
    } else {
      ParentSharedIs(front, e);
    }
  }

  lemma {:induction false} ParentSharedAbsent(expenses: seq<Expense>, id: int)
    requires forall a :: a in expenses ==> a.base.id != id
    ensures !ParentShared(expenses, id)
    decreases |expenses|
  {
    if expenses != [] {
      var front, last := expenses[..|expenses| - 1], expenses[|expenses| - 1];
      assert expenses == front + [last];
      assert last in expenses;
      ParentSharedAbsent(front, id);
    }
  }

  lemma ParentSharedInLedger(t: Tables, id: int)
    requires Inv(t)
    ensures ParentShared(ListExpenses(t), id) == (id in t.expenses && t.expenses[id].shared)
  {
    hide Inv, ListExpenses, ParentShared;
    ListsAreGood(t);
    if id in t.expenses {
      Ledger.ExpenseRow(t, id);
      ParentSharedIs(ListExpenses(t), t.expenses[id]);
    } else {
      ParentSharedAbsent(ListExpenses(t), id);
    }
  }

  lemma IncomeSharedInLedger(t: Tables, i: Income)
    requires Inv(t)
    ensures IncomeIsShared(i, ListExpenses(t)) == IncomeOfSharedTab(t, i)
  {
    hide Inv, ListExpenses, ParentShared;
    if i.linked.Some? { ParentSharedInLedger(t, i.linked.value); }
  }

  // ----- Conservation

  /** In its own tab an expense keeps all its paybacks; a settlement has none there. */
  lemma PaybacksInTab(expenses: seq<Expense>, incomes: seq<Income>, e: Expense)
    requires GoodLists(expenses, incomes) && e in expenses
    ensures PaybacksOf(e.base.id, TabIncomes(expenses, incomes, InSharedTab(e))) ==
            if e.settlement then [] else PaybacksOf(e.base.id, incomes)
  {
    var tab, links := IncomeInTab(expenses, InSharedTab(e)), LinksTo(e.base.id);
    ParentSharedIs(expenses, e);
    FilterCommutes(incomes, tab, links);
    var pbs := Filter(incomes, links);
    FilterMembers(incomes, links);
    assert forall i :: i in pbs ==> i in incomes && i.linked == Some(e.base.id) && !i.settlement;
    if e.settlement {
      FilterNone(pbs, tab);
    } else {
      FilterAll(pbs, tab);
    }
  }

  /** The net cost of what is not a transfer between the users. */
  function SpendingGiven(incomes: seq<Income>): Expense -> int {
    (e: Expense) => if e.settlement then 0 else NetCost(e, incomes)
  }

  function SpendingInTab(incomes: seq<Income>, shared: bool): Expense -> int {
    (e: Expense) => if InSharedTab(e) == shared then SpendingGiven(incomes)(e) else 0
  }

  lemma CostInTab(expenses: seq<Expense>, incomes: seq<Income>, e: Expense)
    requires GoodLists(expenses, incomes) && e in expenses
    ensures ExpenseCost(e, TabIncomes(expenses, incomes, InSharedTab(e))) == SpendingGiven(incomes)(e)
  {
    PaybacksInTab(expenses, incomes, e);
  }

  lemma TabCosts(expenses: seq<Expense>, incomes: seq<Income>, shared: bool)
    requires GoodLists(expenses, incomes)
    ensures Sum(TabExpenses(expenses, shared), CostGiven(TabIncomes(expenses, incomes, shared)))
            == Sum(expenses, SpendingInTab(incomes, shared))
  {
    var ins, es := TabIncomes(expenses, incomes, shared), TabExpenses(expenses, shared);
    FilterMembers(expenses, InTab(shared));
    forall e | e in es ensures CostGiven(ins)(e) == SpendingGiven(incomes)(e) {
      CostInTab(expenses, incomes, e);
    }
    SumCongruent(es, CostGiven(ins), SpendingGiven(incomes));
    SumFilter(expenses, InTab(shared), SpendingGiven(incomes), SpendingInTab(incomes, shared));
  }

  /** The day totals of both tabs together are the amounts of all non-settlement expenses less their paybacks. */
  lemma TabsConserveSpending(expenses: seq<Expense>, incomes: seq<Income>, forgivenesses: seq<Forgiveness>,
                             ordinary: seq<DayGroup>, shared: seq<DayGroup>)
    requires GoodLists(expenses, incomes)
    requires IsDayGrouping(SortedFeed(TabExpenses(expenses, false), TabIncomes(expenses, incomes, false), []), ordinary)
    requires IsDayGrouping(SortedFeed(TabExpenses(expenses, true), TabIncomes(expenses, incomes, true), forgivenesses), shared)
    ensures Sum(ordinary, GroupTotal) + Sum(shared, GroupTotal) == Sum(expenses, SpendingGiven(incomes))
  {
    hide IsDayGrouping, SortedFeed, GoodLists, TabExpenses, TabIncomes;
    DayTotalsAreExpenseCosts(TabExpenses(expenses, false), TabIncomes(expenses, incomes, false), [], ordinary);
    DayTotalsAreExpenseCosts(TabExpenses(expenses, true), TabIncomes(expenses, incomes, true), forgivenesses, shared);
    TabCosts(expenses, incomes, false);
    TabCosts(expenses, incomes, true);
    SumPlus(expenses, SpendingInTab(incomes, false), SpendingInTab(incomes, true), SpendingGiven(incomes));
  }

  /** The same of every reachable ledger and whatever groups its two tabs show. */
  lemma LedgerConservesSpending(t: Tables, ordinary: seq<DayGroup>, shared: seq<DayGroup>)
    requires Inv(t)
    requires var es, ins := ListExpenses(t), ListIncomes(t);
             && IsDayGrouping(SortedFeed(TabExpenses(es, false), TabIncomes(es, ins, false), []), ordinary)
             && IsDayGrouping(SortedFeed(TabExpenses(es, true), TabIncomes(es, ins, true), ListForgivenesses(t)), shared)
    ensures Sum(ordinary, GroupTotal) + Sum(shared, GroupTotal) == Sum(AllRows(t.expenses), SpendingGiven(AllRows(t.incomes)))
  {
    hide IsDayGrouping, SortedFeed, TabExpenses, TabIncomes, Inv;
    var es, ins := ListExpenses(t), ListIncomes(t);
    ListsAreGood(t);
    TabsConserveSpending(es, ins, ListForgivenesses(t), ordinary, shared);
    SortContents(AllRows(t.expenses), ExpenseDay);
    SortContents(AllRows(t.incomes), IncomeDay);
    SumOfMultiset(es, AllRows(t.expenses), SpendingGiven(ins));
    forall e ensures SpendingGiven(ins)(e) == SpendingGiven(AllRows(t.incomes))(e) {
      PaidBackIgnoresOrder(e.base.id, ins, AllRows(t.incomes));
    }
    SumCongruent(AllRows(t.expenses), SpendingGiven(ins), SpendingGiven(AllRows(t.incomes)));
  }

  // ----- The balance needs only the Shared tab

  lemma SharesInTab(expenses: seq<Expense>, incomes: seq<Income>, e: Expense)
    requires GoodLists(expenses, incomes) && e in expenses
    ensures InSharedTab(e) ==> ExpenseShare(e, TabIncomes(expenses, incomes, true)) == ExpenseShare(e, incomes)
    ensures !InSharedTab(e) ==> ExpenseShare(e, incomes) == 0
  {
    if InSharedTab(e) {
      PaybacksInTab(expenses, incomes, e);
    }
  }

  /** Computed over what the Shared tab lists, the balance is the same as over everything stored. */
  lemma BalanceNeedsOnlySharedTab(expenses: seq<Expense>, incomes: seq<Income>, forgivenesses: seq<Forgiveness>)
    requires GoodLists(expenses, incomes)
    ensures BalanceOf(TabExpenses(expenses, true), TabIncomes(expenses, incomes, true), forgivenesses)
            == BalanceOf(expenses, incomes, forgivenesses)
  {
    hide GoodLists, ExpenseShare, TabIncomes, InSharedTab;
    var es, ins := TabExpenses(expenses, true), TabIncomes(expenses, incomes, true);
    FilterMembers(expenses, InTab(true));
    forall e | e in expenses ensures ShareGiven(incomes)(e) == if InTab(true)(e) then ShareGiven(ins)(e) else 0 {
      SharesInTab(expenses, incomes, e);
    }
    SumFilter(expenses, InTab(true), ShareGiven(ins), ShareGiven(incomes));
    SettlementsInTab(expenses, incomes);
  }

  lemma SettlementsInTab(expenses: seq<Expense>, incomes: seq<Income>)
    ensures Sum(TabIncomes(expenses, incomes, true), SettlementShare) == Sum(incomes, SettlementShare)
  {
    SumFilter(incomes, IncomeInTab(expenses, true), SettlementShare, SettlementShare);
  }

  // ----- The balance and the shown net costs

  /** Twice the balance is the signed net costs the Shared tab's rows show, with the settlements. */
  function ShownShare(incomes: seq<Income>): Expense -> int {
    (e: Expense) =>
      if e.settlement then -2 * e.base.amount else Sign(e.paidBy) * ExpenseCost(e, incomes)
  }

  /** The balance is half the signed sum of the costs the rows of the Shared tab show, settlements aside. */
  lemma BalanceIsHalfOfShownNets(expenses: seq<Expense>, incomes: seq<Income>)
    requires GoodLists(expenses, incomes)
    ensures var es, ins := TabExpenses(expenses, true), TabIncomes(expenses, incomes, true);
            Doubled(expenses, incomes) == Sum(es, ShownShare(ins)) + Sum(incomes, SettlementShare)
  {
    hide GoodLists, TabIncomes;
    var es, ins := TabExpenses(expenses, true), TabIncomes(expenses, incomes, true);
    FilterMembers(expenses, InTab(true));
    forall e | e in expenses ensures ShareGiven(incomes)(e) == if InTab(true)(e) then ShownShare(ins)(e) else 0 {
      SharesInTab(expenses, incomes, e);
      if InSharedTab(e) { CostInTab(expenses, incomes, e); }
      OrdinaryOrShared(expenses, incomes, e);
    }
    SumFilter(expenses, InTab(true), ShownShare(ins), ShareGiven(incomes));
  }

  lemma OrdinaryOrShared(expenses: seq<Expense>, incomes: seq<Income>, e: Expense)
    requires GoodLists(expenses, incomes) && e in expenses
    ensures e.settlement ==> !e.shared
  {}
}
