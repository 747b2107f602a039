/** The Shared balance: who owes whom, derived from every stored record. */
module Balance {
  import opened Options
  import opened Sequences
  import opened Records

  /** A zero amount means the two are even, and there is no debtor. */
  datatype Balance = Balance(debtor: Option<Payer>, amount: nat)

  const EVEN := Balance(None, 0)

  // ----- Net cost

  function IncomeAmount(i: Income): int { i.base.amount }

  function ForgivenAmount(f: Forgiveness): int { f.amount }

  function LinksTo(id: int): Income -> bool {
    (i: Income) => i.linked == Some(id)
  }

  /** The paybacks of an expense, in order. */
  function PaybacksOf(id: int, incomes: seq<Income>): seq<Income> {
    Filter(incomes, LinksTo(id))
  }

  function PaidBack(id: int, incomes: seq<Income>): int {
    Sum(PaybacksOf(id, incomes), IncomeAmount)
  }

  /** An expense's amount less what was paid back on it; negative when over-repaid. */
  function NetCost(e: Expense, incomes: seq<Income>): int {
    e.base.amount - PaidBack(e.base.id, incomes)
  }

  // ----- The balance as a sum, in doubled cents

  /** +1 for what Carla paid, so Javi owes half of it; -1 for what Javi paid. */
  function Sign(payer: Payer): int {
    if payer == Carla then 1 else -1
  }

  /** What an expense adds to twice the amount Javi owes Carla. */
  function ExpenseShare(e: Expense, incomes: seq<Income>): int {
    if e.settlement then -2 * e.base.amount
    else if e.shared then Sign(e.paidBy) * NetCost(e, incomes)
    else 0
  }

  function ShareGiven(incomes: seq<Income>): Expense -> int {
    (e: Expense) => ExpenseShare(e, incomes)
  }

  /** Carla's settlements raise what Javi owes. */
  function SettlementShare(i: Income): int {
    if i.settlement then 2 * i.base.amount else 0
  }

  /** Twice what Javi owes Carla; negative when Carla owes Javi. */
  function Doubled(expenses: seq<Expense>, incomes: seq<Income>): int {
    Sum(expenses, ShareGiven(incomes)) + Sum(incomes, SettlementShare)
  }

  /** Half of a doubled amount to the nearest cent, halves away from zero. */
  function Rounded(doubled: int): int {
    if doubled < 0 then -((-doubled + 1) / 2) else (doubled + 1) / 2
  }

  /** What Javi owes Carla as shown: rounded, and raised by what Javi forgave. */
  function Owed(doubled: int, forgivenesses: seq<Forgiveness>): int {
    Rounded(doubled) + Sum(forgivenesses, ForgivenAmount)
  }

  function Worded(owed: int): (b: Balance)
    ensures b.amount == 0 <==> b.debtor.None?
    ensures owed == if b.debtor == Some(Carla) then 0 - b.amount else b.amount
  {
    if owed == 0 then EVEN else if owed < 0 then Balance(Some(Carla), -owed) else Balance(Some(Javi), owed)
  }

  function BalanceOf(expenses: seq<Expense>, incomes: seq<Income>, forgivenesses: seq<Forgiveness>): Balance {
    Worded(Owed(Doubled(expenses, incomes), forgivenesses))
  }

  // ----- The three loops

  function AtOrZero(m: map<int, int>, id: int): int {
    if id in m then m[id] else 0
  }

  /** What was paid back per expense, in one pass over the incomes. */
  method SumPaybacks(incomes: seq<Income>) returns (paybacks: map<int, int>)
    ensures forall id :: AtOrZero(paybacks, id) == PaidBack(id, incomes)
  {
    paybacks := map[];
    var k := 0;
    while k < |incomes|
      invariant 0 <= k <= |incomes|
      invariant forall id :: AtOrZero(paybacks, id) == PaidBack(id, incomes[..k])
    {
      var i := incomes[k];
      ghost var before := paybacks;
      assert incomes[..k + 1] == incomes[..k] + [i];
      if i.linked.Some? {
        paybacks := paybacks[i.linked.value := AtOrZero(paybacks, i.linked.value) + i.base.amount];
      }
      forall id ensures AtOrZero(paybacks, id) == PaidBack(id, incomes[..k + 1]) {
        PaidBackStep(id, incomes[..k], i);
        assert AtOrZero(before, id) == PaidBack(id, incomes[..k]);
      }
      k := k + 1;
    }
    assert incomes[..k] == incomes;
  }

  lemma PaidBackStep(id: int, incomes: seq<Income>, i: Income)
    ensures PaidBack(id, incomes + [i]) == PaidBack(id, incomes) + if i.linked == Some(id) then i.base.amount else 0
  {
    FilterAppend(incomes, [i], LinksTo(id));
    SumAppend(PaybacksOf(id, incomes), PaybacksOf(id, [i]), IncomeAmount);
  }

  /** Derives the Shared balance with a payback table and running totals. */
  method SharedBalance(expenses: seq<Expense>, incomes: seq<Income>, forgivenesses: seq<Forgiveness>) returns (b: Balance)
    ensures b == BalanceOf(expenses, incomes, forgivenesses)
  {
    var paybacks := SumPaybacks(incomes);
    var owedByJavi2 := 0;
    var k := 0;
    while k < |expenses|
      invariant 0 <= k <= |expenses|
      invariant owedByJavi2 == Sum(expenses[..k], ShareGiven(incomes))
    {
      var e := expenses[k];
      SumTake(expenses, k, ShareGiven(incomes));
      assert AtOrZero(paybacks, e.base.id) == PaidBack(e.base.id, incomes);
      if e.settlement {
        owedByJavi2 := owedByJavi2 - 2 * e.base.amount;
      } else if e.shared {
        var net := e.base.amount - AtOrZero(paybacks, e.base.id);
        if e.paidBy == Carla {
          owedByJavi2 := owedByJavi2 + net;
        } else {
          owedByJavi2 := owedByJavi2 - net;
        }
      }
      k := k + 1;
    }
    assert expenses[..k] == expenses;
    k := 0;
    while k < |incomes|
      invariant 0 <= k <= |incomes|
      invariant owedByJavi2 == Sum(expenses, ShareGiven(incomes)) + Sum(incomes[..k], SettlementShare)
    {
      SumTake(incomes, k, SettlementShare);
      if incomes[k].settlement {
        owedByJavi2 := owedByJavi2 + 2 * incomes[k].base.amount;
      }
      k := k + 1;
    }
    assert incomes[..k] == incomes;
    var owedByJavi := Rounded(owedByJavi2);
    k := 0;
    while k < |forgivenesses|
      invariant 0 <= k <= |forgivenesses|
      invariant owedByJavi == Rounded(owedByJavi2) + Sum(forgivenesses[..k], ForgivenAmount)
    {
      SumTake(forgivenesses, k, ForgivenAmount);
      owedByJavi := owedByJavi + forgivenesses[k].amount;
      k := k + 1;
    }
    assert forgivenesses[..k] == forgivenesses;
    b := Worded(owedByJavi);
  }

  // ----- Only the records matter, not their order

  function IfLinked(id: int): Income -> int {
    (i: Income) => if i.linked == Some(id) then i.base.amount else 0
  }

  lemma PaidBackIsSum(id: int, incomes: seq<Income>)
    ensures PaidBack(id, incomes) == Sum(incomes, IfLinked(id))
  {
    SumFilter(incomes, LinksTo(id), IncomeAmount, IfLinked(id));
  }

  lemma PaidBackIgnoresOrder(id: int, a: seq<Income>, b: seq<Income>)
    requires multiset(a) == multiset(b)
    ensures PaidBack(id, a) == PaidBack(id, b)
  {
    PaidBackIsSum(id, a);
    PaidBackIsSum(id, b);
    SumOfMultiset(a, b, IfLinked(id));
  }

  lemma DoubledIgnoresOrder(es: seq<Expense>, es': seq<Expense>, ins: seq<Income>, ins': seq<Income>)
    requires multiset(es) == multiset(es') && multiset(ins) == multiset(ins')
    ensures Doubled(es, ins) == Doubled(es', ins')
  {
    SumOfMultiset(ins, ins', SettlementShare);
    SumOfMultiset(es, es', ShareGiven(ins));
    forall e ensures ShareGiven(ins)(e) == ShareGiven(ins')(e) {
      PaidBackIgnoresOrder(e.base.id, ins, ins');
    }
    SumCongruent(es', ShareGiven(ins), ShareGiven(ins'));
  }

  /** The balance depends on nothing but the multisets of records. */
  lemma BalanceIgnoresOrder(es: seq<Expense>, es': seq<Expense>, ins: seq<Income>, ins': seq<Income>,
                            fs: seq<Forgiveness>, fs': seq<Forgiveness>)
    requires multiset(es) == multiset(es') && multiset(ins) == multiset(ins') && multiset(fs) == multiset(fs')
    ensures BalanceOf(es, ins, fs) == BalanceOf(es', ins', fs')
  {
    DoubledIgnoresOrder(es, es', ins, ins');
    SumOfMultiset(fs, fs', ForgivenAmount);
  }

  // ----- What the balance evens out

  /** What one expense costs a user's pocket: the net cost of a shared one they paid; a settlement leaves
      Javi's pocket for Carla's. */
  function ExpenseOutlay(p: Payer, incomes: seq<Income>): Expense -> int {
    (e: Expense) =>
      if e.settlement then (if p == Javi then e.base.amount else 0 - e.base.amount)
      else if e.shared && e.paidBy == p then NetCost(e, incomes)
      else 0
  }

  function IncomeOutlay(p: Payer): Income -> int {
    (i: Income) => if !i.settlement then 0 else if p == Carla then i.base.amount else 0 - i.base.amount
  }

  /** What a user has laid out so far for the two of them, settlements counted. */
  function Outlay(p: Payer, expenses: seq<Expense>, incomes: seq<Income>): int {
    Sum(expenses, ExpenseOutlay(p, incomes)) + Sum(incomes, IncomeOutlay(p))
  }

  function Difference<T>(f: T -> int, g: T -> int): T -> int {
    (x: T) => f(x) - g(x)
  }

  lemma {:induction false} SumDifference<T>(s: seq<T>, f: T -> int, g: T -> int)
    ensures Sum(s, Difference(f, g)) == Sum(s, f) - Sum(s, g)
  {
    if s != [] { SumDifference(s[1..], f, g); }
  }

  /** The doubled balance is exactly how much more Carla has laid out than Javi: paying half the
      difference leaves both having borne the same. */
  lemma BalanceIsOutlayDifference(es: seq<Expense>, ins: seq<Income>)
    ensures Doubled(es, ins) == Outlay(Carla, es, ins) - Outlay(Javi, es, ins)
  {
    SumDifference(es, ExpenseOutlay(Carla, ins), ExpenseOutlay(Javi, ins));
    SumCongruent(es, ShareGiven(ins), Difference(ExpenseOutlay(Carla, ins), ExpenseOutlay(Javi, ins)));
    SumDifference(ins, IncomeOutlay(Carla), IncomeOutlay(Javi));
    SumCongruent(ins, SettlementShare, Difference(IncomeOutlay(Carla), IncomeOutlay(Javi)));
  }

  /** One shared expense: the other user owes its payer half the net cost, or is owed it when over-repaid. */
  lemma OneSharedExpense(e: Expense, ins: seq<Income>)
    requires e.shared && !e.settlement && forall i :: i in ins ==> !i.settlement
    ensures var net := NetCost(e, ins);
            BalanceOf([e], ins, []) ==
            if net == 0 then EVEN
            else if net > 0 then Balance(Some(Other(e.paidBy)), (net + 1) / 2)
            else Balance(Some(e.paidBy), (-net + 1) / 2)
  {
    SumZero(ins, SettlementShare);
    assert [e][1..] == [];
    assert Sum([e], ShareGiven(ins)) == ExpenseShare(e, ins);
  }

  // ----- Mirror symmetry

  function Other(p: Payer): Payer {
    if p == Javi then Carla else Javi
  }

  /** A settlement as the other user would have made it: the other table's record. */
  function MirroredExpense(e: Expense): Income
  {
    Income(e.base, None, true)
  }

  function MirroredIncome(i: Income): Expense {
    Expense(i.base, false, Javi, true)
  }

  function KeptExpense(e: Expense): Expense {
    if e.shared then e.(paidBy := Other(e.paidBy)) else e
  }

  /** The expenses with the users' roles swapped: shared ones change payer, settlement ones give way to
      the settlement incomes. */
  function MirrorExpenses(es: seq<Expense>, ins: seq<Income>): seq<Expense> {
    KeptExpenses(es) + MadeExpenses(ins)
  }

  function MirrorIncomes(es: seq<Expense>, ins: seq<Income>): seq<Income> {
    KeptIncomes(ins) + MadeIncomes(es)
  }

  function KeptExpenses(es: seq<Expense>): seq<Expense> {
    if es == [] then []
    else if es[0].settlement then KeptExpenses(es[1..])
    else [KeptExpense(es[0])] + KeptExpenses(es[1..])
  }

  function MadeExpenses(ins: seq<Income>): seq<Expense> {
    if ins == [] then []
    else if ins[0].settlement then [MirroredIncome(ins[0])] + MadeExpenses(ins[1..])
    else MadeExpenses(ins[1..])
  }

  function KeptIncomes(ins: seq<Income>): seq<Income> {
    if ins == [] then []
    else if ins[0].settlement then KeptIncomes(ins[1..])
    else [ins[0]] + KeptIncomes(ins[1..])
  }

  function MadeIncomes(es: seq<Expense>): seq<Income> {
    if es == [] then []
    else if es[0].settlement then [MirroredExpense(es[0])] + MadeIncomes(es[1..])
    else MadeIncomes(es[1..])
  }

  lemma {:induction false} KeptIncomesPayBack(id: int, es: seq<Expense>, ins: seq<Income>)
    requires forall i :: i in ins && i.settlement ==> i.linked.None?
    ensures PaidBack(id, MirrorIncomes(es, ins)) == PaidBack(id, ins)
  {
    PaidBackIsSum(id, MirrorIncomes(es, ins));
    PaidBackIsSum(id, ins);
    SumAppend(KeptIncomes(ins), MadeIncomes(es), IfLinked(id));
    MadeIncomesPayNothing(id, es);
    KeptIncomesSum(id, ins);
  }

  lemma {:induction false} MadeIncomesPayNothing(id: int, es: seq<Expense>)
    ensures Sum(MadeIncomes(es), IfLinked(id)) == 0
  {
    if es != [] {
      MadeIncomesPayNothing(id, es[1..]);
    }
  }

  lemma {:induction false} KeptIncomesSum(id: int, ins: seq<Income>)
    requires forall i :: i in ins && i.settlement ==> i.linked.None?
    ensures Sum(KeptIncomes(ins), IfLinked(id)) == Sum(ins, IfLinked(id))
  {
    if ins != [] {
      assert ins[0] in ins;
      assert forall i :: i in ins[1..] ==> i in ins;
      KeptIncomesSum(id, ins[1..]);
    }
  }

  lemma {:induction false} KeptExpensesShare(es: seq<Expense>, before: seq<Income>, after: seq<Income>)
    requires forall id :: PaidBack(id, before) == PaidBack(id, after)
    ensures Sum(KeptExpenses(es), ShareGiven(after)) + Sum(MadeIncomes(es), SettlementShare) == -Sum(es, ShareGiven(before))
  {
    hide PaidBack;
    if es != [] {
      KeptExpensesShare(es[1..], before, after);
      assert PaidBack(es[0].base.id, before) == PaidBack(es[0].base.id, after);
    }
  }

  lemma {:induction false} MadeExpensesShare(ins: seq<Income>, any: seq<Income>)
    ensures Sum(MadeExpenses(ins), ShareGiven(any)) == -Sum(ins, SettlementShare)
    ensures Sum(KeptIncomes(ins), SettlementShare) == 0
  {
    if ins != [] {
      MadeExpensesShare(ins[1..], any);
    }
  }

  /** Swapping the users' roles in every record negates the doubled balance. */
  lemma MirrorNegates(es: seq<Expense>, ins: seq<Income>)
    requires forall i :: i in ins && i.settlement ==> i.linked.None?
    ensures Doubled(MirrorExpenses(es, ins), MirrorIncomes(es, ins)) == -Doubled(es, ins)
  {
    var es', ins' := MirrorExpenses(es, ins), MirrorIncomes(es, ins);
    forall id ensures PaidBack(id, ins) == PaidBack(id, ins') { KeptIncomesPayBack(id, es, ins); }
    SumAppend(KeptExpenses(es), MadeExpenses(ins), ShareGiven(ins'));
    SumAppend(KeptIncomes(ins), MadeIncomes(es), SettlementShare);
    KeptExpensesShare(es, ins, ins');
    MadeExpensesShare(ins, ins');
  }

  /** With nothing forgiven, swapping the users' roles swaps the debtor and keeps the amount. */
  lemma MirrorSwapsDebtor(es: seq<Expense>, ins: seq<Income>)
    requires forall i :: i in ins && i.settlement ==> i.linked.None?
    ensures var b, m := BalanceOf(es, ins, []), BalanceOf(MirrorExpenses(es, ins), MirrorIncomes(es, ins), []);
            && m.amount == b.amount
            && (b.amount > 0 ==> m.debtor == Some(Other(b.debtor.value)))
  {
    MirrorNegates(es, ins);
  }

  /** The balance as shown is the nearest cent to half the doubled one, an odd half going away from zero. */
  lemma RoundedIsNearest(d: int)
    ensures d % 2 == 0 ==> 2 * Rounded(d) == d
    ensures d % 2 != 0 ==> 2 * Rounded(d) == d + if d < 0 then -1 else 1
  {}
}
