/** The three tables as values: row identities, listings, inserts, updates and cascading deletes. */
module Tables {
  import opened Options
  import opened Sequences
  import opened Calendar
  import opened Records

  /** expense, income and forgiveness, each keyed by row id. */
  datatype Tables = Tables(
    expenses: map<int, Expense>,
    incomes: map<int, Income>,
    forgivenesses: map<int, Forgiveness>)

  /** What a write reports: done, no such row, or a constraint of the schema violated. */
  datatype Outcome = Done | NotFound | Violated

  const EMPTY := Tables(map[], map[], map[])

  // ----- Row identities

  lemma {:induction false} HasHighest(ids: set<int>)
    requires |ids| > 0
    ensures exists x :: x in ids && forall y :: y in ids ==> y <= x
  {
    assert (forall y: int :: y !in ids) ==> ids == {};
    var z: int :| z in ids;
    var rest := ids - {z};
    if |rest| == 0 {
      assert forall y :: y in ids ==> y == z || y in rest;
    } else {
      HasHighest(rest);
      var x: int :| x in rest && forall y :: y in rest ==> y <= x;
      var top := if z > x then z else x;
      forall y | y in ids ensures y <= top { assert y == z || y in rest; }
      assert top in ids;
    }
  }

  /** The highest row id in use, or zero. */
  function Highest(ids: set<int>): (n: nat)
    ensures forall y :: y in ids ==> y <= n
    ensures n == 0 || n in ids
  {
    if |ids| == 0 then 0
    else
      HasHighest(ids);
      var x: int :| x in ids && forall y :: y in ids ==> y <= x;
      if x > 0 then x else 0
  }

  /** A new row takes the id after the highest one in use, so a deleted highest id is used again. */
  function NextId(ids: set<int>): (n: int)
    ensures n >= 1 && n !in ids
    ensures forall y :: y in ids ==> y < n
  {
    Highest(ids) + 1
  }

  // ----- Listings

  /** The rows with ids from n down to 1. */
  function Rows<T>(m: map<int, T>, n: nat): seq<T> {
    if n == 0 then []
    else if n in m then [m[n]] + Rows(m, n - 1)
    else Rows(m, n - 1)
  }

  function AllRows<T>(m: map<int, T>): seq<T> {
    Rows(m, Highest(m.Keys))
  }

  function ExpenseDay(e: Expense): Key { Key(e.base.date, 0) }

  function IncomeDay(i: Income): Key { Key(i.base.date, 0) }

  function ForgivenessDay(f: Forgiveness): Key { Key(f.date, 0) }

  /** Newest first: by date descending, then by id descending. */
  function ListExpenses(t: Tables): seq<Expense> {
    Sort(AllRows(t.expenses), ExpenseDay)
  }

  function ListIncomes(t: Tables): seq<Income> {
    Sort(AllRows(t.incomes), IncomeDay)
  }

  function ListForgivenesses(t: Tables): seq<Forgiveness> {
    Sort(AllRows(t.forgivenesses), ForgivenessDay)
  }

  // ----- Writes

  function Stamped(b: Entry, id: int, now: int): Entry {
    b.(id := id, createdAt := now, updatedAt := now)
  }

  function InsertExpense(t: Tables, e: Expense, now: int): Tables {
    var id := NextId(t.expenses.Keys);
    t.(expenses := t.expenses[id := e.(base := Stamped(e.base, id, now))])
  }

  /** An income needs a positive amount, and an existing expense when it pays one back. */
  function InsertIncome(t: Tables, i: Income, now: int): (Tables, Outcome) {
    if i.base.amount == 0 || (i.linked.Some? && i.linked.value !in t.expenses) then (t, Violated)
    else
      var id := NextId(t.incomes.Keys);
      (t.(incomes := t.incomes[id := i.(base := Stamped(i.base, id, now))]), Done)
  }

  function InsertForgiveness(t: Tables, f: Forgiveness, now: int): (Tables, Outcome) {
    if f.amount == 0 then (t, Violated)
    else
      var id := NextId(t.forgivenesses.Keys);
      (t.(forgivenesses := t.forgivenesses[id := f.(id := id, createdAt := now)]), Done)
  }

  /** Overwrites a row's mutable columns; the identity and the creation time stay. */
  function ReplaceExpense(t: Tables, e: Expense, now: int): (Tables, Outcome) {
    var id := e.base.id;
    if id !in t.expenses then (t, NotFound)
    else
      var base := e.base.(createdAt := t.expenses[id].base.createdAt, updatedAt := now);
      (t.(expenses := t.expenses[id := e.(base := base)]), Done)
  }

  /** The parent link is not a mutable column: whatever the record carries, the stored link stays. */
  function ReplaceIncome(t: Tables, i: Income, now: int): (Tables, Outcome) {
    var id := i.base.id;
    if id !in t.incomes then (t, NotFound)
    else if i.base.amount == 0 then (t, Violated)
    else
      var base := i.base.(createdAt := t.incomes[id].base.createdAt, updatedAt := now);
      (t.(incomes := t.incomes[id := i.(base := base, linked := t.incomes[id].linked)]), Done)
  }

  /** Deleting an expense deletes its paybacks with it. */
  function RemoveExpense(t: Tables, id: int): (Tables, Outcome) {
    if id !in t.expenses then (t, NotFound)
    else
      var kept := map k | k in t.incomes && t.incomes[k].linked != Some(id) :: t.incomes[k];
      (t.(expenses := t.expenses - {id}, incomes := kept), Done)
  }

  function RemoveIncome(t: Tables, id: int): (Tables, Outcome) {
    if id !in t.incomes then (t, NotFound) else (t.(incomes := t.incomes - {id}), Done)
  }

  function RemoveForgiveness(t: Tables, id: int): (Tables, Outcome) {
    if id !in t.forgivenesses then (t, NotFound) else (t.(forgivenesses := t.forgivenesses - {id}), Done)
  }

  // ----- Listing facts

  /** Counting from any number above the ids in use lists the same rows. */
  lemma {:induction false} RowsAbove<T>(m: map<int, T>, n: nat, more: nat)
    requires n <= more && forall k :: k in m ==> k <= n
    ensures Rows(m, more) == Rows(m, n)
    decreases more
  {
    if n < more {
      RowsAbove(m, n, more - 1);
    }
  }

  lemma {:induction false} RowsMembers<T>(m: map<int, T>, n: nat, x: T)
    ensures x in Rows(m, n) <==> exists k :: 1 <= k <= n && k in m && m[k] == x
  {
    if n > 0 {
      RowsMembers(m, n - 1, x);
      assert x in Rows(m, n) <==> (n in m && m[n] == x) || x in Rows(m, n - 1);
    }
  }

  /** A table keyed by positive ids lists exactly its rows. */
  lemma AllRowsMembers<T>(m: map<int, T>, x: T)
    requires forall k :: k in m ==> k >= 1
    ensures x in AllRows(m) <==> exists k :: k in m && m[k] == x
  {
    RowsMembers(m, Highest(m.Keys), x);
    if k :| k in m && m[k] == x {
      assert k in m.Keys;
    }
  }

  function ExpenseId(e: Expense): int { e.base.id }

  function IncomeId(i: Income): int { i.base.id }

  function ForgivenessId(f: Forgiveness): int { f.id }

  lemma {:induction false} RowsDescend<T>(m: map<int, T>, n: nat, id: T -> int)
    requires forall k :: k in m ==> id(m[k]) == k
    ensures forall i :: 0 <= i < |Rows(m, n)| ==> id(Rows(m, n)[i]) <= n
    ensures forall i, j :: 0 <= i < j < |Rows(m, n)| ==> id(Rows(m, n)[i]) > id(Rows(m, n)[j])
  {
    if n > 0 {
      RowsDescend(m, n - 1, id);
    }
  }

  lemma RowsSortNewestFirst<T>(m: map<int, T>, day: T -> Key, id: T -> int)
    requires forall k :: k in m ==> id(m[k]) == k
    ensures ByRecencyThenId(Sort(AllRows(m), day), day, id)
  {
    RowsDescend(m, Highest(m.Keys), id);
    SortOrdersById(AllRows(m), day, id);
  }

  /** Every table is listed by date, newest first, and within a day by id, highest first. */
  lemma ListsAreNewestFirst(t: Tables)
    requires forall k :: k in t.expenses ==> t.expenses[k].base.id == k
    requires forall k :: k in t.incomes ==> t.incomes[k].base.id == k
    requires forall k :: k in t.forgivenesses ==> t.forgivenesses[k].id == k
    ensures var es := ListExpenses(t);
            forall i, j :: 0 <= i < j < |es| ==>
              es[i].base.date > es[j].base.date || (es[i].base.date == es[j].base.date && es[i].base.id > es[j].base.id)
    ensures var ins := ListIncomes(t);
            forall i, j :: 0 <= i < j < |ins| ==>
              ins[i].base.date > ins[j].base.date || (ins[i].base.date == ins[j].base.date && ins[i].base.id > ins[j].base.id)
    ensures var fs := ListForgivenesses(t);
            forall i, j :: 0 <= i < j < |fs| ==>
              fs[i].date > fs[j].date || (fs[i].date == fs[j].date && fs[i].id > fs[j].id)
  {
    hide Sort, AllRows;
    RowsSortNewestFirst(t.expenses, ExpenseDay, ExpenseId);
    RowsSortNewestFirst(t.incomes, IncomeDay, IncomeId);
    RowsSortNewestFirst(t.forgivenesses, ForgivenessDay, ForgivenessId);
    assert ByRecencyThenId(ListExpenses(t), ExpenseDay, ExpenseId);
    assert ByRecencyThenId(ListIncomes(t), IncomeDay, IncomeId);
    assert ByRecencyThenId(ListForgivenesses(t), ForgivenessDay, ForgivenessId);
  }

  /** A table of positive ids lists exactly its rows. */
  lemma ListsHoldEveryRow(t: Tables)
    requires forall k :: k in t.expenses ==> k >= 1
    requires forall k :: k in t.incomes ==> k >= 1
    requires forall k :: k in t.forgivenesses ==> k >= 1
    ensures forall e :: e in ListExpenses(t) <==> exists k :: k in t.expenses && t.expenses[k] == e
    ensures forall i :: i in ListIncomes(t) <==> exists k :: k in t.incomes && t.incomes[k] == i
    ensures forall f :: f in ListForgivenesses(t) <==> exists k :: k in t.forgivenesses && t.forgivenesses[k] == f
  {
    hide Sort, AllRows;
    SortContents(AllRows(t.expenses), ExpenseDay);
    SortContents(AllRows(t.incomes), IncomeDay);
    SortContents(AllRows(t.forgivenesses), ForgivenessDay);
    forall e ensures e in ListExpenses(t) <==> exists k :: k in t.expenses && t.expenses[k] == e { AllRowsMembers(t.expenses, e); }
    forall i ensures i in ListIncomes(t) <==> exists k :: k in t.incomes && t.incomes[k] == i { AllRowsMembers(t.incomes, i); }
    forall f ensures f in ListForgivenesses(t) <==> exists k :: k in t.forgivenesses && t.forgivenesses[k] == f {
      AllRowsMembers(t.forgivenesses, f);
    }
  }

  // ----- What each write changes

  /** An insert adds one row under the id after the highest and leaves every other row, unless the schema
      refuses it. */
  lemma InsertsAddOneRow(t: Tables, e: Expense, i: Income, f: Forgiveness, now: int)
    ensures var t' := InsertExpense(t, e, now);
            && t'.incomes == t.incomes && t'.forgivenesses == t.forgivenesses
            && t'.expenses == t.expenses[Highest(t.expenses.Keys) + 1 :=
                 e.(base := e.base.(id := Highest(t.expenses.Keys) + 1, createdAt := now, updatedAt := now))]
    ensures var (t', o) := InsertIncome(t, i, now);
            && (o == Done <==> i.base.amount > 0 && (i.linked.Some? ==> i.linked.value in t.expenses))
            && (o != Done ==> o == Violated && t' == t)
            && (o == Done ==>
                  && t'.expenses == t.expenses && t'.forgivenesses == t.forgivenesses
                  && t'.incomes == t.incomes[Highest(t.incomes.Keys) + 1 :=
                       i.(base := i.base.(id := Highest(t.incomes.Keys) + 1, createdAt := now, updatedAt := now))])
    ensures var (t', o) := InsertForgiveness(t, f, now);
            && (o == Done <==> f.amount > 0)
            && (o != Done ==> o == Violated && t' == t)
            && (o == Done ==>
                  && t'.expenses == t.expenses && t'.incomes == t.incomes
                  && t'.forgivenesses == t.forgivenesses[Highest(t.forgivenesses.Keys) + 1 :=
                       f.(id := Highest(t.forgivenesses.Keys) + 1, createdAt := now)])
  {}

  /** An update touches the row it names and nothing else: it keeps the creation time and, of an income,
      the parent, and takes the rest from the record passed. */
  lemma ReplacesTouchOneRow(t: Tables, e: Expense, i: Income, now: int)
    ensures var (t', o) := ReplaceExpense(t, e, now);
            && o == (if e.base.id in t.expenses then Done else NotFound) && (o != Done ==> t' == t)
            && t'.incomes == t.incomes && t'.forgivenesses == t.forgivenesses && t'.expenses.Keys == t.expenses.Keys
            && (forall k :: k in t.expenses && k != e.base.id ==> t'.expenses[k] == t.expenses[k])
            && (o == Done ==>
                  var before, after := t.expenses[e.base.id], t'.expenses[e.base.id];
                  after.base.createdAt == before.base.createdAt && after.base.updatedAt == now
                  && e == after.(base := after.base.(createdAt := e.base.createdAt, updatedAt := e.base.updatedAt)))
    ensures var (t', o) := ReplaceIncome(t, i, now);
            && o == (if i.base.id !in t.incomes then NotFound else if i.base.amount == 0 then Violated else Done)
            && (o != Done ==> t' == t)
            && t'.expenses == t.expenses && t'.forgivenesses == t.forgivenesses && t'.incomes.Keys == t.incomes.Keys
            && (forall k :: k in t.incomes && k != i.base.id ==> t'.incomes[k] == t.incomes[k])
            && (o == Done ==>
                  var before, after := t.incomes[i.base.id], t'.incomes[i.base.id];
                  after.base.createdAt == before.base.createdAt && after.base.updatedAt == now && after.linked == before.linked
                  && i == after.(linked := i.linked, base := after.base.(createdAt := i.base.createdAt, updatedAt := i.base.updatedAt)))
  {}

  /** A delete takes the row it names, an expense's with every income linked to it, and leaves the rest. */
  lemma RemovesTakeOneRow(t: Tables, id: int)
    ensures var (t', o) := RemoveExpense(t, id);
            && o == (if id in t.expenses then Done else NotFound) && (o != Done ==> t' == t)
            && t'.forgivenesses == t.forgivenesses && t'.expenses == t.expenses - {id}
            && (o == Done ==> forall k :: k in t'.incomes <==> k in t.incomes && t.incomes[k].linked != Some(id))
            && (forall k :: k in t'.incomes ==> t'.incomes[k] == t.incomes[k])
    ensures var (t', o) := RemoveIncome(t, id);
            o == (if id in t.incomes then Done else NotFound) && t' == t.(incomes := t.incomes - {id})
    ensures var (t', o) := RemoveForgiveness(t, id);
            o == (if id in t.forgivenesses then Done else NotFound) && t' == t.(forgivenesses := t.forgivenesses - {id})
  {
    assert id !in t.expenses ==> t.expenses - {id} == t.expenses;
    assert id !in t.incomes ==> t.incomes - {id} == t.incomes;
    assert id !in t.forgivenesses ==> t.forgivenesses - {id} == t.forgivenesses;
  }

  /** The rows of a table that satisfy p are the rows of its submap. */
  lemma {:induction false} RowsOfSubmap<T>(m: map<int, T>, sub: map<int, T>, n: nat, p: T -> bool)
    requires forall k :: k in m && 1 <= k <= n ==> (k in sub <==> p(m[k]))
    requires forall k :: k in m && k in sub ==> sub[k] == m[k]
    requires sub.Keys <= m.Keys
    ensures Filter(Rows(m, n), p) == Rows(sub, n)
  {
    if n > 0 {
      RowsOfSubmap(m, sub, n - 1, p);
      if n in m {
        assert Rows(m, n) == [m[n]] + Rows(m, n - 1);
      } else {
        assert n !in sub;
        assert Rows(m, n) == Rows(m, n - 1);
      }
    }
  }

  /** Listing a submap cut out by p lists the rows of the table that satisfy p. */
  lemma AllRowsOfSubmap<T>(m: map<int, T>, sub: map<int, T>, p: T -> bool)
    requires forall k :: k in sub <==> k in m && p(m[k])
    requires forall k :: k in sub ==> sub[k] == m[k]
    ensures AllRows(sub) == Filter(AllRows(m), p)
  {
    var a, b := Highest(m.Keys), Highest(sub.Keys);
    var n := a + b;
    RowsAbove(m, a, n);
    RowsAbove(sub, b, n);
    RowsOfSubmap(m, sub, n, p);
  }

  // ----- Sums over rows

  lemma RowsTop<T>(m: map<int, T>, n: nat, f: T -> int)
    requires n > 0
    ensures Sum(Rows(m, n), f) == (if n in m then f(m[n]) else 0) + Sum(Rows(m, n - 1), f)
  {
    if n in m {
      assert Rows(m, n)[1..] == Rows(m, n - 1);
    }
  }

  lemma {:induction false} SumRowsUpdate<T>(m: map<int, T>, n: nat, id: int, x: T, f: T -> int)
    requires id >= 1
    ensures Sum(Rows(m[id := x], n), f) == Sum(Rows(m, n), f) +
            if id <= n then f(x) - (if id in m then f(m[id]) else 0) else 0
  {
    if n > 0 {
      SumRowsUpdate(m, n - 1, id, x, f);
      RowsTop(m, n, f);
      RowsTop(m[id := x], n, f);
    }
  }

  lemma {:induction false} SumRowsWithout<T>(m: map<int, T>, n: nat, id: int, f: T -> int)
    requires id >= 1
    ensures Sum(Rows(m - {id}, n), f) == Sum(Rows(m, n), f) - if id <= n && id in m then f(m[id]) else 0
  {
    if n > 0 {
      SumRowsWithout(m, n - 1, id, f);
      RowsTop(m, n, f);
      RowsTop(m - {id}, n, f);
    }
  }

  /** Writing one row changes a sum over the table by that row's change. */
  lemma SumUpdate<T>(m: map<int, T>, id: int, x: T, f: T -> int)
    requires id >= 1
    ensures Sum(AllRows(m[id := x]), f) == Sum(AllRows(m), f) + f(x) - if id in m then f(m[id]) else 0
  {
    var a, b := Highest(m.Keys), Highest(m[id := x].Keys);
    assert id in m[id := x].Keys;
    var n := a + b;
    RowsAbove(m, a, n);
    RowsAbove(m[id := x], b, n);
    SumRowsUpdate(m, n, id, x, f);
  }

  lemma SumWithout<T>(m: map<int, T>, id: int, f: T -> int)
    requires id >= 1 && id in m
    ensures Sum(AllRows(m - {id}), f) == Sum(AllRows(m), f) - f(m[id])
  {
    var a, b := Highest(m.Keys), Highest((m - {id}).Keys);
    var n := a + b;
    assert id in m.Keys;
    RowsAbove(m, a, n);
    RowsAbove(m - {id}, b, n);
    SumRowsWithout(m, n, id, f);
  }
}
