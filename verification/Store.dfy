/** The store: three tables changed in place, specified by the table functions. */
module Store {
  import opened Options
  import opened Records
  import opened Tables

  class Store {
    var expenses: map<int, Expense>
    var incomes: map<int, Income>
    var forgivenesses: map<int, Forgiveness>

    ghost function Contents(): Tables
      reads this
    {
      Tables(expenses, incomes, forgivenesses)
    }

    constructor ()
      ensures Contents() == EMPTY
    {
      expenses, incomes, forgivenesses := map[], map[], map[];
    }

    /** Inserts an expense and returns it stamped with its id and times. */
    method Create(e: Expense, now: int) returns (stored: Expense)
      modifies this`expenses
      ensures Contents() == InsertExpense(old(Contents()), e, now)
      ensures stored.base.id !in old(expenses) && stored.base.id in expenses && expenses[stored.base.id] == stored
    {
      var id := NextId(expenses.Keys);
      stored := e.(base := e.base.(id := id, createdAt := now, updatedAt := now));
      expenses := expenses[id := stored];
    }

    method Get(id: int) returns (r: Option<Expense>)
      ensures r == if id in expenses then Some(expenses[id]) else None
    {
      if id in expenses { r := Some(expenses[id]); } else { r := None; }
    }

    method List() returns (rows: seq<Expense>)
      ensures rows == ListExpenses(Contents())
    {
      rows := ListExpenses(Tables(expenses, map[], map[]));
    }

    method Update(e: Expense, now: int) returns (r: Outcome)
      modifies this`expenses
      ensures (Contents(), r) == ReplaceExpense(old(Contents()), e, now)
    {
      var id := e.base.id;
      if id !in expenses { return NotFound; }
      var createdAt := expenses[id].base.createdAt;
      expenses := expenses[id := e.(base := e.base.(createdAt := createdAt, updatedAt := now))];
      r := Done;
    }

    /** Deletes an expense and, by the foreign key, the incomes linked to it. */
    method Delete(id: int) returns (r: Outcome)
      modifies this`expenses, this`incomes
      ensures (Contents(), r) == RemoveExpense(old(Contents()), id)
    {
      if id !in expenses { return NotFound; }
      expenses := expenses - {id};
      incomes := map k | k in incomes && incomes[k].linked != Some(id) :: incomes[k];
      r := Done;
    }

    method CreateIncome(i: Income, now: int) returns (r: Outcome, stored: Income)
      modifies this`incomes
      ensures (Contents(), r) == InsertIncome(old(Contents()), i, now)
      ensures r == Done ==> stored.base.id !in old(incomes) && stored.base.id in incomes && incomes[stored.base.id] == stored
    {
      stored := i;
      if i.base.amount == 0 || (i.linked.Some? && i.linked.value !in expenses) { return Violated, stored; }
      var id := NextId(incomes.Keys);
      stored := i.(base := i.base.(id := id, createdAt := now, updatedAt := now));
      incomes := incomes[id := stored];
      r := Done;
    }

    method GetIncome(id: int) returns (r: Option<Income>)
      ensures r == if id in incomes then Some(incomes[id]) else None
    {
      if id in incomes { r := Some(incomes[id]); } else { r := None; }
    }

    method ListIncomeRows() returns (rows: seq<Income>)
      ensures rows == ListIncomes(Contents())
    {
      rows := ListIncomes(Tables(map[], incomes, map[]));
    }

    /** Overwrites an income's mutable columns; linked_expense_id is never among them. */
    method UpdateIncome(i: Income, now: int) returns (r: Outcome)
      modifies this`incomes
      ensures (Contents(), r) == ReplaceIncome(old(Contents()), i, now)
    {
      var id := i.base.id;
      if id !in incomes { return NotFound; }
      if i.base.amount == 0 { return Violated; }
      var row := incomes[id];
      incomes := incomes[id := i.(base := i.base.(createdAt := row.base.createdAt, updatedAt := now), linked := row.linked)];
      r := Done;
    }

    method DeleteIncome(id: int) returns (r: Outcome)
      modifies this`incomes
      ensures (Contents(), r) == RemoveIncome(old(Contents()), id)
    {
      if id !in incomes { return NotFound; }
      incomes := incomes - {id};
      r := Done;
    }

    method CreateForgiveness(f: Forgiveness, now: int) returns (r: Outcome, stored: Forgiveness)
      modifies this`forgivenesses
      ensures (Contents(), r) == InsertForgiveness(old(Contents()), f, now)
      ensures r == Done ==> stored.id !in old(forgivenesses) && stored.id in forgivenesses && forgivenesses[stored.id] == stored
    {
      stored := f;
      if f.amount == 0 { return Violated, stored; }
      var id := NextId(forgivenesses.Keys);
      stored := f.(id := id, createdAt := now);
      forgivenesses := forgivenesses[id := stored];
      r := Done;
    }

    method ListForgivenessRows() returns (rows: seq<Forgiveness>)
      ensures rows == ListForgivenesses(Contents())
    {
      rows := ListForgivenesses(Tables(map[], map[], forgivenesses));
    }

    method DeleteForgiveness(id: int) returns (r: Outcome)
      modifies this`forgivenesses
      ensures (Contents(), r) == RemoveForgiveness(old(Contents()), id)
    {
      if id !in forgivenesses { return NotFound; }
      forgivenesses := forgivenesses - {id};
      r := Done;
    }
  }
}
