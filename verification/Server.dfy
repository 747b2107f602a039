/** The request handlers over a store, each proved to make the ledger's transition. */
module Server {
  import opened Options
  import opened Calendar
  import opened Records
  import opened Parsing
  import opened Canonical
  import opened Intents
  import opened Tables
  import opened Balance
  import opened Ledger
  import S = Store

  class Server {
    const store: S.Store

    constructor (store: S.Store)
      ensures this.store == store
    {
      this.store := store;
    }

    method LoadExpense(user: Payer, id: int) returns (r: Option<Expense>)
      ensures r == Ledger.LoadExpense(store.Contents(), user, id)
      ensures r.Some? <==>
              id in store.expenses && (user == Javi || store.expenses[id].shared || store.expenses[id].settlement)
      ensures r.Some? ==> r.value == store.expenses[id]
    {
      r := store.Get(id);
      if r.Some? && user == Carla && !InSharedTab(r.value) {
        r := None;
      }
    }

    method LoadIncome(user: Payer, id: int) returns (r: Option<(Income, bool)>)
      ensures r == Ledger.LoadIncome(store.Contents(), user, id)
    {
      var i := store.GetIncome(id);
      if i.None? { return None; }
      var shared := i.value.settlement;
      if i.value.linked.Some? {
        var parent := store.Get(i.value.linked.value);
        if parent.None? { return None; }
        shared := parent.value.shared;
      }
      if user == Carla && !shared { return None; }
      r := Some((i.value, shared));
    }

    method AddIntent(user: Payer, sharedTab: bool, linked: Option<int>) returns (r: Option<Intent>)
      ensures r == Ledger.AddIntent(store.Contents(), user, sharedTab, linked)
    {
      if linked.None? || linked.value <= 0 { return Some(PlainAdd(user, sharedTab)); }
      var parent := LoadExpense(user, linked.value);
      if parent.None? { return None; }
      r := Some(AddPayback(parent.value));
    }

    method EditIntent(user: Payer, kind: Kind, id: int, today: Day) returns (r: EditTarget)
      ensures r == Ledger.EditIntent(store.Contents(), user, kind, id, today)
    {
      if kind == IncomeKind {
        var loaded := LoadIncome(user, id);
        if loaded.None? { return Unknown; }
        var intent := EditIncome(loaded.value.0, today);
        if intent.None? { return TooOld; }
        return Target(intent.value.WithSharedTab(loaded.value.1), IncomeLine(loaded.value.0));
      }
      var e := LoadExpense(user, id);
      if e.None? { return Unknown; }
      var intent := EditExpense(e.value, today);
      if intent.None? { return TooOld; }
      r := Target(intent.value, ExpenseLine(e.value));
    }

    method HandleAdd(user: Payer, sharedTab: bool, linked: Option<int>, raw: string, today: Day, now: int)
      returns (r: Response)
      modifies store
      ensures (store.Contents(), r) == Ledger.HandleAdd(old(store.Contents()), user, sharedTab, linked, raw, today, now)
    {
      var intent := AddIntent(user, sharedTab, linked);
      if intent.None? { return Conflict; }
      var sub := SubmitLine(intent.value, raw, today);
      if !sub.OK() { return Unprocessable; }
      if sub.income.Some? {
        var o, _ := store.CreateIncome(sub.income.value, now);
        return Respond(o);
      }
      var _ := store.Create(sub.expense.value, now);
      r := Saved;
    }

    method HandleEditSave(user: Payer, kind: Kind, id: int, raw: string, today: Day, now: int) returns (r: Response)
      modifies store
      ensures (store.Contents(), r) == Ledger.HandleEditSave(old(store.Contents()), user, kind, id, raw, today, now)
    {
      var target := EditIntent(user, kind, id, today);
      if target.Unknown? { return Missing; }
      if target.TooOld? { return Forbidden; }
      var sub := SubmitLine(target.intent, raw, today);
      if !sub.OK() { return Unprocessable; }
      var o;
      if sub.income.Some? {
        o := store.UpdateIncome(sub.income.value, now);
      } else {
        o := store.Update(sub.expense.value, now);
      }
      r := Respond(o);
    }

    method HandleDelete(user: Payer, kind: Kind, id: int) returns (r: Response)
      modifies store
      ensures (store.Contents(), r) == Ledger.HandleDelete(old(store.Contents()), user, kind, id)
    {
      var o;
      if kind == IncomeKind {
        var loaded := LoadIncome(user, id);
        if loaded.None? { return Missing; }
        o := store.DeleteIncome(id);
      } else {
        var loaded := LoadExpense(user, id);
        if loaded.None? { return Missing; }
        o := store.Delete(id);
      }
      r := Respond(o);
    }

    method HandleForgive(user: Payer, amount: string, date: PostedDate, today: Day, now: int) returns (r: Response)
      modifies store
      ensures (store.Contents(), r) == Ledger.HandleForgive(old(store.Contents()), user, amount, date, today, now)
    {
      if user == Carla { return Missing; }
      var expenses := store.List();
      var incomes := store.ListIncomeRows();
      var forgivenesses := store.ListForgivenessRows();
      var balance := SharedBalance(expenses, incomes, forgivenesses);
      var f := NewForgiveness(balance, amount, date, today);
      if f.None? { return Unprocessable; }
      var o, _ := store.CreateForgiveness(f.value, now);
      r := Respond(o);
    }

    method HandleDeleteForgiveness(user: Payer, id: int) returns (r: Response)
      modifies store
      ensures (store.Contents(), r) == Ledger.HandleDeleteForgiveness(old(store.Contents()), user, id)
    {
      if user == Carla { return Missing; }
      var o := store.DeleteForgiveness(id);
      r := Respond(o);
    }

    /** Serves one request; a ledger in good order stays so. */
    method Serve(r: Request, today: Day, now: int) returns (a: Response)
      modifies store
      ensures (store.Contents(), a) == Handle(old(store.Contents()), r, today, now)
      ensures old(Inv(store.Contents())) ==> Inv(store.Contents()) && a != Failed
    {
      StepKeepsInvariantIfGood(store.Contents(), Step(r, today, now));
      match r
      case AddLine(user, sharedTab, linked, raw) => a := HandleAdd(user, sharedTab, linked, raw, today, now);
      case SaveEdit(user, kind, id, raw) => a := HandleEditSave(user, kind, id, raw, today, now);
      case Delete(user, kind, id) => a := HandleDelete(user, kind, id);
      case Forgive(user, amount, date) => a := HandleForgive(user, amount, date, today, now);
      case DeleteForgiveness(user, id) => a := HandleDeleteForgiveness(user, id);
    }
  }

  lemma StepKeepsInvariantIfGood(t: Tables, s: Step)
    ensures Inv(t) ==> Inv(After(t, s)) && Handle(t, s.request, s.today, s.now).1 != Failed
  {
    if Inv(t) {
      StepKeepsInvariant(t, s);
    }
  }
}
