/** The ledger as a state machine: requests by either user, the tables they leave, and the invariant of every run. */
module Ledger {
  import opened Text
  import opened Options
  import opened Sequences
  import opened Amounts
  import opened Calendar
  import opened Records
  import opened Parsing
  import opened Canonical
  import opened Intents
  import opened Tables
  import opened Balance

  // ----- Requests

  datatype Kind = ExpenseKind | IncomeKind

  /** The date of a forgive form: left blank, malformed, or a calendar day. */
  datatype PostedDate = Blank | Malformed | OnDay(day: Day)

  /** A state-changing request; linked is the posted parent id when it is a number. */
  datatype Request =
    | AddLine(user: Payer, sharedTab: bool, linked: Option<int>, raw: string)
    | SaveEdit(user: Payer, kind: Kind, id: int, raw: string)
    | Delete(user: Payer, kind: Kind, id: int)
    | Forgive(user: Payer, amount: string, date: PostedDate)
    | DeleteForgiveness(user: Payer, id: int)

  datatype Response = Saved | Unprocessable | Conflict | Forbidden | Missing | Failed

  // ----- Read-only decisions

  predicate InSharedTab(e: Expense) {
    e.shared || e.settlement
  }

  /** Carla sees only what is in the Shared tab; anything else answers as if it did not exist. */
  function LoadExpense(t: Tables, user: Payer, id: int): Option<Expense> {
    if id !in t.expenses || (user == Carla && !InSharedTab(t.expenses[id])) then None
    else Some(t.expenses[id])
  }

  /** An income, and whether it belongs to the Shared tab: a payback belongs where its parent is shared. */
  function LoadIncome(t: Tables, user: Payer, id: int): Option<(Income, bool)> {
    if id !in t.incomes then None
    else
      var i := t.incomes[id];
      if i.linked.Some? && i.linked.value !in t.expenses then None
      else
        var shared := if i.linked.Some? then t.expenses[i.linked.value].shared else i.settlement;
        if user == Carla && !shared then None else Some((i, shared))
  }

  function PlainAdd(user: Payer, sharedTab: bool): Intent {
    if user == Carla || sharedTab then AddShared(user) else Add()
  }

  /** The intent of a submission to the add box, or none when the payback's parent is gone. */
  function AddIntent(t: Tables, user: Payer, sharedTab: bool, linked: Option<int>): Option<Intent> {
    if linked.None? || linked.value <= 0 then Some(PlainAdd(user, sharedTab))
    else
      var parent := LoadExpense(t, user, linked.value);
      if parent.None? then None else Some(AddPayback(parent.value))
  }

  /** What an edit targets: the intent and the canonical line that fills the box. */
  datatype EditTarget = Target(intent: Intent, line: string) | Unknown | TooOld

  function EditIntent(t: Tables, user: Payer, kind: Kind, id: int, today: Day): EditTarget {
    match kind
    case IncomeKind =>
      var loaded := LoadIncome(t, user, id);
      if loaded.None? then Unknown
      else
        var (i, shared) := loaded.value;
        var intent := EditIncome(i, today);
        if intent.None? then TooOld else Target(intent.value.WithSharedTab(shared), IncomeLine(i))
    case ExpenseKind =>
      var loaded := LoadExpense(t, user, id);
      if loaded.None? then Unknown
      else
        var intent := EditExpense(loaded.value, today);
        if intent.None? then TooOld else Target(intent.value, ExpenseLine(loaded.value))
  }

  function CurrentBalance(t: Tables): Balance {
    BalanceOf(ListExpenses(t), ListIncomes(t), ListForgivenesses(t))
  }

  /** The forgiveness a form asks for against the current balance, or none when it is refused. */
  function NewForgiveness(balance: Balance, amount: string, date: PostedDate, today: Day): (f: Option<Forgiveness>)
    ensures f.Some? ==> balance.debtor == Some(Carla) && 0 < f.value.amount <= balance.amount && f.value.date <= today
  {
    if balance.amount == 0 || balance.debtor != Some(Carla) then None
    else
      var (asked, ok) := if amount == "" then (balance.amount, true) else ParseAmount(amount);
      if !ok || asked == 0 || asked > balance.amount then None
      else match date
        case Blank => Some(Forgiveness(0, today, asked, 0))
        case Malformed => None
        case OnDay(day) => if day > today then None else Some(Forgiveness(0, day, asked, 0))
  }

  // ----- Transitions

  function Respond(o: Outcome): Response {
    match o
    case Done => Saved
    case NotFound => Missing
    case Violated => Failed
  }

  function HandleAdd(t: Tables, user: Payer, sharedTab: bool, linked: Option<int>, raw: string, today: Day, now: int): (Tables, Response) {
    var intent := AddIntent(t, user, sharedTab, linked);
    if intent.None? then (t, Conflict)
    else
      var s := Submit(intent.value, raw, today);
      if !s.OK() then (t, Unprocessable)
      else if s.income.Some? then
        var (t', o) := InsertIncome(t, s.income.value, now);
        (t', Respond(o))
      else (InsertExpense(t, s.expense.value, now), Saved)
  }

  function HandleEditSave(t: Tables, user: Payer, kind: Kind, id: int, raw: string, today: Day, now: int): (Tables, Response) {
    match EditIntent(t, user, kind, id, today)
    case Unknown => (t, Missing)
    case TooOld => (t, Forbidden)
    case Target(intent, _) =>
      var s := Submit(intent, raw, today);
      if !s.OK() then (t, Unprocessable)
      else
        var (t', o) := if s.income.Some? then ReplaceIncome(t, s.income.value, now) else ReplaceExpense(t, s.expense.value, now);
        (t', Respond(o))
  }

  function HandleDelete(t: Tables, user: Payer, kind: Kind, id: int): (Tables, Response) {
    match kind
    case IncomeKind =>
      if LoadIncome(t, user, id).None? then (t, Missing)
      else
        var (t', o) := RemoveIncome(t, id);
        (t', Respond(o))
    case ExpenseKind =>
      if LoadExpense(t, user, id).None? then (t, Missing)
      else
        var (t', o) := RemoveExpense(t, id);
        (t', Respond(o))
  }

  function HandleForgive(t: Tables, user: Payer, amount: string, date: PostedDate, today: Day, now: int): (Tables, Response) {
    if user == Carla then (t, Missing)
    else
      var f := NewForgiveness(CurrentBalance(t), amount, date, today);
      if f.None? then (t, Unprocessable)
      else
        var (t', o) := InsertForgiveness(t, f.value, now);
        (t', Respond(o))
  }

  function HandleDeleteForgiveness(t: Tables, user: Payer, id: int): (Tables, Response) {
    if user == Carla then (t, Missing)
    else
      var (t', o) := RemoveForgiveness(t, id);
      (t', Respond(o))
  }

  function Handle(t: Tables, r: Request, today: Day, now: int): (Tables, Response) {
    match r
    case AddLine(user, sharedTab, linked, raw) => HandleAdd(t, user, sharedTab, linked, raw, today, now)
    case SaveEdit(user, kind, id, raw) => HandleEditSave(t, user, kind, id, raw, today, now)
    case Delete(user, kind, id) => HandleDelete(t, user, kind, id)
    case Forgive(user, amount, date) => HandleForgive(t, user, amount, date, today, now)
    case DeleteForgiveness(user, id) => HandleDeleteForgiveness(t, user, id)
  }

  /** One request served on some day at some instant. */
  datatype Step = Step(request: Request, today: Day, now: int)

  function After(t: Tables, s: Step): Tables {
    Handle(t, s.request, s.today, s.now).0
  }

  function Run(t: Tables, steps: seq<Step>): Tables
    decreases |steps|
  {
    if steps == [] then t else Run(After(t, steps[0]), steps[1..])
  }

  // ----- The invariant

  ghost predicate GoodExpenses(m: map<int, Expense>) {
    forall k :: k in m ==> k >= 1 && m[k].base.id == k && GoodExpense(m[k])
  }

  /** Paybacks belong to expenses that exist. */
  ghost predicate GoodIncomes(m: map<int, Income>, ids: set<int>) {
    forall k :: k in m ==>
      k >= 1 && m[k].base.id == k && GoodIncome(m[k]) && (m[k].linked.Some? ==> m[k].linked.value in ids)
  }

  ghost predicate GoodForgivenesses(m: map<int, Forgiveness>) {
    forall k :: k in m ==> k >= 1 && m[k].id == k && m[k].amount > 0
  }

  ghost predicate Inv(t: Tables) {
    GoodExpenses(t.expenses) && GoodIncomes(t.incomes, t.expenses.Keys) && GoodForgivenesses(t.forgivenesses)
  }

  // ----- Who can reach what

  /** Javi loads every stored expense and Carla exactly the shared ones and settlements, as stored. */
  lemma ExpenseLoads(t: Tables, user: Payer, id: int)
    ensures LoadExpense(t, user, id).Some? <==>
            id in t.expenses && (user == Javi || t.expenses[id].shared || t.expenses[id].settlement)
    ensures LoadExpense(t, user, id).Some? ==> LoadExpense(t, user, id).value == t.expenses[id]
  {}

  /** Whether an income is listed in the Shared tab: a settlement, or a payback of a shared expense. */
  predicate IncomeOfSharedTab(t: Tables, i: Income) {
    i.settlement || (i.linked.Some? && i.linked.value in t.expenses && t.expenses[i.linked.value].shared)
  }

  /** In a good ledger Javi loads every stored income and Carla exactly those of the Shared tab, as stored
      and with the tab they belong to. */
  lemma IncomeLoads(t: Tables, user: Payer, id: int)
    requires Inv(t)
    ensures LoadIncome(t, user, id).Some? <==> id in t.incomes && (user == Javi || IncomeOfSharedTab(t, t.incomes[id]))
    ensures LoadIncome(t, user, id).Some? ==>
              LoadIncome(t, user, id).value == (t.incomes[id], IncomeOfSharedTab(t, t.incomes[id]))
  {
    hide GoodExpense, Storable;
  }

  /** Editing targets the record that is loaded, unless it is past the edit window: under its own identity
      and in its own tab, with its own line in the box. */
  lemma EditTargets(t: Tables, user: Payer, id: int, today: Day)
    requires Inv(t)
    ensures var target := EditIntent(t, user, ExpenseKind, id, today);
            && (target == Unknown <==> LoadExpense(t, user, id).None?)
            && (target == TooOld <==> LoadExpense(t, user, id).Some? && !Editable(t.expenses[id].base.date, today))
            && (target.Target? ==>
                  var e := t.expenses[id];
                  && target.line == ExpenseLine(e) && target.intent.kind == EditingExpense && target.intent.id == id
                  && (target.intent.shared <==> e.shared || e.settlement))
    ensures var target := EditIntent(t, user, IncomeKind, id, today);
            && (target == Unknown <==> LoadIncome(t, user, id).None?)
            && (target == TooOld <==> LoadIncome(t, user, id).Some? && !Editable(t.incomes[id].base.date, today))
            && (target.Target? ==>
                  var i := t.incomes[id];
                  && target.line == IncomeLine(i) && target.intent.kind == EditingIncome && target.intent.id == id
                  && (target.intent.shared <==> IncomeOfSharedTab(t, i)))
  {
    hide Editable, ExpenseLine, IncomeLine, GoodExpense, GoodIncome, LoadExpense, LoadIncome, IncomeOfSharedTab;
    ExpenseLoads(t, user, id);
    IncomeLoads(t, user, id);
  }

  /** Adding is for the typist in the Shared tab, for Javi in the ordinary one, and for a payback when a
      parent is posted: linked to that parent and placed in its tab. */
  lemma AddTargets(t: Tables, user: Payer, sharedTab: bool, linked: Option<int>)
    requires Inv(t)
    ensures var intent := AddIntent(t, user, sharedTab, linked);
            if linked.Some? && linked.value > 0 then
              && (intent.Some? <==> LoadExpense(t, user, linked.value).Some?)
              && (intent.Some? ==>
                    && intent.value.kind == AddingPayback && intent.value.id == 0 && intent.value.linked == linked
                    && intent.value.shared == t.expenses[linked.value].shared)
            else
              && intent.Some? && intent.value.kind == Adding && intent.value.id == 0 && intent.value.linked == None
              && intent.value.shared == (user == Carla || sharedTab)
              && intent.value.PaidBy() == if intent.value.shared then user else Javi
  {
    hide GoodExpense, GoodIncome;
  }

  // ----- What adding, editing and deleting do, in terms of the line alone

  /** Adding conflicts when the payback's parent cannot be loaded; otherwise it saves exactly a line that
      passes the parser's gates under the sigil its place allows: + for a payback, no + in the Shared tab,
      no = outside it. A saved line is one new row under its table's next id, an income for + and for
      Carla's =, else an expense, shared and paid by the typist in the Shared tab; nothing else changes. */
  lemma AddFrame(t: Tables, user: Payer, sharedTab: bool, linked: Option<int>, raw: string, today: Day, now: int)
    requires Inv(t)
    ensures var (t', r) := Handle(t, AddLine(user, sharedTab, linked, raw), today, now);
            var p := Parsed(raw, today);
            var parent := if linked.Some? && linked.value > 0 then linked else None;
            var tab := user == Carla || sharedTab;
            && (r == Conflict <==> parent.Some? && LoadExpense(t, user, parent.value).None?)
            && (r == Saved <==>
                  && r != Conflict && p.OK()
                  && (if parent.Some? then p.isIncome else if tab then !p.isIncome else !p.isSettlement))
            && (r != Saved ==> t' == t && (r == Conflict || r == Unprocessable))
            && (r == Saved ==>
                  if p.isIncome || (p.isSettlement && user == Carla) then
                    var id := NextId(t.incomes.Keys);
                    t' == t.(incomes := t.incomes[id := Income(Filled(p, raw, id, now, now), parent, p.isSettlement)])
                  else
                    var id := NextId(t.expenses.Keys);
                    var shared := tab && !p.isSettlement;
                    t' == t.(expenses := t.expenses[id :=
                      Expense(Filled(p, raw, id, now, now), shared, if shared then user else Javi, p.isSettlement)]))
  {
    hide Parsed, Submit, Inv, NextId, GoodIntent;
    AddIntentIsGood(t, user, sharedTab, linked);
    var intent := AddIntent(t, user, sharedTab, linked);
    if intent.Some? {
      SubmitFills(intent.value, raw, today);
    }
  }

  /** An edit is missing when the record cannot be loaded, forbidden past the edit window, and otherwise
      saves exactly a line that passes the parser's gates and keeps the record's own sigil; it then
      rewrites what a line fills in that record's row and nothing else. */
  lemma ExpenseEditFills(t: Tables, user: Payer, id: int, raw: string, today: Day, now: int)
    requires Inv(t)
    ensures var (t', r) := Handle(t, SaveEdit(user, ExpenseKind, id, raw), today, now);
            var p := Parsed(raw, today);
            var loaded := LoadExpense(t, user, id);
            && (r == Missing <==> loaded.None?)
            && (r == Forbidden <==> loaded.Some? && !Editable(loaded.value.base.date, today))
            && (r == Saved <==>
                  && loaded.Some? && r != Forbidden && p.OK()
                  && !p.isIncome && p.isSettlement == loaded.value.settlement)
            && (r != Saved ==> t' == t)
            && (r == Saved ==>
                  var e := t.expenses[id];
                  t' == t.(expenses := t.expenses[id := e.(base := Filled(p, raw, id, e.base.createdAt, now))]))
  {
    hide Parsed, Submit, Editable, Storable, ExpenseLine, GoodIntent;
    var loaded := LoadExpense(t, user, id);
    if loaded.Some? && Editable(loaded.value.base.date, today) {
      EditIntentIsGood(t, user, ExpenseKind, id, today);
      SubmitFills(EditExpense(loaded.value, today).value, raw, today);
    }
  }

  /** The same for an income, which keeps its parent. */
  lemma IncomeEditFills(t: Tables, user: Payer, id: int, raw: string, today: Day, now: int)
    requires Inv(t)
    ensures var (t', r) := Handle(t, SaveEdit(user, IncomeKind, id, raw), today, now);
            var p := Parsed(raw, today);
            var loaded := LoadIncome(t, user, id);
            && (r == Missing <==> loaded.None?)
            && (r == Forbidden <==> loaded.Some? && !Editable(loaded.value.0.base.date, today))
            && (r == Saved <==>
                  && loaded.Some? && r != Forbidden && p.OK()
                  && (if loaded.value.0.settlement then p.isSettlement else p.isIncome))
            && (r != Saved ==> t' == t)
            && (r == Saved ==>
                  var i := t.incomes[id];
                  t' == t.(incomes := t.incomes[id := i.(base := Filled(p, raw, id, i.base.createdAt, now))]))
  {
    hide Parsed, Submit, Editable, Storable, IncomeLine, GoodIntent;
    var loaded := LoadIncome(t, user, id);
    if loaded.Some? && Editable(loaded.value.0.base.date, today) {
      EditIntentIsGood(t, user, IncomeKind, id, today);
      var (i, shared) := loaded.value;
      SubmitFills(EditIncome(i, today).value.WithSharedTab(shared), raw, today);
    }
  }

  /** Deleting takes exactly the record its user can load, and with an expense the incomes that pay it back. */
  lemma DeleteFrame(t: Tables, user: Payer, kind: Kind, id: int, today: Day, now: int)
    requires Inv(t)
    ensures var (t', r) := Handle(t, Delete(user, kind, id), today, now);
            && t'.forgivenesses == t.forgivenesses
            && (r == Saved <==> if kind == ExpenseKind then LoadExpense(t, user, id).Some? else LoadIncome(t, user, id).Some?)
            && (r != Saved ==> t' == t && r == Missing)
            && (r == Saved && kind == ExpenseKind ==>
                  && t'.expenses == t.expenses - {id} && id in t.expenses
                  && (forall k :: k in t'.incomes <==> k in t.incomes && t.incomes[k].linked != Some(id))
                  && (forall k :: k in t'.incomes ==> t'.incomes[k] == t.incomes[k]))
            && (r == Saved && kind == IncomeKind ==>
                  t'.expenses == t.expenses && t'.incomes == t.incomes - {id} && id in t.incomes)
  {
    hide Inv;
  }

  // ----- Every step keeps the invariant

  /** A successful submission is stored; the schema's constraints never refuse it. */
  lemma AddKeepsInvariant(t: Tables, user: Payer, sharedTab: bool, linked: Option<int>, raw: string, today: Day, now: int)
    requires Inv(t)
    ensures var (t', r) := HandleAdd(t, user, sharedTab, linked, raw, today, now);
            Inv(t') && r != Failed && r != Missing
  {
    hide Submit, AddIntent, GoodIntent, GoodExpense, GoodIncome, Inv, InsertExpense, InsertIncome;
    var intent := AddIntent(t, user, sharedTab, linked);
    if intent.Some? && Submit(intent.value, raw, today).OK() {
      AddIntentIsGood(t, user, sharedTab, linked);
      AddIntentAdds(t, user, sharedTab, linked);
      SubmitIsGood(intent.value, raw, today);
      var s := Submit(intent.value, raw, today);
      if s.income.Some? {
        InsertIncomeKeepsInvariant(t, s.income.value, now);
      } else {
        InsertExpenseKeepsInvariant(t, s.expense.value, now);
      }
    }
  }

  lemma InsertExpenseKeepsInvariant(t: Tables, e: Expense, now: int)
    requires Inv(t) && GoodExpense(e)
    ensures Inv(InsertExpense(t, e, now))
  {
    hide DescriptionOK, AccountOK;
  }

  lemma InsertIncomeKeepsInvariant(t: Tables, i: Income, now: int)
    requires Inv(t) && GoodIncome(i) && (i.linked.Some? ==> i.linked.value in t.expenses)
    ensures var (t', o) := InsertIncome(t, i, now); Inv(t') && o == Done
  {
    hide DescriptionOK, AccountOK;
  }

  lemma AddIntentIsGood(t: Tables, user: Payer, sharedTab: bool, linked: Option<int>)
    requires Inv(t)
    ensures var intent := AddIntent(t, user, sharedTab, linked);
            intent.Some? ==>
              && GoodIntent(intent.value)
              && intent.value.linked == (if linked.Some? && linked.value > 0 then linked else None)
              && (intent.value.linked.Some? ==> intent.value.linked.value in t.expenses)
  {}

  lemma AddIntentAdds(t: Tables, user: Payer, sharedTab: bool, linked: Option<int>)
    ensures var intent := AddIntent(t, user, sharedTab, linked);
            intent.Some? ==> intent.value.kind == Adding || intent.value.kind == AddingPayback
  {}

  lemma EditIntentIsGood(t: Tables, user: Payer, kind: Kind, id: int, today: Day)
    requires Inv(t)
    ensures var target := EditIntent(t, user, kind, id, today);
            target.Target? ==>
              && GoodIntent(target.intent) && target.intent.id == id
              && (kind == ExpenseKind ==>
                    && id in t.expenses && target.intent.kind == EditingExpense
                    && target.intent.settlement == t.expenses[id].settlement
                    && (!target.intent.settlement ==>
                          target.intent.shared == t.expenses[id].shared && target.intent.PaidBy() == t.expenses[id].paidBy))
              && (kind == IncomeKind ==>
                    && id in t.incomes && target.intent.kind == EditingIncome
                    && target.intent.settlement == t.incomes[id].settlement && target.intent.linked == t.incomes[id].linked)
  {
    hide Storable, Editable, ExpenseLine, IncomeLine;
  }

  /** A saved edit writes exactly the record named by kind and id, never the other table's row of the same
      number, and keeps the record's kind, creation time, payer, shared and settlement flags, and link. */
  lemma EditFrame(t: Tables, user: Payer, kind: Kind, id: int, raw: string, today: Day, now: int)
    requires Inv(t)
    ensures var (t', r) := HandleEditSave(t, user, kind, id, raw, today, now);
            && r != Failed && r != Conflict
            && (r != Saved ==> t' == t)
            && (r == Saved && kind == ExpenseKind ==>
                  && id in t.expenses && id in t'.expenses
                  && t' == t.(expenses := t.expenses[id := t'.expenses[id]])
                  && var e, e' := t.expenses[id], t'.expenses[id];
                     && GoodExpense(e')
                     && e' == e.(base := e'.base)
                     && e'.base.id == id && e'.base.createdAt == e.base.createdAt && e'.base.updatedAt == now)
            && (r == Saved && kind == IncomeKind ==>
                  && id in t.incomes && id in t'.incomes
                  && t' == t.(incomes := t.incomes[id := t'.incomes[id]])
                  && var i, i' := t.incomes[id], t'.incomes[id];
                     && GoodIncome(i')
                     && i' == i.(base := i'.base)
                     && i'.base.id == id && i'.base.createdAt == i.base.createdAt && i'.base.updatedAt == now)
  {
    hide Submit, EditIntent, DescriptionOK, AccountOK, GoodIntent;
    var target := EditIntent(t, user, kind, id, today);
    if target.Target? {
      EditIntentIsGood(t, user, kind, id, today);
      if Submit(target.intent, raw, today).OK() {
        SubmitIsGood(target.intent, raw, today);
      }
    }
  }

  lemma RemoveExpenseKeepsInvariant(t: Tables, id: int)
    requires Inv(t)
    ensures Inv(RemoveExpense(t, id).0)
  {
    hide GoodExpense, GoodIncome;
  }

  /** A stored expense carries its own id and is good. */
  lemma ExpenseRow(t: Tables, id: int)
    requires Inv(t) && id in t.expenses
    ensures id >= 1 && t.expenses[id].base.id == id && GoodExpense(t.expenses[id])
  {}

  lemma DeleteKeepsInvariant(t: Tables, user: Payer, kind: Kind, id: int)
    requires Inv(t)
    ensures var (t', r) := HandleDelete(t, user, kind, id);
            Inv(t') && (r == Saved || r == Missing)
  {
    hide GoodExpense, GoodIncome;
  }

  lemma ForgivenessesKeepInvariant(t: Tables, user: Payer, amount: string, date: PostedDate, id: int, today: Day, now: int)
    requires Inv(t)
    ensures var (t', r) := HandleForgive(t, user, amount, date, today, now); Inv(t') && r != Failed
    ensures var (t', r) := HandleDeleteForgiveness(t, user, id); Inv(t') && r != Failed
  {
    hide CurrentBalance, GoodExpenses, GoodIncomes;
  }

  /** Every request keeps the invariant, and none fails on a constraint. */
  lemma StepKeepsInvariant(t: Tables, s: Step)
    requires Inv(t)
    ensures Inv(After(t, s)) && Handle(t, s.request, s.today, s.now).1 != Failed
  {
    hide HandleAdd, HandleEditSave, HandleDelete, HandleForgive, HandleDeleteForgiveness, GoodExpense, GoodIncome;
    match s.request
    case AddLine(user, sharedTab, linked, raw) => AddKeepsInvariant(t, user, sharedTab, linked, raw, s.today, s.now);
    case SaveEdit(user, kind, id, raw) => EditFrame(t, user, kind, id, raw, s.today, s.now);
    case Delete(user, kind, id) => DeleteKeepsInvariant(t, user, kind, id);
    case Forgive(user, amount, date) => ForgivenessesKeepInvariant(t, user, amount, date, 0, s.today, s.now);
    case DeleteForgiveness(user, id) => ForgivenessesKeepInvariant(t, user, "", Blank, id, s.today, s.now);
  }

  /** The invariant holds of every ledger any run of requests reaches. */
  lemma {:induction false} RunKeepsInvariant(t: Tables, steps: seq<Step>)
    requires Inv(t)
    ensures Inv(Run(t, steps))
    decreases |steps|
  {
    if steps != [] {
      StepKeepsInvariant(t, steps[0]);
      RunKeepsInvariant(After(t, steps[0]), steps[1..]);
    }
  }

  lemma EveryRunIsGood(steps: seq<Step>)
    ensures Inv(Run(EMPTY, steps))
  {
    RunKeepsInvariant(EMPTY, steps);
  }

  lemma {:induction false} RunAppends(t: Tables, first: seq<Step>, later: seq<Step>)
    ensures Run(t, first + later) == Run(Run(t, first), later)
    decreases |first|
  {
    hide After;
    if first == [] {
      assert first + later == later;
    } else {
      assert (first + later)[1..] == first[1..] + later;
      RunAppends(After(t, first[0]), first[1..], later);
    }
  }

  lemma RunOfOne(t: Tables, s: Step)
    ensures Run(t, []) == t && Run(t, [s]) == Handle(t, s.request, s.today, s.now).0
  {
    hide Handle;
    assert [s][1..] == [];
  }

  /** Column by column, what every record of every reachable ledger satisfies. */
  lemma ReachableRecords(steps: seq<Step>)
    ensures var t := Run(EMPTY, steps);
            && (forall k :: k in t.expenses ==>
                  var e := t.expenses[k];
                  && k >= 1 && e.base.id == k && ReachableText(e.base)
                  && (e.settlement ==> !e.shared) && (!e.shared ==> e.paidBy == Javi))
            && (forall k :: k in t.incomes ==>
                  var i := t.incomes[k];
                  && k >= 1 && i.base.id == k && ReachableText(i.base)
                  && (i.settlement ==> i.linked == None) && (i.linked.Some? ==> i.linked.value in t.expenses))
            && (forall k :: k in t.forgivenesses ==>
                  k >= 1 && t.forgivenesses[k].id == k && t.forgivenesses[k].amount > 0)
  {
    hide Run;
    EveryRunIsGood(steps);
  }

  /** A positive amount, a description of plain text tokens one space apart, an account without white space. */
  ghost predicate ReachableText(b: Entry) {
    && b.amount > 0
    && b.description != "" && b.description == Join(Fields(b.description))
    && (forall tok :: tok in Fields(b.description) ==> !IsDateToken(tok) && !IsAccountToken(tok))
    && (b.account.Some? ==> b.account.value != "" && forall c :: c in b.account.value ==> !IsSpace(c))
  }

  // ----- Untouched edits

  /** Saving the line the edit form offers, untouched, is always accepted; it refreshes the text and the
      update time and keeps everything else, exactly when the record is not dated ahead of today nor on
      last year's leap day. */
  lemma UntouchedExpenseEdit(t: Tables, user: Payer, id: int, today: Day, now: int)
    requires Inv(t) && EditIntent(t, user, ExpenseKind, id, today).Target?
    ensures var line := EditIntent(t, user, ExpenseKind, id, today).line;
            var (t', r) := HandleEditSave(t, user, ExpenseKind, id, line, today, now);
            && id in t.expenses && r == Saved
            && var e := t.expenses[id];
               && t' == t.(expenses := t.expenses[id := e.(base := e.base.(date := Redated(e.base.date, today), rawText := line, updatedAt := now))])
               && (t' == t.(expenses := t.expenses[id := e.(base := e.base.(rawText := line, updatedAt := now))]) <==>
                e.base.date <= today && !IsLeapDayOfPreviousYear(e.base.date, today))
  {
    hide Submit, Redated, Editable, IsLeapDayOfPreviousYear, ExpenseLine, GoodExpense;
    var e := t.expenses[id];
    ExpenseRoundTrip(e, today);
    EditableDateSurvives(e.base.date, today);
    var t' := HandleEditSave(t, user, ExpenseKind, id, ExpenseLine(e), today, now).0;
    assert t'.expenses[id] == e.(base := e.base.(date := Redated(e.base.date, today), rawText := ExpenseLine(e), updatedAt := now));
  }

  lemma IncomeTarget(t: Tables, user: Payer, id: int, today: Day)
    requires EditIntent(t, user, IncomeKind, id, today).Target?
    ensures id in t.incomes && EditIncome(t.incomes[id], today).Some?
    ensures var target := EditIntent(t, user, IncomeKind, id, today);
            && target.line == IncomeLine(t.incomes[id])
            && target.intent == EditIncome(t.incomes[id], today).value.WithSharedTab(target.intent.shared)
  {
    hide Editable, IncomeLine, ExpenseLine;
  }

  lemma EditIncomeNeedsEditable(i: Income, today: Day)
    requires EditIncome(i, today).Some?
    ensures Editable(i.base.date, today)
  {}

  lemma UntouchedIncomeEdit(t: Tables, user: Payer, id: int, today: Day, now: int)
    requires Inv(t) && EditIntent(t, user, IncomeKind, id, today).Target?
    ensures var line := EditIntent(t, user, IncomeKind, id, today).line;
            var (t', r) := HandleEditSave(t, user, IncomeKind, id, line, today, now);
            && id in t.incomes && r == Saved
            && var i := t.incomes[id];
               && t' == t.(incomes := t.incomes[id := i.(base := i.base.(date := Redated(i.base.date, today), rawText := line, updatedAt := now))])
               && (t' == t.(incomes := t.incomes[id := i.(base := i.base.(rawText := line, updatedAt := now))]) <==>
                i.base.date <= today && !IsLeapDayOfPreviousYear(i.base.date, today))
  {
    hide Submit, Redated, Editable, EditIncome, EditIntent, IsLeapDayOfPreviousYear, IncomeLine, DescriptionOK, AccountOK;
    IncomeTarget(t, user, id, today);
    var i := t.incomes[id];
    var intent := EditIntent(t, user, IncomeKind, id, today).intent;
    IncomeRoundTrip(i, intent.shared, today);
    EditIncomeNeedsEditable(i, today);
    EditableDateSurvives(i.base.date, today);
    var t' := HandleEditSave(t, user, IncomeKind, id, IncomeLine(i), today, now).0;
    assert t'.incomes[id] == i.(base := i.base.(date := Redated(i.base.date, today), rawText := IncomeLine(i), updatedAt := now));
  }
}
