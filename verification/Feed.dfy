/** The day-grouped feed: rows with their net costs, stably sorted newest first and cut into days. */
module Feed {
  import opened Options
  import opened Sequences
  import opened Text
  import opened Amounts
  import opened Calendar
  import opened Records
  import opened Balance

  /** A listed row: an expense under its paybacks, a standalone income, or a forgiveness. */
  datatype Row =
    | ExpenseRow(expense: Expense, paybacks: seq<Income>)
    | IncomeRow(income: Income)
    | ForgivenessRow(forgiveness: Forgiveness)

  /** A row with its sort key and what it adds to its day's total. */
  datatype FeedItem = FeedItem(date: Day, createdAt: int, cost: int, row: Row)

  /** One day's rows under their total. */
  datatype DayGroup = DayGroup(day: Day, total: int, rows: seq<FeedItem>)

  // ----- The feed before sorting

  predicate IsStandalone(i: Income) {
    i.linked.None?
  }

  /** An expense costs its amount less its paybacks; a settlement nothing, unless something was paid back on it. */
  function ExpenseCost(e: Expense, incomes: seq<Income>): int {
    if PaybacksOf(e.base.id, incomes) != [] then NetCost(e, incomes)
    else if e.settlement then 0
    else e.base.amount
  }

  function ExpenseItem(e: Expense, incomes: seq<Income>): FeedItem {
    FeedItem(e.base.date, e.base.createdAt, ExpenseCost(e, incomes), ExpenseRow(e, PaybacksOf(e.base.id, incomes)))
  }

  function ExpenseItemGiven(incomes: seq<Income>): Expense -> FeedItem {
    (e: Expense) => ExpenseItem(e, incomes)
  }

  function IncomeItem(i: Income): FeedItem {
    FeedItem(i.base.date, i.base.createdAt, 0, IncomeRow(i))
  }

  function ForgivenessItem(f: Forgiveness): FeedItem {
    FeedItem(f.date, f.createdAt, 0, ForgivenessRow(f))
  }

  /** Every expense, every income that pays back none, every forgiveness, each list in its order. */
  function Unsorted(expenses: seq<Expense>, incomes: seq<Income>, forgivenesses: seq<Forgiveness>): seq<FeedItem> {
    Map(expenses, ExpenseItemGiven(incomes))
    + Map(Filter(incomes, IsStandalone), IncomeItem)
    + Map(forgivenesses, ForgivenessItem)
  }

  function FeedKey(it: FeedItem): Key {
    Key(it.date, it.createdAt)
  }

  function SortedFeed(expenses: seq<Expense>, incomes: seq<Income>, forgivenesses: seq<Forgiveness>): seq<FeedItem> {
    Sort(Unsorted(expenses, incomes, forgivenesses), FeedKey)
  }

  // ----- Day groups

  function ItemCost(it: FeedItem): int { it.cost }

  function GroupTotal(g: DayGroup): int { g.total }

  function AllItems(groups: seq<DayGroup>): seq<FeedItem> {
    if groups == [] then [] else groups[0].rows + AllItems(groups[1..])
  }

  ghost predicate IsDay(g: DayGroup) {
    g.rows != [] && (forall k :: 0 <= k < |g.rows| ==> g.rows[k].date == g.day) && g.total == Sum(g.rows, ItemCost)
  }

  ghost predicate DaysDecrease(groups: seq<DayGroup>) {
    forall i, j :: 0 <= i < j < |groups| ==> groups[i].day > groups[j].day
  }

  /** The feed cut into days: the groups' rows are the feed, every group is one non-empty day with the sum
      of its costs, and days strictly decrease, so each day has one group. */
  ghost predicate IsDayGrouping(feed: seq<FeedItem>, groups: seq<DayGroup>) {
    AllItems(groups) == feed && (forall k :: 0 <= k < |groups| ==> IsDay(groups[k])) && DaysDecrease(groups)
  }

  // ----- What a day shows, from the records alone

  function DayOf(r: Row): Day {
    match r
    case ExpenseRow(e, _) => e.base.date
    case IncomeRow(i) => i.base.date
    case ForgivenessRow(f) => f.date
  }

  function CreatedAt(r: Row): int {
    match r
    case ExpenseRow(e, _) => e.base.createdAt
    case IncomeRow(i) => i.base.createdAt
    case ForgivenessRow(f) => f.createdAt
  }

  /** What a row costs: an expense its amount less the paybacks under it, a settlement without any nothing,
      an income or a forgiveness nothing. */
  function CostOf(r: Row): int {
    match r
    case ExpenseRow(e, pbs) => if e.settlement && pbs == [] then 0 else e.base.amount - Sum(pbs, IncomeAmount)
    case IncomeRow(_) => 0
    case ForgivenessRow(_) => 0
  }

  function RowOf(it: FeedItem): Row { it.row }

  function CreatedWhen(c: int): FeedItem -> bool {
    (it: FeedItem) => CreatedAt(it.row) == c
  }

  function ExpenseThen(day: Day, c: int): Expense -> bool {
    (e: Expense) => e.base.date == day && e.base.createdAt == c
  }

  function IncomeThen(day: Day, c: int): Income -> bool {
    (i: Income) => i.linked == None && i.base.date == day && i.base.createdAt == c
  }

  function ForgivenessThen(day: Day, c: int): Forgiveness -> bool {
    (f: Forgiveness) => f.date == day && f.createdAt == c
  }

  function PaysBack(id: int): Income -> bool {
    (i: Income) => i.linked == Some(id)
  }

  function UnderPaybacks(incomes: seq<Income>): Expense -> Row {
    (e: Expense) => ExpenseRow(e, Filter(incomes, PaysBack(e.base.id)))
  }

  function Alone(i: Income): Row { IncomeRow(i) }

  function Forgiving(f: Forgiveness): Row { ForgivenessRow(f) }

  /** The rows of one day and creation time: the expenses, each under the incomes that pay it back, then the
      incomes that pay back none, then the forgivenesses, each list in its order. */
  function RowsThen(expenses: seq<Expense>, incomes: seq<Income>, forgivenesses: seq<Forgiveness>, day: Day, c: int): seq<Row> {
    Map(Filter(expenses, ExpenseThen(day, c)), UnderPaybacks(incomes))
    + Map(Filter(incomes, IncomeThen(day, c)), Alone)
    + Map(Filter(forgivenesses, ForgivenessThen(day, c)), Forgiving)
  }

  /** A group shows its day: its rows are of that day at their cost, the latest created first, and those
      created at one time are the records of that day and time in their order. */
  ghost predicate ShowsDay(g: DayGroup, expenses: seq<Expense>, incomes: seq<Income>, forgivenesses: seq<Forgiveness>) {
    && (forall i :: 0 <= i < |g.rows| ==> DayOf(g.rows[i].row) == g.day && g.rows[i].cost == CostOf(g.rows[i].row))
    && (forall i, j :: 0 <= i < j < |g.rows| ==> CreatedAt(g.rows[i].row) >= CreatedAt(g.rows[j].row))
    && (forall c :: Map(Filter(g.rows, CreatedWhen(c)), RowOf) == RowsThen(expenses, incomes, forgivenesses, g.day, c))
  }

  /** An item carries the day, the creation time and the cost of its row. */
  predicate Carries(it: FeedItem) {
    it.date == DayOf(it.row) && it.createdAt == CreatedAt(it.row) && it.cost == CostOf(it.row)
  }

  lemma ItemsCarry(expenses: seq<Expense>, incomes: seq<Income>, forgivenesses: seq<Forgiveness>)
    ensures forall it :: it in SortedFeed(expenses, incomes, forgivenesses) ==> Carries(it)
  {
    hide Filter, Map, Sort, Sum;
    SortContents(Unsorted(expenses, incomes, forgivenesses), FeedKey);
    forall it | it in SortedFeed(expenses, incomes, forgivenesses) ensures Carries(it) {
      assert it in Unsorted(expenses, incomes, forgivenesses);
      if it in Map(expenses, ExpenseItemGiven(incomes)) {
        MapMembers(expenses, ExpenseItemGiven(incomes), it);
        var e :| e in expenses && ExpenseItemGiven(incomes)(e) == it;
        ExpenseCarries(e, incomes);
      } else if it in Map(Filter(incomes, IsStandalone), IncomeItem) {
        MapMembers(Filter(incomes, IsStandalone), IncomeItem, it);
      } else {
        MapMembers(forgivenesses, ForgivenessItem, it);
      }
    }
  }

  lemma ExpenseCarries(e: Expense, incomes: seq<Income>)
    ensures Carries(ExpenseItem(e, incomes))
  {
    assert PaybacksOf(e.base.id, incomes) == [] ==> PaidBack(e.base.id, incomes) == 0;
  }

  lemma HasFeedKey(day: Day, c: int)
    ensures forall it :: HasKey(FeedKey, Key(day, c))(it) <==> it.date == day && it.createdAt == c
  {
    forall it: FeedItem ensures HasKey(FeedKey, Key(day, c))(it) <==> it.date == day && it.createdAt == c {
      assert FeedKey(it) == Key(it.date, it.createdAt);
    }
  }

  /** The items of one key are the records of that day and time. */
  lemma UnsortedThen(expenses: seq<Expense>, incomes: seq<Income>, forgivenesses: seq<Forgiveness>, day: Day, c: int)
    ensures Map(WithKey(Unsorted(expenses, incomes, forgivenesses), FeedKey, Key(day, c)), RowOf) ==
            RowsThen(expenses, incomes, forgivenesses, day, c)
  {
    hide Filter, Map, PaybacksOf, ExpenseCost, HasKey;
    HasFeedKey(day, c);
    var p := HasKey(FeedKey, Key(day, c));
    var es := Map(expenses, ExpenseItemGiven(incomes));
    var ins := Map(Filter(incomes, IsStandalone), IncomeItem);
    var fs := Map(forgivenesses, ForgivenessItem);
    FilterAppend(es + ins, fs, p);
    FilterAppend(es, ins, p);
    MapAppend(Filter(es, p) + Filter(ins, p), Filter(fs, p), RowOf);
    MapAppend(Filter(es, p), Filter(ins, p), RowOf);
    FilterMap(expenses, ExpenseItemGiven(incomes), p, ExpenseThen(day, c));
    ExpenseRowsThen(Filter(expenses, ExpenseThen(day, c)), incomes);
    StandaloneThen(incomes, day, c);
    FilterMap(forgivenesses, ForgivenessItem, p, ForgivenessThen(day, c));
    MapMap(Filter(forgivenesses, ForgivenessThen(day, c)), ForgivenessItem, RowOf, Forgiving);
  }

  lemma ExpenseRowsThen(es: seq<Expense>, incomes: seq<Income>)
    ensures Map(Map(es, ExpenseItemGiven(incomes)), RowOf) == Map(es, UnderPaybacks(incomes))
  {
    forall e ensures RowOf(ExpenseItemGiven(incomes)(e)) == UnderPaybacks(incomes)(e) {
      FilterCongruent(incomes, LinksTo(e.base.id), PaysBack(e.base.id));
    }
    MapMap(es, ExpenseItemGiven(incomes), RowOf, UnderPaybacks(incomes));
  }

  lemma StandaloneThen(incomes: seq<Income>, day: Day, c: int)
    ensures Map(Filter(Map(Filter(incomes, IsStandalone), IncomeItem), HasKey(FeedKey, Key(day, c))), RowOf) ==
            Map(Filter(incomes, IncomeThen(day, c)), Alone)
  {
    hide Filter, Map, HasKey;
    HasFeedKey(day, c);
    var at := (i: Income) => i.base.date == day && i.base.createdAt == c;
    FilterMap(Filter(incomes, IsStandalone), IncomeItem, HasKey(FeedKey, Key(day, c)), at);
    FilterBoth(incomes, IsStandalone, at, IncomeThen(day, c));
    MapMap(Filter(incomes, IncomeThen(day, c)), IncomeItem, RowOf, Alone);
  }

  lemma {:induction false} DaysOfItems(groups: seq<DayGroup>)
    requires forall k :: 0 <= k < |groups| ==> IsDay(groups[k])
    ensures forall it :: it in AllItems(groups) ==> exists k :: 0 <= k < |groups| && groups[k].day == it.date
  {
    if groups != [] {
      var rest := groups[1..];
      forall k | 0 <= k < |rest| ensures IsDay(rest[k]) { assert rest[k] == groups[k + 1]; }
      DaysOfItems(rest);
      forall it | it in AllItems(groups) ensures exists k :: 0 <= k < |groups| && groups[k].day == it.date {
        if it in groups[0].rows {
          assert IsDay(groups[0]) && groups[0].day == it.date;
        } else {
          var k :| 0 <= k < |rest| && rest[k].day == it.date;
          assert groups[k + 1].day == it.date;
        }
      }
    }
  }

  /** Around one day's rows stand only items of other days. */
  lemma AroundDay(feed: seq<FeedItem>, groups: seq<DayGroup>, k: nat) returns (before: seq<FeedItem>, later: seq<FeedItem>)
    requires IsDayGrouping(feed, groups) && k < |groups|
    ensures feed == before + groups[k].rows + later
    ensures forall it :: it in before || it in later ==> it.date != groups[k].day
  {
    var a, b := groups[..k], groups[k + 1..];
    assert groups == a + ([groups[k]] + b);
    AllItemsAppend(a, [groups[k]] + b);
    AllItemsAppend([groups[k]], b);
    OneDay(groups[k]);
    before, later := AllItems(a), AllItems(b);
    forall m | 0 <= m < |b| ensures IsDay(b[m]) && b[m].day < groups[k].day { assert b[m] == groups[k + 1 + m]; }
    forall m | 0 <= m < |a| ensures IsDay(a[m]) && a[m].day > groups[k].day { assert a[m] == groups[m]; }
    DaysOfItems(a);
    DaysOfItems(b);
  }

  /** However a sorted feed is cut into days, each group shows its day. */
  lemma GroupsShowDays(expenses: seq<Expense>, incomes: seq<Income>, forgivenesses: seq<Forgiveness>, groups: seq<DayGroup>, k: nat)
    requires IsDayGrouping(SortedFeed(expenses, incomes, forgivenesses), groups) && k < |groups|
    ensures ShowsDay(groups[k], expenses, incomes, forgivenesses)
  {
    var feed := SortedFeed(expenses, incomes, forgivenesses);
    var g := groups[k];
    var before, later := AroundDay(feed, groups, k);
    assert IsDay(g);
    hide IsDayGrouping, IsDay, Filter, Map, Sort, Sum, RowsThen, Unsorted;
    SortIsStable(Unsorted(expenses, incomes, forgivenesses), FeedKey);
    ItemsCarry(expenses, incomes, forgivenesses);
    InnerOrder(feed, before, g.rows, later, g.day);
    forall c ensures Map(Filter(g.rows, CreatedWhen(c)), RowOf) == RowsThen(expenses, incomes, forgivenesses, g.day, c) {
      InnerKey(before, g.rows, later, g.day, c);
      UnsortedThen(expenses, incomes, forgivenesses, g.day, c);
      assert WithKey(feed, FeedKey, Key(g.day, c)) == WithKey(Unsorted(expenses, incomes, forgivenesses), FeedKey, Key(g.day, c));
    }
  }

  lemma InnerOrder(feed: seq<FeedItem>, before: seq<FeedItem>, rows: seq<FeedItem>, later: seq<FeedItem>, day: Day)
    requires feed == before + rows + later && NewestFirst(feed, FeedKey)
    requires forall it :: it in rows ==> it.date == day && Carries(it)
    ensures forall i, j :: 0 <= i < j < |rows| ==> CreatedAt(rows[i].row) >= CreatedAt(rows[j].row)
  {
    forall i, j | 0 <= i < j < |rows| ensures CreatedAt(rows[i].row) >= CreatedAt(rows[j].row) {
      assert rows[i] in rows && rows[j] in rows;
      assert feed[|before| + i] == rows[i] && feed[|before| + j] == rows[j];
    }
  }

  lemma InnerKey(before: seq<FeedItem>, rows: seq<FeedItem>, later: seq<FeedItem>, day: Day, c: int)
    requires forall it :: it in before || it in later ==> it.date != day
    requires forall it :: it in rows ==> it.date == day && Carries(it)
    ensures WithKey(before + rows + later, FeedKey, Key(day, c)) == Filter(rows, CreatedWhen(c))
  {
    hide Filter, HasKey;
    HasFeedKey(day, c);
    var p := HasKey(FeedKey, Key(day, c));
    FilterAppend(before + rows, later, p);
    FilterAppend(before, rows, p);
    FilterNone(before, p);
    FilterNone(later, p);
    FilterCongruent(rows, p, CreatedWhen(c));
  }

  // ----- The loops

  function AtOrEmpty(m: map<int, seq<Income>>, id: int): seq<Income> {
    if id in m then m[id] else []
  }

  lemma PaybacksStep(incomes: seq<Income>, i: Income)
    ensures forall id :: PaybacksOf(id, incomes + [i]) == PaybacksOf(id, incomes) + if i.linked == Some(id) then [i] else []
    ensures Filter(incomes + [i], IsStandalone) == Filter(incomes, IsStandalone) + if i.linked.None? then [i] else []
  {
    FilterAppend(incomes, [i], IsStandalone);
    forall id ensures PaybacksOf(id, incomes + [i]) == PaybacksOf(id, incomes) + if i.linked == Some(id) then [i] else [] {
      FilterAppend(incomes, [i], LinksTo(id));
    }
  }

  /** Incomes by the expense they pay back, and those that pay back none. */
  method BucketIncomes(incomes: seq<Income>) returns (paybacks: map<int, seq<Income>>, standalone: seq<Income>)
    ensures forall id :: AtOrEmpty(paybacks, id) == PaybacksOf(id, incomes)
    ensures standalone == Filter(incomes, IsStandalone)
  {
    hide Filter;
    paybacks, standalone := map[], [];
    NoPaybacks();
    var k := 0;
    while k < |incomes|
      invariant 0 <= k <= |incomes|
      invariant forall id :: AtOrEmpty(paybacks, id) == PaybacksOf(id, incomes[..k])
      invariant standalone == Filter(incomes[..k], IsStandalone)
    {
      var i := incomes[k];
      assert incomes[..k + 1] == incomes[..k] + [i];
      PaybacksStep(incomes[..k], i);
      ghost var before := paybacks;
      assert forall id :: AtOrEmpty(before, id) == PaybacksOf(id, incomes[..k]);
      if i.linked.Some? {
        paybacks := paybacks[i.linked.value := AtOrEmpty(paybacks, i.linked.value) + [i]];
      } else {
        standalone := standalone + [i];
      }
      k := k + 1;
    }
    assert incomes[..k] == incomes;
  }

  lemma NoPaybacks()
    ensures forall id :: PaybacksOf(id, []) == []
    ensures Filter([], IsStandalone) == []
  {}

  /** An amount less its paybacks, one by one. */
  method SubtractPaybacks(e: Expense, paybacks: seq<Income>) returns (net: int)
    ensures net == e.base.amount - Sum(paybacks, IncomeAmount)
  {
    net := e.base.amount;
    var k := 0;
    while k < |paybacks|
      invariant 0 <= k <= |paybacks|
      invariant net == e.base.amount - Sum(paybacks[..k], IncomeAmount)
    {
      SumTake(paybacks, k, IncomeAmount);
      net := net - paybacks[k].base.amount;
      k := k + 1;
    }
    assert paybacks[..k] == paybacks;
  }

  /** The expenses as feed items, each under the paybacks its id has in the table. */
  method GatherExpenses(expenses: seq<Expense>, paybacks: map<int, seq<Income>>, ghost incomes: seq<Income>) returns (feed: seq<FeedItem>)
    requires forall id :: AtOrEmpty(paybacks, id) == PaybacksOf(id, incomes)
    ensures feed == Map(expenses, ExpenseItemGiven(incomes))
  {
    hide PaybacksOf, Sum;
    feed := [];
    var k := 0;
    while k < |expenses|
      invariant 0 <= k <= |expenses|
      invariant feed == Map(expenses[..k], ExpenseItemGiven(incomes))
    {
      var e := expenses[k];
      var cost := if e.settlement then 0 else e.base.amount;
      var pbs := AtOrEmpty(paybacks, e.base.id);
      assert pbs == PaybacksOf(e.base.id, incomes);
      if |pbs| > 0 {
        cost := SubtractPaybacks(e, pbs);
      }
      feed := feed + [FeedItem(e.base.date, e.base.createdAt, cost, ExpenseRow(e, pbs))];
      MapTake(expenses, k, ExpenseItemGiven(incomes));
      k := k + 1;
    }
    assert expenses[..k] == expenses;
  }

  /** The feed in the order it is gathered: expenses, standalone incomes, forgivenesses. */
  method GatherFeed(expenses: seq<Expense>, incomes: seq<Income>, forgivenesses: seq<Forgiveness>) returns (feed: seq<FeedItem>)
    ensures feed == Unsorted(expenses, incomes, forgivenesses)
  {
    hide PaybacksOf, Filter, ExpenseItem;
    var paybacks, standalone := BucketIncomes(incomes);
    feed := GatherExpenses(expenses, paybacks, incomes);
    ghost var es := feed;
    var k := 0;
    while k < |standalone|
      invariant 0 <= k <= |standalone|
      invariant feed == es + Map(standalone[..k], IncomeItem)
    {
      feed := feed + [FeedItem(standalone[k].base.date, standalone[k].base.createdAt, 0, IncomeRow(standalone[k]))];
      MapTake(standalone, k, IncomeItem);
      k := k + 1;
    }
    assert standalone[..k] == standalone;
    ghost var rows := feed;
    k := 0;
    while k < |forgivenesses|
      invariant 0 <= k <= |forgivenesses|
      invariant feed == rows + Map(forgivenesses[..k], ForgivenessItem)
    {
      feed := feed + [FeedItem(forgivenesses[k].date, forgivenesses[k].createdAt, 0, ForgivenessRow(forgivenesses[k]))];
      MapTake(forgivenesses, k, ForgivenessItem);
      k := k + 1;
    }
    assert forgivenesses[..k] == forgivenesses;
  }

  lemma MapTake<T, U>(s: seq<T>, k: nat, f: T -> U)
    requires k < |s|
    ensures Map(s[..k + 1], f) == Map(s[..k], f) + [f(s[k])]
  {
    assert s[..k + 1] == s[..k] + [s[k]];
    MapAppend(s[..k], [s[k]], f);
  }

  /** Merges the three lists into day groups, newest day first. */
  method GroupByDay(expenses: seq<Expense>, incomes: seq<Income>, forgivenesses: seq<Forgiveness>) returns (groups: seq<DayGroup>)
    ensures IsDayGrouping(SortedFeed(expenses, incomes, forgivenesses), groups)
    ensures forall k :: 0 <= k < |groups| ==> ShowsDay(groups[k], expenses, incomes, forgivenesses)
  {
    hide ShowsDay;
    var feed := GatherFeed(expenses, incomes, forgivenesses);
    feed := Sort(feed, FeedKey);
    SortIsStable(Unsorted(expenses, incomes, forgivenesses), FeedKey);
    groups := CutIntoDays(feed);
    forall k | 0 <= k < |groups| ensures ShowsDay(groups[k], expenses, incomes, forgivenesses) {
      GroupsShowDays(expenses, incomes, forgivenesses, groups, k);
    }
  }

  /** Cuts a newest-first feed into its days, keeping the current day and its running total. */
  method CutIntoDays(feed: seq<FeedItem>) returns (groups: seq<DayGroup>)
    requires NewestFirst(feed, FeedKey)
    ensures IsDayGrouping(feed, groups)
  {
    hide IsDayGrouping, AllItems, Sum;
    groups := [];
    NothingGrouped();
    var curKey, curTotal := 0, 0;
    var k := 0;
    while k < |feed|
      invariant 0 <= k <= |feed|
      invariant IsDayGrouping(feed[..k], groups)
      invariant (groups == []) == (k == 0)
      invariant groups != [] ==>
                  curKey == groups[|groups| - 1].day == feed[k - 1].date && curTotal == groups[|groups| - 1].total
    {
      var it := feed[k];
      assert feed[..k + 1] == feed[..k] + [it];
      assert k > 0 ==> !Newer(FeedKey(it), FeedKey(feed[k - 1]));
      ghost var before := groups;
      if |groups| == 0 || it.date != curKey {
        curKey, curTotal := it.date, it.cost;
        groups := groups + [DayGroup(it.date, it.cost, [it])];
        OpenDay(feed[..k], before, it);
      } else {
        curTotal := curTotal + it.cost;
        var last := groups[|groups| - 1];
        groups := groups[..|groups| - 1] + [DayGroup(last.day, curTotal, last.rows + [it])];
        ExtendDay(feed[..k], before, it);
      }
      k := k + 1;
    }
    assert feed[..k] == feed;
  }

  lemma NothingGrouped()
    ensures IsDayGrouping([], [])
  {}

  lemma {:induction false} AllItemsAppend(a: seq<DayGroup>, b: seq<DayGroup>)
    ensures AllItems(a + b) == AllItems(a) + AllItems(b)
  {
    if a == [] {
      assert a + b == b;
    } else {
      assert (a + b)[1..] == a[1..] + b;
      AllItemsAppend(a[1..], b);
    }
  }

  lemma OneDay(g: DayGroup)
    ensures AllItems([g]) == g.rows
  {
    assert [g][1..] == [];
  }

  lemma OpenDay(feed: seq<FeedItem>, groups: seq<DayGroup>, it: FeedItem)
    requires IsDayGrouping(feed, groups)
    requires groups != [] ==> groups[|groups| - 1].day > it.date
    ensures IsDayGrouping(feed + [it], groups + [DayGroup(it.date, it.cost, [it])])
  {
    var g := DayGroup(it.date, it.cost, [it]);
    AllItemsAppend(groups, [g]);
    OneDay(g);
    assert Sum([it], ItemCost) == it.cost;
  }

  lemma ExtendDay(feed: seq<FeedItem>, groups: seq<DayGroup>, it: FeedItem)
    requires IsDayGrouping(feed, groups) && groups != [] && groups[|groups| - 1].day == it.date
    ensures var last := groups[|groups| - 1];
            IsDayGrouping(feed + [it],
                          groups[..|groups| - 1] + [DayGroup(last.day, last.total + it.cost, last.rows + [it])])
  {
    hide Sum, IsDay, AllItems;
    var front, last := groups[..|groups| - 1], groups[|groups| - 1];
    var g := DayGroup(last.day, last.total + it.cost, last.rows + [it]);
    var longer := front + [g];
    assert IsDay(last);
    LongerDay(last, it);
    LongerItems(groups, g, it);
    forall k | 0 <= k < |longer| ensures IsDay(longer[k]) && longer[k].day == groups[k].day {
      assert k < |front| ==> longer[k] == groups[k];
    }
  }

  lemma {:induction false} LongerItems(groups: seq<DayGroup>, g: DayGroup, it: FeedItem)
    requires groups != [] && g.rows == groups[|groups| - 1].rows + [it]
    ensures AllItems(groups[..|groups| - 1] + [g]) == AllItems(groups) + [it]
  {
    hide AllItems;
    SplitLast(groups);
    var longer := groups[..|groups| - 1] + [g];
    SplitLast(longer);
    assert longer[..|longer| - 1] == groups[..|groups| - 1];
  }

  lemma SplitLast(groups: seq<DayGroup>)
    requires groups != []
    ensures AllItems(groups) == AllItems(groups[..|groups| - 1]) + groups[|groups| - 1].rows
  {
    var front, last := groups[..|groups| - 1], groups[|groups| - 1];
    assert groups == front + [last];
    AllItemsAppend(front, [last]);
    OneDay(last);
  }

  lemma LongerDay(g: DayGroup, it: FeedItem)
    requires IsDay(g) && it.date == g.day
    ensures IsDay(DayGroup(g.day, g.total + it.cost, g.rows + [it]))
  {
    SumAppend(g.rows, [it], ItemCost);
    assert Sum([it], ItemCost) == it.cost;
  }

  // ----- The grouping is unique

  /** A feed can be cut into days in one way only. */
  lemma {:induction false} DayGroupingUnique(feed: seq<FeedItem>, a: seq<DayGroup>, b: seq<DayGroup>)
    requires IsDayGrouping(feed, a) && IsDayGrouping(feed, b)
    ensures a == b
    decreases |feed|
  {
    if a == [] {
      NoDays(b);
    } else if b == [] {
      NoDays(a);
    } else {
      assert IsDay(a[0]) && IsDay(b[0]);
      var m, n := |a[0].rows|, |b[0].rows|;
      assert feed[0] == a[0].rows[0] && feed[0] == b[0].rows[0];
      FirstDayEnds(feed, a);
      FirstDayEnds(feed, b);
      assert m == n;
      assert a[0].rows == feed[..m] && b[0].rows == feed[..m];
      RestOfDays(feed, a);
      RestOfDays(feed, b);
      DayGroupingUnique(feed[m..], a[1..], b[1..]);
      assert a == [a[0]] + a[1..] && b == [b[0]] + b[1..];
    }
  }

  lemma NoDays(groups: seq<DayGroup>)
    requires forall k :: 0 <= k < |groups| ==> IsDay(groups[k])
    ensures AllItems(groups) == [] ==> groups == []
  {}

  /** The first day holds exactly the feed's items of its date. */
  lemma FirstDayEnds(feed: seq<FeedItem>, groups: seq<DayGroup>)
    requires IsDayGrouping(feed, groups) && groups != []
    ensures var m := |groups[0].rows|;
            && 0 < m <= |feed|
            && (forall k :: 0 <= k < m ==> feed[k].date == groups[0].day)
            && (m < |feed| ==> feed[m].date != groups[0].day)
  {
    assert IsDay(groups[0]);
    if |groups| > 1 {
      var rest := groups[1..];
      assert rest[0] == groups[1] && IsDay(groups[1]);
      assert feed == groups[0].rows + AllItems(rest);
      assert AllItems(rest) == rest[0].rows + AllItems(rest[1..]);
      assert feed[|groups[0].rows|] == AllItems(rest)[0] == rest[0].rows[0];
    } else {
      assert groups == [groups[0]];
      OneDay(groups[0]);
    }
  }

  lemma RestOfDays(feed: seq<FeedItem>, groups: seq<DayGroup>)
    requires IsDayGrouping(feed, groups) && groups != []
    ensures |groups[0].rows| <= |feed| && IsDayGrouping(feed[|groups[0].rows|..], groups[1..])
  {
    var rest := groups[1..];
    forall k | 0 <= k < |rest| ensures IsDay(rest[k]) { assert rest[k] == groups[k + 1]; }
  }

  /** What the feed shows is determined: whatever stable newest-first arrangement of the rows is cut into
      whole days gives the groups the loop builds. */
  lemma FeedIsUnique(expenses: seq<Expense>, incomes: seq<Income>, forgivenesses: seq<Forgiveness>,
                     out: seq<FeedItem>, groups: seq<DayGroup>, built: seq<DayGroup>)
    requires StablySorted(Unsorted(expenses, incomes, forgivenesses), out, FeedKey)
    requires IsDayGrouping(out, groups)
    requires IsDayGrouping(SortedFeed(expenses, incomes, forgivenesses), built)
    ensures groups == built
  {
    var feed := Unsorted(expenses, incomes, forgivenesses);
    SortIsStable(feed, FeedKey);
    forall k ensures WithKey(out, FeedKey, k) == WithKey(Sort(feed, FeedKey), FeedKey, k) {
      assert WithKey(out, FeedKey, k) == WithKey(feed, FeedKey, k);
    }
    StableSortUnique(out, Sort(feed, FeedKey), FeedKey);
    DayGroupingUnique(out, groups, built);
  }

  /** The groups' rows are a permutation of the rows gathered. */
  lemma GroupsHoldEveryRow(expenses: seq<Expense>, incomes: seq<Income>, forgivenesses: seq<Forgiveness>, groups: seq<DayGroup>)
    requires IsDayGrouping(SortedFeed(expenses, incomes, forgivenesses), groups)
    ensures multiset(AllItems(groups)) == multiset(Unsorted(expenses, incomes, forgivenesses))
  {
    SortContents(Unsorted(expenses, incomes, forgivenesses), FeedKey);
  }

  // ----- Totals

  lemma {:induction false} TotalsAreCosts(groups: seq<DayGroup>)
    requires forall k :: 0 <= k < |groups| ==> IsDay(groups[k])
    ensures Sum(groups, GroupTotal) == Sum(AllItems(groups), ItemCost)
  {
    if groups != [] {
      var rest := groups[1..];
      forall k | 0 <= k < |rest| ensures IsDay(rest[k]) { assert rest[k] == groups[k + 1]; }
      TotalsAreCosts(rest);
      assert IsDay(groups[0]);
      SumAppend(groups[0].rows, AllItems(rest), ItemCost);
    }
  }

  function CostGiven(incomes: seq<Income>): Expense -> int {
    (e: Expense) => ExpenseCost(e, incomes)
  }

  /** All the day totals of a feed together are the costs of its expenses. */
  lemma DayTotalsAreExpenseCosts(expenses: seq<Expense>, incomes: seq<Income>, forgivenesses: seq<Forgiveness>, groups: seq<DayGroup>)
    requires IsDayGrouping(SortedFeed(expenses, incomes, forgivenesses), groups)
    ensures Sum(groups, GroupTotal) == Sum(expenses, CostGiven(incomes))
  {
    hide Filter, Map, Sort;
    var es := Map(expenses, ExpenseItemGiven(incomes));
    var ins := Map(Filter(incomes, IsStandalone), IncomeItem);
    var fs := Map(forgivenesses, ForgivenessItem);
    TotalsAreCosts(groups);
    SortContents(Unsorted(expenses, incomes, forgivenesses), FeedKey);
    SumOfMultiset(SortedFeed(expenses, incomes, forgivenesses), es + ins + fs, ItemCost);
    SumAppend(es + ins, fs, ItemCost);
    SumAppend(es, ins, ItemCost);
    SumOfMap(expenses, ExpenseItemGiven(incomes), ItemCost, CostGiven(incomes));
    SumOfMap(Filter(incomes, IsStandalone), IncomeItem, ItemCost, Nothing<Income>());
    SumZero(Filter(incomes, IsStandalone), Nothing<Income>());
    SumOfMap(forgivenesses, ForgivenessItem, ItemCost, Nothing<Forgiveness>());
    SumZero(forgivenesses, Nothing<Forgiveness>());
  }

  function Nothing<T>(): T -> int {
    (x: T) => 0
  }

  // ----- Totals as shown

  function FormatEuro(minorUnits: nat): string {
    "\U{20AC}" + MoneyText(minorUnits)
  }

  /** A credit carries the minus sign U+2212. */
  function FormatCredit(minorUnits: nat): string {
    "\U{2212}" + FormatEuro(minorUnits)
  }

  function FormatNet(net: int): string {
    if net < 0 then FormatCredit(-net) else FormatEuro(net)
  }

  /** The shown total tells the total: no two of them are written alike. */
  lemma FormatNetIsInjective(a: int, b: int)
    requires FormatNet(a) == FormatNet(b)
    ensures a == b
  {
    hide MoneyText, IsBareNumber, AmountMinorUnits;
    var x, y := if a < 0 then -a else a, if b < 0 then -b else b;
    MoneyTextRoundTrip(x);
    MoneyTextRoundTrip(y);
    NetTextIs(a);
    NetTextIs(b);
  }

  lemma NetTextIs(net: int)
    ensures var s := FormatNet(net);
            |s| >= 2 && (net < 0 <==> s[0] == '\U{2212}') && (if net < 0 then s[2..] == MoneyText(-net) else s[1..] == MoneyText(net))
  {
    hide IsBareNumber, MoneyText;
    MoneyTextIsNotBlank(if net < 0 then -net else net);
  }

  lemma NetsAreWritten()
    ensures FormatNet(1250) == "\U{20AC}12.50" && FormatNet(-1250) == "\U{2212}\U{20AC}12.50" && FormatNet(0) == "\U{20AC}0.00"
  {
    assert Decimal(12) == "12" by { assert Decimal(1) == "1"; }
    assert MoneyText(1250) == "12.50" && MoneyText(0) == "0.00";
  }
}
