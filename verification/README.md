# The ledger, verified

A two-person expense ledger keeps one line of free text per record. Javi and Carla type lines such
as `12.50 pizza 14/07 @joint`; the ledger parses them, stores expenses and incomes, nets paybacks
against the expenses they pay back, shows two tabs (the ordinary one, which is Javi's alone, and the
Shared one), and derives from the Shared records who owes whom. This project models that domain in
Dafny and proves what its parts promise each other. Check everything with `dafny verify dfyconfig.toml`.

## The modules

- `Text`, `Amounts`, `Calendar`: white-space fields, decimal numerals, cents with half-up rounding,
  and the proleptic Gregorian calendar of ISO 8601 with carrying months and days.
- `Parsing`: the entry-line language. The scan over the tokens is a loop; `Meaning` says, without a
  scan, what a line means; the loop is proved equal to it.
- `Canonical`: the line a record is written back to, and the exact days on which its year-less date
  still names the same day.
- `Intents`: what a user is doing with a line, which record it may become, and the round trip through
  the edit box.
- `Records`, `Tables`, `Store`: records, the three tables as values, and the store that changes them
  in place. Every store method is tied to the table function it carries out.
- `Balance`: the Shared balance in doubled cents, with its three loops.
- `Ledger`, `Server`: the ledger as a state machine over requests, its inductive invariant, and the
  handlers, each proved to make the ledger's transition over a store.
- `BalanceSteps`, `SettleUp`: how each request moves the balance; runs of settle-ups; forgiving.
- `Feed`, `Tabs`: the day-grouped feed, the two tabs, and their conservation and agreement.
- `Scope`: what Carla can reach and what her requests leave alone.
- `RateLimiter`: the login rate limiter with its lazy sweep.
- `Slug`: slugs and branch names derived from issue titles.
- `Sequences`, `Options`: selections, sums and the stable sort the rest shares.

## Where the code and its comments part

The model follows the code.

- A `DD/MM` date is described as the most recent occurrence up to today, and `DD/MM/YYYY` as the only
  way to name the future (`internal/expense/parse.go:270-277`). Neither holds of all input.
  `Canonical.DayMonthIsMostRecent` says exactly when the first does: the day and month are in the
  calendar, and they are not 29 February unless this is a leap year whose 29 February has come. So
  `29/2` read on 1 May 2023 is 1 March 2023 (`Canonical.LeapDayIsMisread`), and out-of-range days and
  months carry over, so `1/25` always names a day of next year (`Canonical.TwentyFifthMonthIsAhead`).
  `Canonical.DayMonthIsNotAhead` says exactly when such a date stays at or before today.
- `Editable` is described as the boundary inside which a date reads back to itself
  (`internal/expense/expense.go:171-180`). The two differ exactly on future days, on last year's
  29 February until the end of February, and on 1 March a year before a 29 February
  (`Canonical.EditableIsDriftBoundary`, with an input for each in `Canonical.TomorrowDrifts`,
  `Canonical.LeapDayDrifts` and `Canonical.MarchFirstSurvives`). `Canonical.DriftBoundary` is the exact
  condition for reading back.
- Only the page hides the payback button on a settlement (`web/templates/home.html:262`); the server
  accepts one (`internal/server/server.go:555-568`). Such an income is listed in the ordinary tab
  (`Scope.PaybackOfSettlementReachesOrdinaryTab` has the two requests). A request of Carla's leaves that
  tab alone exactly when it neither posts a valid income line against a settlement nor deletes a
  settlement with paybacks (`Scope.CarlaKeepsOrdinaryTab`), and always in runs that never post such a
  line (`Scope.CarlaNeverTouchesOrdinaryTab`).

## Main results

The text round trip (`Intents.SubmittedRoundTrip`) with its day boundary (`Canonical.DriftBoundary`,
`Canonical.DayMonthIsMostRecent`); the loop against its meaning (`Parsing.Parse`,
`Parsing.FirstAmountIsTaken`, `Parsing.DateAndAccountRead`, `Parsing.DatesAndAccountsFloat`); the invariant of every run (`Ledger.EveryRunIsGood`) and what each
request does (`Ledger.AddFrame`, `Ledger.ExpenseEditFills`, `Ledger.IncomeEditFills`); how each moves the
balance (`BalanceSteps.StepMovesBalance`); settle-up runs (`SettleUp.OddSettleUpsAlternate`) and forgiving
(`SettleUp.ForgiveLowersBalance`); the feed (`Feed.GroupByDay`, `Feed.FeedIsUnique`) and the conservation of spending
through the tabs (`Tabs.LedgerConservesSpending`); Carla's scope (`Scope.CarlaKeepsOrdinaryTab`); the
invisible sweep and the real-time bound (`RateLimiter.SweepIsInvisible`,
`RateLimiter.FewerThanTwiceMax`); idempotent slugs and distinct branches (`Slug.SlugIsIdempotent`,
`Slug.BranchesAreDistinct`).

The rows of `Store` and `Server` only tie the objects changed in place to the table and ledger
functions; what those functions promise is in the lemmas about them.

## Model

| member | source | states |
|---|---|---|
| Text.FieldsOfJoin | internal/expense/parse.go:136-217 | splitting a line into fields undoes joining tokens with one space |
| Text.FieldsOfSeparated | internal/expense/parse.go:145 | any white-space character between two texts keeps their tokens apart |
| Text.SpacesAre | internal/expense/parse.go:145 | the characters that count as white space |
| Text.JoinAppend | internal/expense/parse.go:202 | description tokens are joined by exactly one space |
| Text.ValueOfDecimal | internal/expense/parse.go:234-248 | the number a printed numeral denotes is the number printed |
| Text.DecimalOfValue | internal/expense/expense.go:188-193 | a numeral without leading zeros is the one printed for its number |
| Text.DigitsRead | internal/expense/parse.go:234-248 | each digit appended to a numeral multiplies it by ten and adds the digit's worth |
| Amounts.AmountIsRoundedHalfUp | internal/expense/parse.go:234-248 | for any number k of fractional digits and all digits read as V, the cents are floor((200 V + 10^k) / (2 * 10^k)): the nearest cent, halves up |
| Amounts.NumbersRead | internal/expense/parse.go:254-268 | digits, and digits on both sides of a dot or a comma, are numbers; the two separators give the same cents, by the formula over the digits |
| Amounts.NumberParts | internal/expense/parse.go:103-107 | nothing else is a number |
| Amounts.RefusedAmountIsZero | internal/expense/parse.go:254-259 | what is refused comes with a zero amount |
| Amounts.FormatAmountRoundTrip | internal/expense/expense.go:188-193 | the written form of every amount is a bare number that reads back to it |
| Amounts.MoneyTextRoundTrip | internal/server/view.go:109-114 | euros with two decimals, as the settle-up and forgive boxes are prefilled, read back exactly |
| Amounts.AmountsAreWritten | internal/expense/expense.go:188-193 | whole euros are written bare and others with a dot and exactly two decimals |
| Calendar.CivilOfDate | internal/expense/parse.go:283-291 | writing out the day a valid year, month and day name gives them back, in the proleptic Gregorian calendar |
| Calendar.DateOrder | internal/expense/parse.go:292-295 | day numbers are ordered exactly as the dates are written |
| Calendar.LeapDayCarries | internal/expense/parse.go:292-295 | 29 February of a common year is 1 March |
| Calendar.MonthLengths | internal/expense/parse.go:283-291 | every month of every year has its Gregorian length |
| Calendar.DatesCarry | internal/expense/parse.go:283-291 | out-of-range months carry over into years and days into months |
| Calendar.UnixEpoch | internal/expense/parse.go:283-291 | days are counted so that 1 January 1970 is day 719162 |
| Parsing.Parse | internal/expense/parse.go:135-220 | the token loop computes the scan-free meaning: amount is the first positive number-shaped token, dates and accounts are picked out wherever they stand, the remaining text in order is the description, the date is today unless a token names one, and the gate errors come in their fixed order |
| Parsing.ScanToken | internal/expense/parse.go:145-192 | the first case of the loop body that takes a token changes the scan just as the token changes the meaning of the line |
| Parsing.CollectErrors | internal/expense/parse.go:204-217 | exactly the save-gate violations, in order |
| Parsing.EveryTokenIsConsumedOnce | internal/expense/parse.go:145-192 | amount, dates, accounts and description tokens together are the line's tokens as a multiset |
| Parsing.DatesAndAccountsFloat | internal/expense/parse.go:145-192 | lines whose text, dates and accounts agree, each class in its own order, mean the same however the classes interleave |
| Parsing.NumbersAreText | internal/expense/parse.go:103-121 | no number-shaped token is also a date or an account |
| Parsing.LeadingAmount | internal/expense/parse.go:145-217 | a line that opens with an amount token has that amount and kind, and passes the gates exactly when the rest holds some text, at most one date and at most one account |
| Parsing.DateAndAccountRead | internal/expense/parse.go:185-200 | a line that names no date is dated today, otherwise as its first date token; its account is its first @ token without the @, or blank |
| Parsing.FirstAmountIsTaken | internal/expense/parse.go:145-181 | the first token that can be an amount decides amount and kind and is the one token left out of the text that describes |
| Parsing.NoAmountIsTaken | internal/expense/parse.go:145-202 | a line without such a token has no amount and no kind, and all its text describes |
| Parsing.GateErrorsRead | internal/expense/parse.go:204-217 | which gate errors a line has, each once and in the fixed order |
| Parsing.DayMonthShape | internal/expense/parse.go:118 | character by character, what DD/MM matches, leading zeros included |
| Parsing.DayMonthYearShape | internal/expense/parse.go:120 | character by character, what DD/MM/YYYY matches |
| Parsing.PrefixedShapes | internal/expense/parse.go:107-121 | what -N, @account and the two sigils match, and that a sigil keeps the number's cents |
| Canonical.FullDateReads | internal/expense/parse.go:283-288 | a day written DD/MM/YYYY reads back to itself on any day |
| Canonical.FullDateIs | internal/expense/parse.go:283-288 | any one or two digits, slash, one or two digits, slash, four digits read as that day, month and year |
| Canonical.DigitsSlashDigits | internal/expense/parse.go:289-296 | any one or two digits, slash, one or two digits read as that day and month without a year |
| Canonical.RelativeDateReads | internal/expense/parse.go:279-282 | a minus sign before any digits reads as that many days before today |
| Canonical.DriftBoundary | internal/expense/parse.go:278-297 | a day's DD/MM reads back to it if and only if it is not after today and either it is editable and not last year's 29 February, or today is 29 February and it is last year's 1 March |
| Canonical.RedatedIsRecent | internal/expense/parse.go:289-296 | a real day's DD/MM never reads as the future nor as before last year |
| Canonical.DayMonthIsMostRecent | internal/expense/parse.go:270-296 | for all days and months: DD/MM resolves to the most recent occurrence up to today if and only if the day and month are in the calendar and either are not 29 February or this leap year's 29 February has come |
| Canonical.LeapDayIsMisread | internal/expense/parse.go:270-296 | the concrete input in the calendar on which that promise fails: 29/2 read on 1 May 2023 is 1 March 2023 |
| Canonical.DayMonthIsNotAhead | internal/expense/parse.go:289-296 | for all days and months, real or carried over: exactly when DD/MM resolves to today or before |
| Canonical.TwentyFifthMonthIsAhead | internal/expense/parse.go:270-296 | the concrete input out of the calendar: 1/25 is always in the future |
| Canonical.EditableDateSurvives | internal/expense/expense.go:181-183 | an editable record's date survives re-parsing unless it is ahead of today or last year's 29 February |
| Canonical.EditableIsDriftBoundary | internal/expense/expense.go:171-183 | being editable and reading back to the same day agree if and only if the day is not ahead, not last year's 29 February up to the end of February, and not 1 March a year before today's 29 February |
| Canonical.FutureDaysDrift | internal/expense/expense.go:171-183 | every future day is editable and reads back as an earlier one |
| Canonical.TomorrowDrifts | internal/expense/expense.go:171-183 | an input of the first kind, which a line can name in full |
| Canonical.LeapDayDrifts | internal/expense/expense.go:171-183 | an input of the second kind: 29 February 2024 on 15 January 2025 |
| Canonical.MarchFirstSurvives | internal/expense/expense.go:171-183 | an input of the third kind: 1 March 2023 on 29 February 2024 is not editable and reads back |
| Canonical.CanonicalMeaning | internal/expense/expense.go:131-170 | parsing a storable record's own line gives back its amount, sigil, description and account without errors, and its date as DD/MM reads |
| Canonical.LineIs | internal/expense/expense.go:148-170 | the written line: amount, description, day/month without leading zeros, and @account when there is one, one space apart |
| Intents.SubmitLine | internal/expense/intent.go:162-209 | submitting runs the parse and the kind rules, and nothing else |
| Intents.SubmitFills | internal/expense/intent.go:162-209 | a submission succeeds exactly when the line passes the parser's gates under a sigil the intent allows; the record then takes its columns from the line and the rest from the intent, a settlement being Javi's unshared expense or Carla's unlinked income |
| Intents.SubmissionErrors | internal/expense/intent.go:162-180 | a submission reports the line's own errors and then at most one more, the one its place or its record calls for |
| Intents.SubmitIsGood | internal/expense/intent.go:162-209 | whatever a good intent lets through is a good record of the intent's identity, kind and link |
| Intents.IntentsAreGood | internal/expense/intent.go:44-111 | every intent constructor applied to good records gives a good intent |
| Intents.ExpenseRoundTrip | internal/expense/intent.go:85-93 | submitting an editable expense's own line under its own edit intent gives the same expense, its date re-read and its text refreshed |
| Intents.IncomeRoundTrip | internal/expense/intent.go:101-111 | the same for incomes, paybacks and settlements received, whatever tab they are edited from |
| Intents.SubmittedRoundTrip | internal/expense/expense.go:131-170 | for every record any submission produces: its own line is accepted again, and every field comes back if and only if it is not dated ahead nor on last year's 29 February |
| Store.Store.constructor | internal/store/store.go:70-101 | a new store holds three empty tables |
| Store.Store.Create | internal/store/crud.go:31-49 | one new expense row under an unused id, stamped; nothing else changes |
| Store.Store.Get | internal/store/crud.go:77-87 | the row under an id, or none |
| Store.Store.List | internal/store/crud.go:54-74 | the expenses, newest first |
| Store.Store.Update | internal/store/crud.go:93-113 | overwrites one row but its id and creation time, or reports it missing |
| Store.Store.Delete | internal/store/crud.go:117-130 | removes one expense and, by the cascade, exactly the incomes linked to it |
| Store.Store.CreateIncome | internal/store/income.go:22-40 | one new income row, unless its amount is zero or its parent does not exist |
| Store.Store.GetIncome | internal/store/income.go:70-81 | the income under an id, or none |
| Store.Store.ListIncomeRows | internal/store/income.go:46-66 | the incomes, newest first |
| Store.Store.UpdateIncome | internal/store/income.go:88-108 | overwrites one income but its id, creation time and parent link, whatever the passed record carries |
| Store.Store.DeleteIncome | internal/store/income.go:113-126 | removes one income and nothing else |
| Store.Store.CreateForgiveness | internal/store/forgiveness.go:14-29 | one new forgiveness row, stamped |
| Store.Store.ListForgivenessRows | internal/store/forgiveness.go:33-53 | the forgivenesses, newest first |
| Store.Store.DeleteForgiveness | internal/store/forgiveness.go:57-70 | removes one forgiveness and nothing else |
| Tables.ListsAreNewestFirst | internal/store/crud.go:51-74 | every table is listed by date descending and, within a day, by id descending |
| Tables.ListsHoldEveryRow | internal/store/crud.go:51-74 | every listing holds exactly the rows of its table |
| Tables.InsertsAddOneRow | internal/store/crud.go:31-49 | an insert adds one stamped row under the id after the highest, unless the amount check or the foreign key refuses it |
| Tables.ReplacesTouchOneRow | internal/store/income.go:88-108 | an update changes the row it names only, keeps its creation time and an income's parent, and reports a missing row |
| Tables.RemovesTakeOneRow | internal/store/crud.go:115-130 | a delete takes the row it names, with an expense every income linked to it, leaves the rest and reports a missing row |
| Tables.AllRowsMembers | internal/store/crud.go:54-74 | a listing holds exactly the table's rows |
| Tables.NextId | internal/store/migrations/00001_create_expense.sql:6 | a new row's id is positive and above every id in use |
| Balance.SumPaybacks | internal/expense/balance.go:25-31 | the payback map holds, for every expense id, the sum of the incomes linked to it |
| Balance.SharedBalance | internal/expense/balance.go:24-73 | the three loops compute the rounded, forgiven sum of every record's signed share |
| Balance.BalanceIsOutlayDifference | internal/expense/balance.go:33-51 | the doubled balance is how much more Carla has laid out than Javi, net costs and settlements counted |
| Balance.OneSharedExpense | internal/expense/balance.go:33-72 | a single shared expense makes the other user owe its payer half its net cost, or be owed it when over-repaid |
| Balance.RoundedIsNearest | internal/expense/balance.go:53-60 | an even doubled balance is halved exactly, an odd one away from zero |
| Balance.BalanceIgnoresOrder | internal/expense/balance.go:24-73 | the balance depends only on the multisets of records |
| Balance.MirrorSwapsDebtor | internal/expense/balance.go:24-73 | with nothing forgiven, mirroring the users' roles swaps the debtor and keeps the amount |
| Ledger.AddFrame | internal/server/server.go:379-416 | exactly which add requests conflict, are refused or are saved, and the one row a saved one inserts |
| Ledger.ExpenseLoads | internal/server/server.go:496-505 | Javi loads every stored expense, Carla exactly the shared ones and settlements, as stored |
| Ledger.IncomeLoads | internal/server/server.go:510-527 | in a good ledger Javi loads every stored income, Carla exactly settlements and paybacks of shared expenses, as stored and with their tab |
| Ledger.AddTargets | internal/server/server.go:531-568 | exactly when an add is a payback or has no parent to go to, whom a plain add is for, and the tab each belongs to |
| Ledger.EditTargets | internal/server/server.go:471-492 | exactly which edits are unknown or too old, and of the others the record's own identity, tab and line |
| Ledger.ExpenseEditFills | internal/server/server.go:609-642 | exactly which expense edits are missing, forbidden, refused or saved; a saved one rewrites what a line fills in that row and nothing else |
| Ledger.IncomeEditFills | internal/server/server.go:609-642 | the same for incomes, which keep their parent |
| Ledger.EditFrame | internal/server/server.go:622-638 | in every good ledger a saved edit writes exactly the record named by kind and id, never the other table's row of that number, and keeps kind, creation time, payer, flags and link |
| Ledger.StepKeepsInvariant | internal/server/server.go:379-687 | every request keeps the invariant, and no constraint of the schema ever refuses one |
| Ledger.RunKeepsInvariant | internal/server/server.go:379-687 | so does every run of requests |
| Ledger.EveryRunIsGood | internal/server/server.go:379-687 | every ledger reachable from the empty one is good: amounts positive, links alive, settlements unshared and Javi's or unlinked, ordinary expenses Javi's, descriptions and accounts made of tokens that re-parse as such |
| Ledger.ReachableRecords | internal/server/server.go:379-687 | the same column by column, without the invariant's name |
| Ledger.RunAppends | internal/server/server.go:379-687 | a run after a run is the run of both |
| Ledger.RunOfOne | internal/server/server.go:379-687 | a run of one request leaves what that request leaves |
| Ledger.UntouchedExpenseEdit | internal/server/server.go:471-492 | saving the offered line untouched is always accepted and keeps the whole record but text and update time, if and only if the date is not ahead nor last year's 29 February |
| Ledger.UntouchedIncomeEdit | internal/server/server.go:471-492 | the same for incomes |
| Ledger.NewForgiveness | internal/server/forgive.go:68-99 | what is granted is positive, within the balance Carla owes, and not dated ahead |
| Server.Server.LoadExpense | internal/server/server.go:496-505 | the ledger's scope check over the store: for Javi every stored expense, for Carla the shared ones and settlements |
| Server.Server.LoadIncome | internal/server/server.go:510-527 | the same for incomes, with the tab the income belongs to |
| Server.Server.AddIntent | internal/server/server.go:555-568 | the ledger's choice of intent, or none when the parent is gone |
| Server.Server.EditIntent | internal/server/server.go:471-492 | the ledger's edit intent and canonical line |
| Server.Server.HandleAdd | internal/server/server.go:379-416 | the handler makes the ledger's transition and answers as it does |
| Server.Server.HandleEditSave | internal/server/server.go:609-642 | the handler makes the ledger's transition and answers as it does |
| Server.Server.HandleDelete | internal/server/server.go:648-687 | the handler makes the ledger's transition and answers as it does |
| Server.Server.HandleForgive | internal/server/forgive.go:20-64 | the handler, with the balance the loops compute, makes the ledger's transition |
| Server.Server.HandleDeleteForgiveness | internal/server/forgive.go:104-117 | the handler makes the ledger's transition and answers as it does |
| Server.Server.Serve | internal/server/server.go:379-687 | any request over a good store leaves a good store and never fails on a constraint |
| BalanceSteps.DoubledByRecord | internal/expense/balance.go:24-51 | in a good ledger the doubled balance is a sum over records, paybacks counted where they are stored rather than where they are netted |
| BalanceSteps.RemoveExpenseMoves | internal/store/crud.go:117-130 | deleting an expense with its cascade moves the doubled balance by exactly its signed net cost |
| BalanceSteps.StepMovesBalance | internal/server/server.go:379-687 | every request moves the doubled balance by exactly the signed contribution of what it adds, changes or deletes |
| BalanceSteps.OrdinaryStepsKeepBalance | internal/server/server.go:379-687 | requests on records outside the Shared tab leave it unchanged |
| SettleUp.SettleUpIsSaved | internal/server/view.go:109-111 | the prefilled settlement with the debtor's words behind it is saved exactly when the words complete the line |
| SettleUp.SettleUpPays | internal/server/view.go:109-111 | a saved settle-up moves the doubled balance by twice what was displayed, towards zero |
| SettleUp.SettleUpLeavesACent | internal/expense/balance.go:33-72 | at most one cent is left, and none exactly when the doubled balance was even, or it was negative and something had been forgiven |
| SettleUp.OddSettleUpsAlternate | internal/expense/balance.go:52-72 | with nothing forgiven and an odd doubled balance, every run of settle-ups leaves one cent whose debtor alternates, never zero |
| SettleUp.OddSettleUpsGoOn | internal/expense/balance.go:52-72 | from such a ledger there are such runs of every length |
| SettleUp.OneCentIsOdd | internal/expense/balance.go:33-72 | one shared cent makes such a ledger |
| SettleUp.ForgiveAmountReads | internal/server/view.go:112-114 | the prefilled amount parses back to the whole balance |
| SettleUp.PrefillsAreWritten | internal/server/view.go:109-114 | the prefilled texts, character by character, on sample balances |
| SettleUp.ForgiveLowersBalance | internal/server/forgive.go:20-64 | an accepted amount lowers the balance by exactly itself without flipping the debtor, and deleting it restores the ledger as it was |
| SettleUp.TakingBackRestoresDebt | internal/server/forgive.go:104-117 | only Javi takes a forgiveness back; its row alone goes and what Javi owes falls by its amount, so Carla owes it again |
| SettleUp.ForgivingAllLeavesEven | internal/server/view.go:112-114 | forgiving the prefilled amount leaves the two even, odd cents included |
| Feed.BucketIncomes | internal/server/view.go:517-528 | the map holds each expense's paybacks in order, the rest are the standalone incomes in order |
| Feed.SubtractPaybacks | internal/server/view.go:533-539 | the net cost is the amount less the sum of the paybacks |
| Feed.GatherFeed | internal/server/view.go:341-438 | every expense under its paybacks, every standalone income and every forgiveness becomes one row |
| Feed.GroupByDay | internal/server/view.go:341-469 | the groups' rows are the stably sorted feed, group days strictly decrease, each group is one non-empty day, each total is the sum of its rows' costs; within a day creation times never rise, and the rows of one day and creation time are its expenses under their paybacks, then its standalone incomes, then its forgivenesses, each as listed |
| Feed.GroupsShowDays | internal/server/view.go:341-469 | the same of whatever way the sorted feed is cut into days, from the records alone |
| Feed.CutIntoDays | internal/server/view.go:450-469 | the loop with its current day and running total cuts a newest-first feed into such groups |
| Feed.DayGroupingUnique | internal/server/view.go:450-469 | a feed can be cut into days in one way only |
| Feed.FeedIsUnique | internal/server/view.go:341-469 | any stable newest-first arrangement of the rows cut into days is what is shown |
| Feed.GroupsHoldEveryRow | internal/server/view.go:341-469 | the groups' rows are a permutation of everything gathered |
| Feed.DayTotalsAreExpenseCosts | internal/server/view.go:341-469 | the day totals together are the costs of the expenses listed |
| Feed.FormatNetIsInjective | internal/server/view.go:542-562 | no two totals are written alike, credits included |
| Feed.NetsAreWritten | internal/server/view.go:542-562 | how sample totals are written, credits included |
| Sequences.StableSortUnique | internal/server/view.go:440-448 | newest first and stable determine the order of the rows completely |
| Sequences.SortIsStable | internal/server/view.go:440-448 | the sort is newest first and keeps the order of rows of equal date and creation time |
| Tabs.TabRecords | internal/server/view.go:484-509 | each tab lists, in order, exactly the records that belong to it |
| Tabs.TabsList | internal/server/view.go:484-512 | in a good ledger the Shared tab lists exactly shared expenses, settlements and paybacks of shared expenses, the ordinary tab the rest |
| Tabs.TabsShareOutRecords | internal/server/view.go:484-509 | the two tabs together hold every record exactly as often as it is stored |
| Tabs.ListsAreGood | internal/store/crud.go:54-74 | every reachable ledger lists distinct ids, unshared settlements, unlinked settlement incomes, and exactly its rows |
| Tabs.TabsConserveSpending | internal/server/view.go:484-539 | the day totals of both tabs sum to all non-settlement expenses less all paybacks linked to them |
| Tabs.LedgerConservesSpending | internal/server/view.go:341-539 | the same of every good ledger and whatever groups its tabs show |
| Tabs.BalanceNeedsOnlySharedTab | internal/server/view.go:484-509 | the balance over what the Shared tab lists is the balance over everything |
| Tabs.BalanceIsHalfOfShownNets | internal/server/view.go:517-539 | the doubled balance is the signed sum of the net costs the Shared tab's rows show, with the settlements |
| Scope.CarlaLoadsListedExpenses | internal/server/server.go:496-505 | Carla can load an expense exactly when the Shared tab lists it |
| Scope.CarlaLoadsListedIncomes | internal/server/server.go:510-527 | Carla can load an income exactly when the Shared tab lists it |
| Scope.CarlaKeepsOrdinaryTab | internal/server/server.go:555-687 | a request of Carla's, cascades included, leaves the ordinary tab as it was if and only if it neither posts an income line that passes the parser's gates against a settlement nor deletes a settlement that has paybacks |
| Scope.PaybackOfSettlementReachesOrdinaryTab | internal/server/server.go:555-568 | the concrete run on which it does not: from an empty ledger, Javi's =10 x and Carla's +5 y against it |
| Scope.CarlaNeverTouchesOrdinaryTab | internal/server/server.go:555-687 | in every run that posts no payback of a settlement, no request of Carla's changes the ordinary tab |
| Scope.NewExpenseHasNoPaybacks | internal/store/crud.go:31-49 | a new expense, even under a reused id, starts with no paybacks |
| Scope.HighestIdIsReused | internal/store/migrations/00001_create_expense.sql:6 | after deleting the highest id, the next expense takes it again if and only if it is 1 or the id before it is in use |
| RateLimiter.Limiter.constructor | internal/auth/ratelimit.go:38-45 | a new limiter remembers no attempts |
| RateLimiter.Limiter.Sweep | internal/auth/ratelimit.go:54-61 | in whatever order the keys are visited, exactly the elapsed windows go |
| RateLimiter.Limiter.Allow | internal/auth/ratelimit.go:50-73 | the call leaves the map and gives the answer of one attempt |
| RateLimiter.SweepIsInvisible | internal/auth/ratelimit.go:50-73 | along any interleaved trace with a clock that never runs back, one key is told what a limiter with no sweep that sees only its attempts would tell it |
| RateLimiter.WindowPermitsFirstMax | internal/auth/ratelimit.go:47-72 | of the attempts within a window exactly the first max are permitted, and the first one always |
| RateLimiter.WindowsAreIndependent | internal/auth/ratelimit.go:62-67 | the first attempt past a window starts over as if nothing had been tried |
| RateLimiter.FewerThanTwiceMax | internal/auth/ratelimit.go:50-73 | any closed interval no longer than the window admits at most 2 * max - 1 attempts of one key |
| RateLimiter.BoundIsReached | internal/auth/ratelimit.go:50-73 | for every max and window of at least 1, a burst of one key that meets that bound |
| RateLimiter.MapStaysSmall | internal/auth/ratelimit.go:31-61 | after every call the map holds at most 1024 keys or nothing but unexpired ones, if and only if the window is not negative, or the sweep was not due, or left room or the key; in any case never more than one expired key above 1024 |
| RateLimiter.SweepsWhenFull | internal/auth/ratelimit.go:54-61 | below 1024 keys a call leaves every other key alone, from 1024 on it drops exactly the elapsed ones |
| Slug.MakeSlug | internal/afk/dispatch.go:248-266 | the loop with its pending hyphen computes the title's words under single hyphens: its letters and digits are the lower-cased title's in order, and past 50 characters it is cut without a trailing hyphen |
| Slug.SlugIsSlug | internal/afk/dispatch.go:248-266 | only [a-z0-9-], at most 50 long, no hyphen at either end and no two in a row |
| Slug.UncutKeepsLetters | internal/afk/dispatch.go:248-262 | the letters and digits of the slug before it is cut are those of the lower-cased title, in order |
| Slug.UncutBreaks | internal/afk/dispatch.go:251-262 | any other character breaks a title into two slugs under one hyphen |
| Slug.UncutWord | internal/afk/dispatch.go:251-262 | a title of letters and digits alone is its own slug, lower-cased |
| Slug.SlugIsCut | internal/afk/dispatch.go:241-266 | a slug of at most 50 characters is whole, a longer one its first 50 less a hyphen left at the end |
| Slug.BranchesAreWritten | internal/afk/dispatch.go:233-238 | the branches of two sample issues, one without words |
| Slug.SlugIsIdempotent | internal/afk/dispatch.go:248-266 | a slug is its own slug, cut or not |
| Slug.BranchesAreDistinct | internal/afk/dispatch.go:233-238 | different issue numbers never share a branch, whatever the titles |

## Left out

- HTTP routing, form decoding, redirects, templates, htmx, status texts, previews, labels and the words of the balance line: presentation. A request carries its user, its line, the posted parent id when it is a number, and today.
- Each request is one atomic step on one day. Two requests interleaving between a load and a write, or midnight passing within a request, are not modelled; the store functions still answer a vanished parent or row with an error.
- Failures of the database itself, its migrations, connection pool and the text form of dates and times: tables are maps, days are integers. A year outside 0-9999 would not read back from the stored text.
- Row ids: the next id is one above the highest in use. SQLite's behaviour at the largest 64-bit id is not modelled.
- Store.Store.Create: returns the stamped record as a value instead of stamping the one passed in; the same holds of the other inserts. The blank payer the column writer replaces by Javi cannot be expressed, as a payer is Javi or Carla.
- 64-bit overflow and the ignored errors of Atoi: integers are unbounded, so lines with twenty-digit amounts or offsets mean here what they say.
- Characters are code points: bytes that are not valid UTF-8 are not modelled, and lower-casing maps one character to one. Slug.SlugIsIdempotent asks of it only that it keeps lower-case ASCII letters, digits and hyphens.
- Time zones and clock fields: a date is a day of one calendar, creation times and rate-limit times are integers. The mismatch of UTC and Madrid days around midnight noted in `internal/expense/submit_test.go:274-275` lies outside the model.
- Authentication: passwords, cookies, client addresses and the fallback that decides who a request comes from. The user is an input.
- The rate limiter's mutex: attempts come one at a time. RateLimiter.Limiter takes the time as an argument.
- RateLimiter.BoundIsReached: needs a window of at least one tick of the clock; at a window of zero ticks no two instants fit in it.
- The forgive form's date text: it is already blank, malformed or a day.
- The parent's description an intent carries for its banner, and display strings of rows (accounts, relative days).
- `Decide`, skill selection, the branch line in an issue body and parent references: case analysis around an external tool.
- Amounts are natural numbers: the parser never yields a negative one, and the schema admits none for incomes and forgivenesses.
