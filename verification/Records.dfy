/** The stored records: expenses, incomes and forgivenesses. */
module Records {
  import opened Calendar
  import opened Options

  /** The two people the ledger knows; each is also who pays a record. */
  datatype Payer = Javi | Carla

  /** What expenses and incomes share. amount is a positive magnitude in cents; times are opaque instants. */
  datatype Entry = Entry(
    id: int,
    date: Day,
    amount: nat,
    description: string,
    account: Option<string>,
    rawText: string,
    createdAt: int,
    updatedAt: int)

  datatype Expense = Expense(base: Entry, shared: bool, paidBy: Payer, settlement: bool)

  datatype Income = Income(base: Entry, linked: Option<int>, settlement: bool)

  datatype Forgiveness = Forgiveness(id: int, date: Day, amount: nat, createdAt: int)

  /** An entry as a submission builds it: identity and times are left to the store. */
  function NewEntry(date: Day, amount: nat, description: string, account: Option<string>, rawText: string): Entry {
    Entry(0, date, amount, description, account, rawText, 0, 0)
  }

  function NewExpense(date: Day, amount: nat, description: string, account: Option<string>, shared: bool, rawText: string): Expense {
    Expense(NewEntry(date, amount, description, account, rawText), shared, Javi, false)
  }

  function NewIncome(date: Day, amount: nat, description: string, account: Option<string>, linked: Option<int>, rawText: string): Income {
    Income(NewEntry(date, amount, description, account, rawText), linked, false)
  }
}
