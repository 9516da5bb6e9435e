/** The entity shapes of the finance tracker: transactions, catalog
    categories, budgets, the derived summaries, per-user settings and savings
    goals. Amounts are real numbers (the program's `number`); dates are
    calendar dates. */
module Domain {

  import opened Dates

  datatype TxType = Income | Expense

  datatype PaymentMethod = Cash | Credit | BankTransfer | OtherMethod

  /** An income or expense event. `category` refers to a catalog id (or, for
      savings transfers, the literal "saving"). */
  datatype Transaction = Transaction(
    id: string,
    amount: real,
    category: string,
    description: string,
    date: CalendarDate,
    txType: TxType,
    paymentMethod: PaymentMethod)

  datatype Category = Category(id: string, name: string, catType: TxType)

  /** A spending limit for one category. `period` is kept as the text the
      program stores ("daily", "weekly", "monthly", "yearly"), because the
      code that reads it has a branch for any other text. `spent` is derived. */
  datatype Budget = Budget(id: string, category: string, amount: real, spent: real, period: string)

  const DAILY: string := "daily"
  const WEEKLY: string := "weekly"
  const MONTHLY: string := "monthly"
  const YEARLY: string := "yearly"

  predicate IsKnownPeriod(p: string)
  {
    p == DAILY || p == WEEKLY || p == MONTHLY || p == YEARLY
  }

  /** The summary the derivation functions compute. */
  datatype Summary = Summary(
    totalIncome: real,
    totalExpense: real,
    totalSaved: real,
    creditDebt: real,
    cashSpent: real)

  const ZeroSummary: Summary := Summary(0.0, 0.0, 0.0, 0.0, 0.0)

  /** The store's summary, which has no cash figure. */
  datatype FinancialSummary = FinancialSummary(
    totalIncome: real,
    totalExpense: real,
    totalSaved: real,
    creditDebt: real)

  datatype FinancialSettings = FinancialSettings(
    monthlyIncomeGoal: real,
    monthlyExpenseLimit: real,
    monthlySavingsGoal: real,
    currency: string,
    displayName: string)

  /** A savings goal of the store; `category` is a free-text label and
      `color` a presentation tag. */
  datatype SavingsGoal = SavingsGoal(
    id: string,
    name: string,
    targetAmount: real,
    currentAmount: real,
    deadline: string,
    category: string,
    color: string)

  predicate IsIncome(t: Transaction) { t.txType == Income }

  predicate IsExpense(t: Transaction) { t.txType == Expense }

  predicate IsCreditExpense(t: Transaction) { t.txType == Expense && t.paymentMethod == Credit }

  predicate IsCashExpense(t: Transaction) { t.txType == Expense && t.paymentMethod == Cash }

  function AmountOf(t: Transaction): real { t.amount }

  predicate NonnegAmounts(ts: seq<Transaction>)
  {
    forall i :: 0 <= i < |ts| ==> ts[i].amount >= 0.0
  }

  /** The value the program stores in `type`. */
  function TypeName(t: TxType): string
  {
    match t
    case Income => "income"
    case Expense => "expense"
  }

  /** The value the program stores in `paymentMethod`. */
  function MethodName(m: PaymentMethod): string
  {
    match m
    case Cash => "cash"
    case Credit => "credit"
    case BankTransfer => "bankTransfer"
    case OtherMethod => "other"
  }
}
