/** The state of `src/hooks/useFinancialOperations.ts` as a record with pure
    transitions: transactions, budgets, settings and savings goals, the
    memoised summary, and the operations the hook returns. The clock, the
    random colour pick and storage are parameters. */
module Store {

  import opened Collections
  import opened Dates
  import opened Domain
  import opened FinanceUtils
  import opened UserService

  datatype StoreState = StoreState(
    transactions: seq<Transaction>,
    budgets: seq<Budget>,
    settings: FinancialSettings,
    savingsGoals: seq<SavingsGoal>)

  /** The name used when the current user has no display name ("user"). */
  const DefaultDisplayName: string := "משתמש"

  /** The settings a store starts with. */
  function DefaultSettings(displayName: string): (r: FinancialSettings)
    ensures r.monthlyIncomeGoal == 8000.0 && r.monthlyExpenseLimit == 6000.0
    ensures r.monthlySavingsGoal == 2000.0 && r.currency == "ILS"
    ensures r.monthlyIncomeGoal - r.monthlyExpenseLimit == r.monthlySavingsGoal
  {
    FinancialSettings(8000.0, 6000.0, 2000.0, "ILS", displayName)
  }

  /** The two goals every store starts with. */
  const DefaultGoals: seq<SavingsGoal> := [
    SavingsGoal("1", "נסיעה לחו״ל", 15000.0, 8500.0, "2024-12-31", "נסיעות", "from-blue-500 to-cyan-500"),
    SavingsGoal("2", "קרן חירום", 25000.0, 12000.0, "2024-08-30", "ביטחון", "from-green-500 to-emerald-500")
  ]

  /** `currentUser?.displayName || 'משתמש'`: an empty name counts as missing. */
  function DisplayNameFor(cur: Option<User>): (r: string)
    ensures r != []
    ensures cur.Some? && cur.value.displayName != [] ==> r == cur.value.displayName
    ensures !(cur.Some? && cur.value.displayName != []) ==> r == DefaultDisplayName
  {
    if cur.Some? && cur.value.displayName != [] then cur.value.displayName else DefaultDisplayName
  }

  /** The data the hook starts from: the current user's slot, or nothing. */
  function LoadedData(s: Storage): (d: UserData)
    ensures GetCurrentUser(s).None? ==> d == EmptyUserData
    ensures GetCurrentUser(s).Some? ==> d == GetUserData(s, GetCurrentUser(s).value.id)
  {
    match GetCurrentUser(s)
    case Some(u) => GetUserData(s, u.id)
    case None => EmptyUserData
  }

  /** The hook's initial state as written: transactions and budgets come
      from the current user's slot, but settings always start from the
      defaults, whatever the slot holds. */
  function InitialStore(s: Storage): (st: StoreState)
    ensures st.transactions == LoadedData(s).transactions
    ensures st.budgets == LoadedData(s).budgets
    ensures st.settings == DefaultSettings(DisplayNameFor(GetCurrentUser(s)))
    ensures st.savingsGoals == DefaultGoals
  {
    var d := LoadedData(s);
    StoreState(d.transactions, d.budgets, DefaultSettings(DisplayNameFor(GetCurrentUser(s))), DefaultGoals)
  }

  /** The initial state with persisted settings read back when the slot has
      them. */
  function InitialStoreRestoring(s: Storage): (st: StoreState)
    ensures st.transactions == InitialStore(s).transactions
    ensures st.budgets == InitialStore(s).budgets
    ensures st.savingsGoals == InitialStore(s).savingsGoals
    ensures LoadedData(s).settings.None? ==> st == InitialStore(s)
    ensures LoadedData(s).settings.Some? ==> st.settings == LoadedData(s).settings.value
  {
    var st := InitialStore(s);
    match LoadedData(s).settings
    case Some(saved) => st.(settings := saved)
    case None => st
  }

  /** The synchronisation effect: with a current user, their slot receives
      the transactions, budgets and settings; savings goals are not saved. */
  function SaveStore(s: Storage, st: StoreState): (r: Storage)
    ensures GetCurrentUser(s).None? ==> r == s
    ensures GetCurrentUser(r) == GetCurrentUser(s)
    ensures GetUsers(r) == GetUsers(s)
    ensures GetCurrentUser(s).Some? ==>
              GetUserData(r, GetCurrentUser(s).value.id)
                == UserData(st.transactions, st.budgets, Some(st.settings))
  {
    match GetCurrentUser(s)
    case Some(u) => SaveUserData(s, u.id, UserData(st.transactions, st.budgets, Some(st.settings)))
    case None => s
  }

  /** Saving and reloading brings back the transactions and the budgets. */
  lemma SaveThenLoadTransactions(s: Storage, st: StoreState)
    requires GetCurrentUser(s).Some?
    ensures InitialStore(SaveStore(s, st)).transactions == st.transactions
    ensures InitialStore(SaveStore(s, st)).budgets == st.budgets
  {
  }

  /** Saving and reloading loses any settings that differ from the defaults:
      a user who changed a goal gets the default back. */
  lemma SettingsLostOnReload(s: Storage, st: StoreState)
    requires GetCurrentUser(s).Some?
    requires st.settings.monthlyIncomeGoal != 8000.0
    ensures InitialStore(SaveStore(s, st)).settings != st.settings
  {
  }

  /** With the restoring initial state, saving and reloading brings back the
      whole persisted part of the state. */
  lemma SaveThenRestore(s: Storage, st: StoreState)
    requires GetCurrentUser(s).Some?
    ensures var st' := InitialStoreRestoring(SaveStore(s, st));
            st'.transactions == st.transactions && st'.budgets == st.budgets && st'.settings == st.settings
  {
  }

  // ---- the memoised summary ----

  /** The `summary` memo: income, expense, their difference, and the credit
      expenses. */
  function StoreSummary(st: StoreState): (r: FinancialSummary)
    ensures r.totalSaved == r.totalIncome - r.totalExpense
    ensures st.transactions == [] ==> r == FinancialSummary(0.0, 0.0, 0.0, 0.0)
  {
    var ts := st.transactions;
    var income := SumOf(Filter(ts, IsIncome), AmountOf);
    var expense := SumOf(Filter(ts, IsExpense), AmountOf);
    FinancialSummary(income, expense, income - expense, SumOf(Filter(ts, IsCreditExpense), AmountOf))
  }

  /** The memo agrees with `calculateSummary` on the four figures they share. */
  lemma StoreSummaryAgrees(st: StoreState)
    ensures var a, b := StoreSummary(st), CalculateSummary(st.transactions);
            a.totalIncome == b.totalIncome && a.totalExpense == b.totalExpense
            && a.totalSaved == b.totalSaved && a.creditDebt == b.creditDebt
  {
  }

  // ---- transactions ----

  /** `addTransaction`: appends at the end and changes nothing else. */
  function AddTransaction(st: StoreState, t: Transaction): (r: StoreState)
    ensures |r.transactions| == |st.transactions| + 1 && r.transactions[|st.transactions|] == t
    ensures r.transactions[..|st.transactions|] == st.transactions
    ensures r.(transactions := st.transactions) == st
  {
    st.(transactions := st.transactions + [t])
  }

  function NotTxId(id: string): Transaction -> bool
  {
    (t: Transaction) => t.id != id
  }

  /** `deleteTransaction`: drops every transaction with the id and keeps the
      rest in order. */
  function DeleteTransaction(st: StoreState, id: string): (r: StoreState)
    ensures SubseqOf(r.transactions, st.transactions)
    ensures forall i :: 0 <= i < |r.transactions| ==> r.transactions[i].id != id
    ensures forall i :: 0 <= i < |st.transactions| && st.transactions[i].id != id ==>
              st.transactions[i] in r.transactions
    ensures |r.transactions| == Count(st.transactions, NotTxId(id))
    ensures r.(transactions := st.transactions) == st
  {
    FilterComplete(st.transactions, NotTxId(id));
    st.(transactions := Filter(st.transactions, NotTxId(id)))
  }

  predicate FreshTxId(ts: seq<Transaction>, id: string)
  {
    forall i :: 0 <= i < |ts| ==> ts[i].id != id
  }

  /** Deleting an id no transaction carries changes nothing. */
  lemma DeleteUnknownTransaction(st: StoreState, id: string)
    requires FreshTxId(st.transactions, id)
    ensures DeleteTransaction(st, id) == st
  {
    FilterKeepsAll(st.transactions, NotTxId(id));
  }

  /** Adding a transaction with a fresh id and deleting that id restores the
      state, and with it the summary. */
  lemma AddThenDelete(st: StoreState, t: Transaction)
    requires FreshTxId(st.transactions, t.id)
    ensures DeleteTransaction(AddTransaction(st, t), t.id) == st
    ensures StoreSummary(DeleteTransaction(AddTransaction(st, t), t.id)) == StoreSummary(st)
  {
    FilterAppend(st.transactions, [t], NotTxId(t.id));
    FilterKeepsAll(st.transactions, NotTxId(t.id));
    assert Filter([t], NotTxId(t.id)) == [];
  }

  // ---- settings ----

  /** A `Partial<FinancialSettings>`: the fields present in the update. */
  datatype SettingsPatch = SettingsPatch(
    monthlyIncomeGoal: Option<real>,
    monthlyExpenseLimit: Option<real>,
    monthlySavingsGoal: Option<real>,
    currency: Option<string>,
    displayName: Option<string>)

  function Pick<T>(o: Option<T>, v: T): T
  {
    if o.Some? then o.value else v
  }

  /** `updateSettings`: `{...prev, ...newSettings}`. */
  function UpdateSettings(st: StoreState, p: SettingsPatch): (r: StoreState)
    ensures p.monthlyIncomeGoal.Some? ==> r.settings.monthlyIncomeGoal == p.monthlyIncomeGoal.value
    ensures p.monthlyIncomeGoal.None? ==> r.settings.monthlyIncomeGoal == st.settings.monthlyIncomeGoal
    ensures p.monthlyExpenseLimit.Some? ==> r.settings.monthlyExpenseLimit == p.monthlyExpenseLimit.value
    ensures p.monthlyExpenseLimit.None? ==> r.settings.monthlyExpenseLimit == st.settings.monthlyExpenseLimit
    ensures p.monthlySavingsGoal.Some? ==> r.settings.monthlySavingsGoal == p.monthlySavingsGoal.value
    ensures p.monthlySavingsGoal.None? ==> r.settings.monthlySavingsGoal == st.settings.monthlySavingsGoal
    ensures p.currency.Some? ==> r.settings.currency == p.currency.value
    ensures p.currency.None? ==> r.settings.currency == st.settings.currency
    ensures p.displayName.Some? ==> r.settings.displayName == p.displayName.value
    ensures p.displayName.None? ==> r.settings.displayName == st.settings.displayName
    ensures r.(settings := st.settings) == st
  {
    var s := st.settings;
    st.(settings := FinancialSettings(
      Pick(p.monthlyIncomeGoal, s.monthlyIncomeGoal),
      Pick(p.monthlyExpenseLimit, s.monthlyExpenseLimit),
      Pick(p.monthlySavingsGoal, s.monthlySavingsGoal),
      Pick(p.currency, s.currency),
      Pick(p.displayName, s.displayName)))
  }

  const EmptySettingsPatch: SettingsPatch := SettingsPatch(None, None, None, None, None)

  /** `{...p, ...q}`: the later patch wins where both have a field. */
  function MergePatches(p: SettingsPatch, q: SettingsPatch): SettingsPatch
  {
    SettingsPatch(
      if q.monthlyIncomeGoal.Some? then q.monthlyIncomeGoal else p.monthlyIncomeGoal,
      if q.monthlyExpenseLimit.Some? then q.monthlyExpenseLimit else p.monthlyExpenseLimit,
      if q.monthlySavingsGoal.Some? then q.monthlySavingsGoal else p.monthlySavingsGoal,
      if q.currency.Some? then q.currency else p.currency,
      if q.displayName.Some? then q.displayName else p.displayName)
  }

  /** An empty update changes nothing, and two updates in a row are one
      update with the merged fields. */
  lemma UpdateSettingsCompose(st: StoreState, p: SettingsPatch, q: SettingsPatch)
    ensures UpdateSettings(st, EmptySettingsPatch) == st
    ensures UpdateSettings(UpdateSettings(st, p), q) == UpdateSettings(st, MergePatches(p, q))
  {
  }

  // ---- savings goals ----

  /** The four colours a new goal can get. */
  const GoalColors: seq<string> := [
    "from-blue-500 to-cyan-500",
    "from-green-500 to-emerald-500",
    "from-purple-500 to-pink-500",
    "from-orange-500 to-red-500"
  ]

  /** `Date.now().toString()`: the decimal digits of a millisecond count. */
  function DecimalString(n: nat): (s: string)
    ensures |s| >= 1
    ensures forall i :: 0 <= i < |s| ==> IsDigit(s[i])
  {
    if n < 10 then [DigitChar(n)] else DecimalString(n / 10) + [DigitChar(n % 10)]
  }

  /** Different millisecond counts give different ids. */
  lemma {:induction false} DecimalStringInjective(a: nat, b: nat)
    requires DecimalString(a) == DecimalString(b)
    ensures a == b
    decreases a
  {
    var s, t := DecimalString(a), DecimalString(b);
    if a >= 10 && b >= 10 {
      assert s[..|s|-1] == DecimalString(a / 10) && t[..|t|-1] == DecimalString(b / 10);
      DecimalStringInjective(a / 10, b / 10);
      assert DigitValue(s[|s|-1]) == a % 10 && DigitValue(t[|t|-1]) == b % 10;
    } else if a < 10 && b < 10 {
      assert DigitValue(s[0]) == a && DigitValue(t[0]) == b;
    } else {
      assert false;
    }
  }

  /** `Math.floor(Math.random() * colors.length)` for a draw `roll` in [0, 1). */
  function ColorIndex(roll: real): (i: nat)
    requires 0.0 <= roll < 1.0
    ensures i < |GoalColors|
  {
    (roll * 4.0).Floor
  }

  /** `Omit<SavingsGoal, 'id'>`: a goal as submitted. */
  datatype GoalDraft = GoalDraft(
    name: string,
    targetAmount: real,
    currentAmount: real,
    deadline: string,
    category: string,
    color: string)

  /** `addSavingsGoal`: appends the submitted goal with an id from the clock
      and a colour drawn from the four. */
  function AddSavingsGoal(st: StoreState, g: GoalDraft, now: nat, roll: real): (r: StoreState)
    requires 0.0 <= roll < 1.0
    ensures |r.savingsGoals| == |st.savingsGoals| + 1
    ensures r.savingsGoals[..|st.savingsGoals|] == st.savingsGoals
    ensures var n := r.savingsGoals[|st.savingsGoals|];
            n.id == DecimalString(now) && n.name == g.name && n.targetAmount == g.targetAmount
            && n.currentAmount == g.currentAmount && n.deadline == g.deadline && n.category == g.category
            && n.color in GoalColors
    ensures r.(savingsGoals := st.savingsGoals) == st
  {
    var n := SavingsGoal(DecimalString(now), g.name, g.targetAmount, g.currentAmount, g.deadline,
                         g.category, GoalColors[ColorIndex(roll)]);
    st.(savingsGoals := st.savingsGoals + [n])
  }

  /** A `Partial<SavingsGoal>`. */
  datatype GoalPatch = GoalPatch(
    id: Option<string>,
    name: Option<string>,
    targetAmount: Option<real>,
    currentAmount: Option<real>,
    deadline: Option<string>,
    category: Option<string>,
    color: Option<string>)

  function ApplyGoalPatch(g: SavingsGoal, p: GoalPatch): SavingsGoal
  {
    SavingsGoal(Pick(p.id, g.id), Pick(p.name, g.name), Pick(p.targetAmount, g.targetAmount),
                Pick(p.currentAmount, g.currentAmount), Pick(p.deadline, g.deadline),
                Pick(p.category, g.category), Pick(p.color, g.color))
  }

  /** The update `transferToSavings` sends: only the current amount. */
  function AmountPatch(x: real): GoalPatch
  {
    GoalPatch(None, None, None, Some(x), None, None, None)
  }

  /** The `map` of `updateSavingsGoal`. */
  function PatchGoals(gs: seq<SavingsGoal>, id: string, p: GoalPatch): (r: seq<SavingsGoal>)
    ensures |r| == |gs|
    ensures forall i :: 0 <= i < |gs| ==> r[i] == (if gs[i].id == id then ApplyGoalPatch(gs[i], p) else gs[i])
  {
    if |gs| == 0 then []
    else
      var g := gs[|gs|-1];
      PatchGoals(gs[..|gs|-1], id, p) + [if g.id == id then ApplyGoalPatch(g, p) else g]
  }

  /** `updateSavingsGoal`: patches every goal with the id, in place. */
  function UpdateSavingsGoal(st: StoreState, id: string, p: GoalPatch): (r: StoreState)
    ensures |r.savingsGoals| == |st.savingsGoals|
    ensures forall i :: 0 <= i < |st.savingsGoals| && st.savingsGoals[i].id != id ==>
              r.savingsGoals[i] == st.savingsGoals[i]
    ensures forall i :: 0 <= i < |st.savingsGoals| && st.savingsGoals[i].id == id ==>
              r.savingsGoals[i] == ApplyGoalPatch(st.savingsGoals[i], p)
    ensures r.(savingsGoals := st.savingsGoals) == st
  {
    st.(savingsGoals := PatchGoals(st.savingsGoals, id, p))
  }

  predicate NoGoalWithId(gs: seq<SavingsGoal>, id: string)
  {
    forall i :: 0 <= i < |gs| ==> gs[i].id != id
  }

  /** Updating or deleting an id no goal carries changes nothing. */
  lemma UnknownGoalUntouched(st: StoreState, id: string, p: GoalPatch)
    requires NoGoalWithId(st.savingsGoals, id)
    ensures UpdateSavingsGoal(st, id, p) == st
    ensures DeleteSavingsGoal(st, id) == st
  {
    FilterKeepsAll(st.savingsGoals, NotGoalId(id));
  }

  function NotGoalId(id: string): SavingsGoal -> bool
  {
    (g: SavingsGoal) => g.id != id
  }

  /** `deleteSavingsGoal`: drops every goal with the id, keeping the rest in
      order. */
  function DeleteSavingsGoal(st: StoreState, id: string): (r: StoreState)
    ensures SubseqOf(r.savingsGoals, st.savingsGoals)
    ensures NoGoalWithId(r.savingsGoals, id)
    ensures forall i :: 0 <= i < |st.savingsGoals| && st.savingsGoals[i].id != id ==>
              st.savingsGoals[i] in r.savingsGoals
    ensures |r.savingsGoals| == Count(st.savingsGoals, NotGoalId(id))
    ensures r.(savingsGoals := st.savingsGoals) == st
  {
    FilterComplete(st.savingsGoals, NotGoalId(id));
    st.(savingsGoals := Filter(st.savingsGoals, NotGoalId(id)))
  }

  // ---- transfer to savings ----

  /** The first goal with the id. */
  function FindGoal(gs: seq<SavingsGoal>, id: string): (r: Option<SavingsGoal>)
    ensures r.None? <==> NoGoalWithId(gs, id)
    ensures r.Some? ==> r.value.id == id
    ensures r.Some? ==> exists i :: 0 <= i < |gs| && gs[i] == r.value && (forall j :: 0 <= j < i ==> gs[j].id != id)
  {
    if |gs| == 0 then None
    else if gs[0].id == id then Some(gs[0])
    else
      var r := FindGoal(gs[1..], id);
      assert r.Some? ==> exists i :: 1 <= i < |gs| && gs[i] == r.value
                            && forall j :: 0 <= j < i ==> gs[j].id != id by {
        if r.Some? {
          var i :| 0 <= i < |gs| - 1 && gs[1..][i] == r.value && forall j :: 0 <= j < i ==> gs[1..][j].id != id;
          assert forall j :: 0 <= j < i + 1 ==> gs[j].id != id by {
            forall j | 0 <= j < i + 1 ensures gs[j].id != id {
              if j > 0 { assert gs[j] == gs[1..][j - 1]; }
            }
          }
        }
      }
      r
  }

  /** "Transfer to savings", with the goal's name when a goal is given. */
  const TransferLabel: string := "העברה לחיסכון"

  const SavingCategory: string := "saving"

  /** The transaction `transferToSavings` records. */
  function TransferTransaction(gs: seq<SavingsGoal>, amount: real, goalId: string, now: nat,
                               today: CalendarDate): (t: Transaction)
    requires goalId != [] ==> !NoGoalWithId(gs, goalId)
    ensures t.amount == amount && t.category == SavingCategory
    ensures t.txType == Income && t.paymentMethod == BankTransfer
    ensures t.id == DecimalString(now) && t.date == today
    ensures goalId == [] ==> t.description == TransferLabel
    ensures goalId != [] ==> t.description == TransferLabel + ": " + FindGoal(gs, goalId).value.name
  {
    var desc := if goalId != [] then TransferLabel + ": " + FindGoal(gs, goalId).value.name else TransferLabel;
    Transaction(DecimalString(now), amount, SavingCategory, desc, today, Income, BankTransfer)
  }

  /** `transferToSavings`: records the transfer as an income and, when a goal
      is named (a non-empty id), raises every goal with that id to the first
      such goal's amount plus `amount`, with no cap at the target. The
      source asserts that the named goal exists. */
  function TransferToSavings(st: StoreState, amount: real, goalId: string, now: nat,
                             today: CalendarDate): (r: StoreState)
    requires goalId != [] ==> !NoGoalWithId(st.savingsGoals, goalId)
    ensures r.transactions == st.transactions + [TransferTransaction(st.savingsGoals, amount, goalId, now, today)]
    ensures r.budgets == st.budgets && r.settings == st.settings
    ensures goalId == [] ==> r.savingsGoals == st.savingsGoals
    ensures |r.savingsGoals| == |st.savingsGoals|
    ensures forall i :: 0 <= i < |st.savingsGoals| && st.savingsGoals[i].id != goalId ==>
              r.savingsGoals[i] == st.savingsGoals[i]
    ensures goalId != [] ==>
              forall i :: 0 <= i < |st.savingsGoals| && st.savingsGoals[i].id == goalId ==>
                r.savingsGoals[i] == st.savingsGoals[i].(currentAmount :=
                                       FindGoal(st.savingsGoals, goalId).value.currentAmount + amount)
  {
    var t := TransferTransaction(st.savingsGoals, amount, goalId, now, today);
    var st1 := AddTransaction(st, t);
    if goalId != [] then
      UpdateSavingsGoal(st1, goalId, AmountPatch(FindGoal(st.savingsGoals, goalId).value.currentAmount + amount))
    else st1
  }

  /** A transfer is an income: income and savings rise by the amount,
      expense and credit debt stay. */
  lemma TransferSummaryDelta(st: StoreState, amount: real, goalId: string, now: nat, today: CalendarDate)
    requires goalId != [] ==> !NoGoalWithId(st.savingsGoals, goalId)
    ensures var a, b := StoreSummary(st), StoreSummary(TransferToSavings(st, amount, goalId, now, today));
            b.totalIncome == a.totalIncome + amount && b.totalSaved == a.totalSaved + amount
            && b.totalExpense == a.totalExpense && b.creditDebt == a.creditDebt
  {
    var t := TransferTransaction(st.savingsGoals, amount, goalId, now, today);
    FilteredSumStep(st.transactions, t, IsIncome);
    FilteredSumStep(st.transactions, t, IsExpense);
    FilteredSumStep(st.transactions, t, IsCreditExpense);
  }

  predicate UniqueGoalIds(gs: seq<SavingsGoal>)
  {
    forall i, j :: 0 <= i < j < |gs| ==> gs[i].id != gs[j].id
  }

  /** With distinct goal ids, the named goal grows by exactly the amount,
      even past its target, and keeps its other fields. */
  lemma TransferRaisesGoal(st: StoreState, amount: real, goalId: string, now: nat, today: CalendarDate, i: int)
    requires goalId != [] && UniqueGoalIds(st.savingsGoals)
    requires 0 <= i < |st.savingsGoals| && st.savingsGoals[i].id == goalId
    ensures var g := TransferToSavings(st, amount, goalId, now, today).savingsGoals[i];
            g.currentAmount == st.savingsGoals[i].currentAmount + amount
            && g == st.savingsGoals[i].(currentAmount := g.currentAmount)
  {
    var f := FindGoal(st.savingsGoals, goalId).value;
    var k :| 0 <= k < |st.savingsGoals| && st.savingsGoals[k] == f
             && forall j :: 0 <= j < k ==> st.savingsGoals[j].id != goalId;
    assert k == i;
  }

  /** With unique ids, a transfer to the goal at `i` leaves every other goal
      as it was. */
  lemma TransferLeavesOtherGoals(st: StoreState, amount: real, goalId: string, now: nat, today: CalendarDate, i: int)
    requires goalId != [] && UniqueGoalIds(st.savingsGoals)
    requires 0 <= i < |st.savingsGoals| && st.savingsGoals[i].id == goalId
    ensures forall j :: 0 <= j < |st.savingsGoals| && j != i ==>
              TransferToSavings(st, amount, goalId, now, today).savingsGoals[j] == st.savingsGoals[j]
  {
    var gs := TransferToSavings(st, amount, goalId, now, today).savingsGoals;
    forall j | 0 <= j < |st.savingsGoals| && j != i ensures gs[j] == st.savingsGoals[j] {
      assert st.savingsGoals[j].id != goalId;
    }
  }
}
