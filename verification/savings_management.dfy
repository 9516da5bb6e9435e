/** The savings panel of `SavingsManagement.tsx`, which works on the store's
    goals: the add-goal handler, the deposit handler (a guarded call of the
    store's `transferToSavings`), the two goal totals, the overall progress
    and the per-goal progress with its clamped bar. */
module SavingsManagement {

  import opened Collections
  import opened Dates
  import opened Domain
  import opened Store
  import FinancialManagement

  const PanelColor: string := "from-blue-500 to-cyan-500"

  /** The category sent with a new goal: the typed one, or "כללי". */
  function CategoryOrGeneral(c: string): (r: string)
    ensures r != []
    ensures c != [] ==> r == c
    ensures c == [] ==> r == FinancialManagement.GeneralCategory
  {
    if c != [] then c else FinancialManagement.GeneralCategory
  }

  /** `handleAddSavingsGoal`: when name, target text and deadline are filled
      in, submits a goal with nothing saved to the store and clears the form;
      otherwise changes nothing. `target` is the numeric value of the target
      text; `now` and `roll` are the clock and the random draw the store uses. */
  function HandleAddSavingsGoal(st: StoreState, f: FinancialManagement.GoalForm, target: real,
                                now: nat, roll: real): (r: (StoreState, FinancialManagement.GoalForm))
    requires 0.0 <= roll < 1.0
    ensures !FinancialManagement.FormFilled(f) ==> r == (st, f)
    ensures FinancialManagement.FormFilled(f) ==>
              && r.1 == FinancialManagement.EmptyGoalForm
              && r.0.(savingsGoals := st.savingsGoals) == st
              && |r.0.savingsGoals| == |st.savingsGoals| + 1
              && r.0.savingsGoals[..|st.savingsGoals|] == st.savingsGoals
              && var g := r.0.savingsGoals[|st.savingsGoals|];
                 g.name == f.name && g.targetAmount == target && g.currentAmount == 0.0
                 && g.deadline == f.deadline && g.category == CategoryOrGeneral(f.category)
                 && g.id == DecimalString(now)
  {
    if FinancialManagement.FormFilled(f) then
      var draft := GoalDraft(f.name, target, 0.0, f.deadline, CategoryOrGeneral(f.category), PanelColor);
      (AddSavingsGoal(st, draft, now, roll), FinancialManagement.EmptyGoalForm)
    else
      (st, f)
  }

  /** A goal added under a clock value no goal id uses keeps the ids
      distinct. */
  lemma AddGoalKeepsIdsUnique(st: StoreState, f: FinancialManagement.GoalForm, target: real, now: nat, roll: real)
    requires 0.0 <= roll < 1.0
    requires UniqueGoalIds(st.savingsGoals) && NoGoalWithId(st.savingsGoals, DecimalString(now))
    ensures UniqueGoalIds(HandleAddSavingsGoal(st, f, target, now, roll).0.savingsGoals)
  {
    var gs := HandleAddSavingsGoal(st, f, target, now, roll).0.savingsGoals;
    if FinancialManagement.FormFilled(f) {
      var n := |st.savingsGoals|;
      forall i, j | 0 <= i < j < |gs| ensures gs[i].id != gs[j].id {
        assert gs[i] == gs[..n][i];
        if j < n { assert gs[j] == gs[..n][j]; }
      }
    }
  }

  /** The deposit form: the amount text and the selected goal id. */
  datatype DepositForm = DepositForm(amountText: string, selectedGoalId: string)

  const EmptyDepositForm: DepositForm := DepositForm("", "")

  /** The guard of `addToSavingsGoal`: the amount text reads as a positive
      number (`None` stands for text `Number` cannot read) and a goal is
      selected. */
  predicate DepositAllowed(amount: Option<real>, goalId: string)
  {
    amount.Some? && amount.value > 0.0 && goalId != []
  }

  /** What the non-null assertion `find(...)!.currentAmount` throws when no
      goal carries the selected id. */
  const MissingGoalError: string := "TypeError: Cannot read properties of undefined (reading 'currentAmount')"

  /** `addToSavingsGoal`: with the guard, transfers the amount to the
      selected goal and clears the form; otherwise changes nothing. A
      selected id that no goal carries makes `transferToSavings` throw. */
  function AddToSavingsGoal(st: StoreState, form: DepositForm, amount: Option<real>,
                            now: nat, today: CalendarDate): (r: Result<(StoreState, DepositForm)>)
    ensures !DepositAllowed(amount, form.selectedGoalId) ==> r == Ok((st, form))
    ensures r.Err? <==> DepositAllowed(amount, form.selectedGoalId) && NoGoalWithId(st.savingsGoals, form.selectedGoalId)
    ensures r.Err? ==> r.error == MissingGoalError
    ensures DepositAllowed(amount, form.selectedGoalId) && r.Ok? ==>
              r.value.1 == EmptyDepositForm
              && r.value.0 == TransferToSavings(st, amount.value, form.selectedGoalId, now, today)
  {
    if !DepositAllowed(amount, form.selectedGoalId) then Ok((st, form))
    else if NoGoalWithId(st.savingsGoals, form.selectedGoalId) then Err(MissingGoalError)
    else Ok((TransferToSavings(st, amount.value, form.selectedGoalId, now, today), EmptyDepositForm))
  }

  /** `handleDeleteSavingsGoal`: deletes the goal and leaves the deposit form,
      including its selection, as it was. */
  function HandleDeleteSavingsGoal(st: StoreState, form: DepositForm, id: string): (r: (StoreState, DepositForm))
    ensures r.1 == form
    ensures r.0 == DeleteSavingsGoal(st, id)
    ensures NoGoalWithId(r.0.savingsGoals, id)
    ensures r.0.(savingsGoals := st.savingsGoals) == st
  {
    (DeleteSavingsGoal(st, id), form)
  }

  /** Deleting the selected goal leaves its id selected, and the next
      deposit of a positive amount throws. */
  lemma StaleSelectionThrows(st: StoreState, form: DepositForm, amount: Option<real>, now: nat, today: CalendarDate)
    requires DepositAllowed(amount, form.selectedGoalId)
    ensures var (st', form') := HandleDeleteSavingsGoal(st, form, form.selectedGoalId);
            AddToSavingsGoal(st', form', amount, now, today) == Err(MissingGoalError)
  {
  }

  /** The selection is empty or names a goal of the store. */
  predicate SelectionValid(st: StoreState, form: DepositForm)
  {
    form.selectedGoalId == [] || !NoGoalWithId(st.savingsGoals, form.selectedGoalId)
  }

  /** The delete handler corrected to clear a selection of the deleted goal. */
  function HandleDeleteSavingsGoalClearing(st: StoreState, form: DepositForm, id: string): (r: (StoreState, DepositForm))
    ensures r.0 == HandleDeleteSavingsGoal(st, form, id).0
    ensures r.1.amountText == form.amountText
    ensures r.1.selectedGoalId == (if form.selectedGoalId == id then "" else form.selectedGoalId)
  {
    (DeleteSavingsGoal(st, id), if form.selectedGoalId == id then form.(selectedGoalId := "") else form)
  }

  /** The corrected delete handler keeps the selection valid, and a valid
      selection never makes a deposit throw. */
  lemma ClearingKeepsDepositSafe(st: StoreState, form: DepositForm, id: string, amount: Option<real>,
                                 now: nat, today: CalendarDate)
    requires SelectionValid(st, form)
    ensures var (st', form') := HandleDeleteSavingsGoalClearing(st, form, id);
            SelectionValid(st', form') && AddToSavingsGoal(st', form', amount, now, today).Ok?
  {
    var (st', form') := HandleDeleteSavingsGoalClearing(st, form, id);
    if form'.selectedGoalId != [] {
      var i :| 0 <= i < |st.savingsGoals| && st.savingsGoals[i].id == form.selectedGoalId;
      FilterMember(st.savingsGoals, NotGoalId(id), st.savingsGoals[i]);
      var k :| 0 <= k < |st'.savingsGoals| && st'.savingsGoals[k] == st.savingsGoals[i];
    }
  }

  function CurrentOf(g: SavingsGoal): real { g.currentAmount }

  function TargetOf(g: SavingsGoal): real { g.targetAmount }

  /** `totalSavingsGoals`. */
  function TotalSaved(gs: seq<SavingsGoal>): real
  {
    SumOf(gs, CurrentOf)
  }

  /** `totalTargets`. */
  function TotalTargets(gs: seq<SavingsGoal>): real
  {
    SumOf(gs, TargetOf)
  }

  /** An allowed deposit raises the selected goal, and so the total saved,
      by exactly the amount; the targets and the other goals stay. */
  lemma DepositRaisesTotal(st: StoreState, form: DepositForm, amount: Option<real>, now: nat,
                           today: CalendarDate, i: int)
    requires DepositAllowed(amount, form.selectedGoalId)
    requires UniqueGoalIds(st.savingsGoals)
    requires 0 <= i < |st.savingsGoals| && st.savingsGoals[i].id == form.selectedGoalId
    ensures var gs := AddToSavingsGoal(st, form, amount, now, today).value.0.savingsGoals;
            && gs[i].currentAmount == st.savingsGoals[i].currentAmount + amount.value
            && TotalSaved(gs) == TotalSaved(st.savingsGoals) + amount.value
            && TotalTargets(gs) == TotalTargets(st.savingsGoals)
  {
    var gs := TransferToSavings(st, amount.value, form.selectedGoalId, now, today).savingsGoals;
    assert AddToSavingsGoal(st, form, amount, now, today).value.0.savingsGoals == gs;
    TransferRaisesGoal(st, amount.value, form.selectedGoalId, now, today, i);
    TransferLeavesOtherGoals(st, amount.value, form.selectedGoalId, now, today, i);
    SumOneChanged(st.savingsGoals, gs, i, CurrentOf);
    SumOneChanged(st.savingsGoals, gs, i, TargetOf);
  }

  /** `overallProgress`: total saved as a percentage of the total target,
      and 0 when there is no positive total target. */
  function OverallProgress(gs: seq<SavingsGoal>): (r: real)
    ensures TotalTargets(gs) <= 0.0 ==> r == 0.0
    ensures TotalTargets(gs) > 0.0 ==> r * TotalTargets(gs) == TotalSaved(gs) * 100.0
  {
    var t := TotalTargets(gs);
    if t > 0.0 then TotalSaved(gs) / t * 100.0 else 0.0
  }

  /** With every goal holding between nothing and its target, the overall
      progress lies between 0 and 100. */
  lemma OverallProgressBounded(gs: seq<SavingsGoal>)
    requires forall i :: 0 <= i < |gs| ==> 0.0 <= gs[i].currentAmount <= gs[i].targetAmount
    ensures 0.0 <= OverallProgress(gs) <= 100.0
  {
    SumNonneg(gs, CurrentOf);
    SumMono(gs, CurrentOf, TargetOf);
    var saved, t := TotalSaved(gs), TotalTargets(gs);
    if t > 0.0 {
      assert saved <= t;
      assert saved / t * t == saved;
      assert saved / t <= 1.0;
      assert OverallProgress(gs) == saved / t * 100.0;
    }
  }

  /** A goal's progress, unclamped as the panel prints it. */
  function GoalProgress(g: SavingsGoal): (r: real)
    requires g.targetAmount > 0.0
    ensures r * g.targetAmount == g.currentAmount * 100.0
    ensures r > 100.0 <==> g.currentAmount > g.targetAmount
  {
    var r := g.currentAmount / g.targetAmount * 100.0;
    assert r * g.targetAmount == g.currentAmount * 100.0;
    r
  }

  /** The progress bar, capped at 100. */
  function GoalBar(g: SavingsGoal): (r: real)
    requires g.targetAmount > 0.0
    ensures r <= 100.0 && r <= GoalProgress(g)
    ensures r == 100.0 <==> g.currentAmount >= g.targetAmount
    ensures g.currentAmount < g.targetAmount ==> r == GoalProgress(g)
  {
    MinReal(GoalProgress(g), 100.0)
  }

  /** The store's transfer is not capped at the target: depositing 10000 into
      the first default goal (8500 of 15000) prints a progress above 100
      while the bar shows 100. */
  lemma ProgressCanPassHundred(now: nat, today: CalendarDate)
    ensures var st := StoreState([], [], DefaultSettings(DefaultDisplayName), DefaultGoals);
            !NoGoalWithId(st.savingsGoals, "1")
            && var gs := AddToSavingsGoal(st, DepositForm("10000", "1"), Some(10000.0), now, today).value.0.savingsGoals;
            |gs| == 2 && GoalProgress(gs[0]) > 100.0 && GoalBar(gs[0]) == 100.0
  {
    var st := StoreState([], [], DefaultSettings(DefaultDisplayName), DefaultGoals);
    assert st.savingsGoals[0].id == "1";
    assert UniqueGoalIds(st.savingsGoals) by {
      assert DefaultGoals[0].id[0] != DefaultGoals[1].id[0];
    }
    TransferRaisesGoal(st, 10000.0, "1", now, today, 0);
  }
}
