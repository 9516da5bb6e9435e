/** The self-contained savings-goal and monthly-budget panel of
    `FinancialManagement.tsx`. Its goals are local component state (not the
    store's), have no colour, and a deposit is capped at the goal's target;
    its monthly budgets are fixed data shown with an over-budget flag, a
    clamped progress bar and a remaining-or-excess figure. */
module FinancialManagement {

  import opened Collections

  /** The component's own goal record. */
  datatype LocalGoal = LocalGoal(
    id: string,
    name: string,
    targetAmount: real,
    currentAmount: real,
    deadline: string,
    category: string)

  /** The component's monthly budget record. */
  datatype MonthlyBudget = MonthlyBudget(id: string, category: string, limit: real, spent: real, alert: bool)

  /** The add-goal form; the target is still text. */
  datatype GoalForm = GoalForm(name: string, targetAmount: string, deadline: string, category: string)

  const EmptyGoalForm: GoalForm := GoalForm("", "", "", "")
  const GeneralCategory: string := "כללי"

  const InitialGoals: seq<LocalGoal> := [
    LocalGoal("1", "נסיעה לחו\"ל", 15000.0, 8500.0, "2024-12-31", "נסיעות"),
    LocalGoal("2", "קרן חירום", 25000.0, 12000.0, "2024-08-30", "ביטחון")
  ]

  const InitialBudgets: seq<MonthlyBudget> := [
    MonthlyBudget("1", "מזון", 2000.0, 1650.0, false),
    MonthlyBudget("2", "בילויים", 800.0, 950.0, true),
    MonthlyBudget("3", "תחבורה", 600.0, 420.0, false)
  ]

  /** No goal holds more than its target. */
  predicate WithinTarget(goals: seq<LocalGoal>)
  {
    forall i :: 0 <= i < |goals| ==> goals[i].currentAmount <= goals[i].targetAmount
  }

  lemma InitialGoalsWithinTarget()
    ensures WithinTarget(InitialGoals)
  {
  }

  /** The form's guard: name, target text and deadline are all filled in. */
  predicate FormFilled(f: GoalForm)
  {
    f.name != [] && f.targetAmount != [] && f.deadline != []
  }

  /** `addSavingsGoal`: when the guard holds, appends a goal with nothing
      saved, id `now` (the clock's text) and target `target` (the numeric
      value of the target text), the category defaulting to "כללי", and
      clears the form; otherwise changes nothing. */
  function AddLocalGoal(goals: seq<LocalGoal>, f: GoalForm, target: real, now: string): (r: (seq<LocalGoal>, GoalForm))
    ensures !FormFilled(f) ==> r == (goals, f)
    ensures FormFilled(f) ==>
              && |r.0| == |goals| + 1 && r.0[..|goals|] == goals
              && r.0[|goals|] == LocalGoal(now, f.name, target, 0.0, f.deadline,
                                           if f.category != [] then f.category else GeneralCategory)
              && r.1 == EmptyGoalForm
  {
    if FormFilled(f) then
      var category := if f.category != [] then f.category else GeneralCategory;
      (goals + [LocalGoal(now, f.name, target, 0.0, f.deadline, category)], EmptyGoalForm)
    else
      (goals, f)
  }

  /** A goal added with a non-negative target keeps every goal within its
      target. */
  lemma AddLocalGoalKeepsWithinTarget(goals: seq<LocalGoal>, f: GoalForm, target: real, now: string)
    requires WithinTarget(goals) && target >= 0.0
    ensures WithinTarget(AddLocalGoal(goals, f, target, now).0)
  {
    var r := AddLocalGoal(goals, f, target, now).0;
    if FormFilled(f) {
      forall i | 0 <= i < |r| ensures r[i].currentAmount <= r[i].targetAmount {
        if i < |goals| { assert r[i] == r[..|goals|][i]; }
      }
    }
  }

  /** `updateGoalProgress`: the goal with id `id` gains `x`, capped at its
      target; every other goal, and the order, stay as they were. */
  function UpdateGoalProgress(goals: seq<LocalGoal>, id: string, x: real): (r: seq<LocalGoal>)
    ensures |r| == |goals|
    ensures forall i :: 0 <= i < |r| && goals[i].id != id ==> r[i] == goals[i]
    ensures forall i :: 0 <= i < |r| && goals[i].id == id ==>
              r[i].(currentAmount := 0.0) == goals[i].(currentAmount := 0.0)
              && r[i].currentAmount <= r[i].targetAmount
              && (r[i].currentAmount == goals[i].currentAmount + x || r[i].currentAmount == r[i].targetAmount)
              && r[i].currentAmount <= goals[i].currentAmount + x
  {
    if |goals| == 0 then []
    else
      var g := goals[|goals| - 1];
      var g' := if g.id == id then g.(currentAmount := MinReal(g.currentAmount + x, g.targetAmount)) else g;
      UpdateGoalProgress(goals[..|goals| - 1], id, x) + [g']
  }

  /** A deposit keeps every goal within its target. */
  lemma UpdateKeepsWithinTarget(goals: seq<LocalGoal>, id: string, x: real)
    requires WithinTarget(goals)
    ensures WithinTarget(UpdateGoalProgress(goals, id, x))
  {
  }

  /** A goal at its target stays there under a non-negative deposit, and a
      goal below it never loses money. */
  lemma DepositNeverLowers(goals: seq<LocalGoal>, id: string, x: real, i: int)
    requires 0 <= i < |goals| && x >= 0.0
    requires goals[i].currentAmount <= goals[i].targetAmount
    ensures var r := UpdateGoalProgress(goals, id, x);
            && r[i].currentAmount >= goals[i].currentAmount
            && (goals[i].currentAmount == goals[i].targetAmount ==> r[i].currentAmount == goals[i].targetAmount)
  {
  }

  /** Two deposits into the same goal are one deposit of the sum when the
      first does not reach the target. */
  lemma DepositsCombine(goals: seq<LocalGoal>, id: string, x: real, y: real)
    requires forall i :: 0 <= i < |goals| && goals[i].id == id ==> goals[i].currentAmount + x <= goals[i].targetAmount
    ensures UpdateGoalProgress(UpdateGoalProgress(goals, id, x), id, y) == UpdateGoalProgress(goals, id, x + y)
  {
    var a := UpdateGoalProgress(UpdateGoalProgress(goals, id, x), id, y);
    var b := UpdateGoalProgress(goals, id, x + y);
    assert |a| == |b|;
    forall i | 0 <= i < |a| ensures a[i] == b[i] {
      var mid := UpdateGoalProgress(goals, id, x);
      if goals[i].id == id {
        assert mid[i].currentAmount == goals[i].currentAmount + x;
        assert a[i].(currentAmount := 0.0) == b[i].(currentAmount := 0.0);
        assert a[i].currentAmount == b[i].currentAmount;
      }
    }
  }

  /** `isOverBudget`. */
  predicate OverBudget(b: MonthlyBudget)
  {
    b.spent > b.limit
  }

  /** In the initial data the `alert` flag marks exactly the budgets that are
      over their limit. */
  lemma InitialAlertsMatchOverBudget()
    ensures forall i :: 0 <= i < |InitialBudgets| ==> InitialBudgets[i].alert == OverBudget(InitialBudgets[i])
    ensures forall i :: 0 <= i < |InitialBudgets| ==> InitialBudgets[i].limit > 0.0
  {
  }

  /** The figure under the bar: the excess when over budget, the remainder
      otherwise; it is the distance between spent and limit. */
  function BudgetNote(b: MonthlyBudget): (r: real)
    ensures r >= 0.0
    ensures r == b.spent - b.limit || r == b.limit - b.spent
    ensures r == 0.0 <==> b.spent == b.limit
  {
    if OverBudget(b) then b.spent - b.limit else b.limit - b.spent
  }

  /** The bar's value: spent as a percentage of the limit, capped at 100. */
  function BudgetBar(b: MonthlyBudget): (r: real)
    requires b.limit > 0.0
    ensures r <= 100.0
    ensures b.spent >= 0.0 ==> r >= 0.0
    ensures r == 100.0 <==> b.spent >= b.limit
    ensures OverBudget(b) ==> r == 100.0
    ensures !OverBudget(b) ==> r * b.limit == b.spent * 100.0
  {
    var progress := b.spent / b.limit * 100.0;
    assert progress >= 100.0 <==> b.spent >= b.limit by {
      assert progress * b.limit == b.spent * 100.0;
    }
    MinReal(progress, 100.0)
  }
}
