/** One row of the budgets table (`BudgetTableRow.tsx`): the Hebrew period
    label, the daily and hourly share of the budget, the rounded and capped
    usage percentage and the remaining amount. */
module BudgetTableRow {

  import opened Collections
  import opened Domain
  import DailyWeeklyBudget

  const DailyLabel: string := "יומי"
  const WeeklyLabel: string := "שבועי"
  const MonthlyLabel: string := "חודשי"
  const YearlyLabel: string := "שנתי"

  /** `getPeriodName`: the Hebrew label of a known period; any other text is
      shown as it is. */
  function PeriodName(p: string): (r: string)
    ensures p == DAILY ==> r == DailyLabel
    ensures p == WEEKLY ==> r == WeeklyLabel
    ensures p == MONTHLY ==> r == MonthlyLabel
    ensures p == YEARLY ==> r == YearlyLabel
    ensures !IsKnownPeriod(p) ==> r == p
    ensures IsKnownPeriod(p) ==> r != p
  {
    if p == DAILY then DailyLabel
    else if p == WEEKLY then WeeklyLabel
    else if p == MONTHLY then MonthlyLabel
    else if p == YEARLY then YearlyLabel
    else p
  }

  /** Distinct known periods get distinct labels. */
  lemma PeriodNameInjective(p: string, q: string)
    requires IsKnownPeriod(p) && IsKnownPeriod(q)
    ensures PeriodName(p) == PeriodName(q) <==> p == q
  {
    assert DailyLabel[0] != WeeklyLabel[0] && DailyLabel[0] != MonthlyLabel[0] && DailyLabel[0] != YearlyLabel[0];
    assert WeeklyLabel[0] != MonthlyLabel[0] && WeeklyLabel[1] != YearlyLabel[1];
    assert MonthlyLabel[0] != YearlyLabel[0];
  }

  /** `calculateDailyBudget`: the budget's share of one day; it is the daily
      figure of the daily/weekly card. */
  function DailyBudget(b: Budget): (r: real)
    ensures b.period == DAILY ==> r == b.amount
    ensures b.period == WEEKLY ==> 7.0 * r == b.amount
    ensures b.period == MONTHLY || !IsKnownPeriod(b.period) ==> 30.0 * r == b.amount
    ensures b.period == YEARLY ==> 365.0 * r == b.amount
    ensures r == DailyWeeklyBudget.BudgetForPeriod(b, DailyWeeklyBudget.PerDay)
  {
    if b.period == DAILY then b.amount
    else if b.period == WEEKLY then b.amount / 7.0
    else if b.period == MONTHLY then b.amount / 30.0
    else if b.period == YEARLY then b.amount / 365.0
    else b.amount / 30.0
  }

  /** `calculateHourlyBudget`: a 24th of the daily share. */
  function HourlyBudget(b: Budget): (r: real)
    ensures 24.0 * r == DailyBudget(b)
    ensures b.amount >= 0.0 ==> 0.0 <= r <= DailyBudget(b)
  {
    DailyBudget(b) / 24.0
  }

  /** `Math.round`: the nearest integer, halves rounded up. */
  function Round(x: real): (r: int)
    ensures x - 0.5 < r as real <= x + 0.5
  {
    (x + 0.5).Floor
  }

  /** The row's percentage: spent over amount as a rounded percentage,
      capped at 100. It reaches 100 exactly when at least 99.5% is spent. */
  function Percentage(b: Budget): (r: int)
    requires b.amount > 0.0
    ensures r <= 100
    ensures b.spent >= 0.0 ==> r >= 0
    ensures r == 100 <==> 200.0 * b.spent >= 199.0 * b.amount
    ensures r < 100 ==> b.spent / b.amount * 100.0 - 0.5 < r as real <= b.spent / b.amount * 100.0 + 0.5
  {
    var raw := b.spent / b.amount * 100.0;
    assert raw >= 99.5 <==> 200.0 * b.spent >= 199.0 * b.amount by {
      assert raw * b.amount == b.spent * 100.0;
    }
    Min(Round(raw), 100)
  }

  /** The rounded row percentage is within half a point of the card's
      unrounded one. */
  lemma PercentageNearCard(b: Budget)
    requires b.amount > 0.0
    ensures var p, q := Percentage(b) as real, DailyWeeklyBudget.Percent(b.spent, b.amount);
            q - 0.5 < p <= q + 0.5
  {
    var raw := b.spent / b.amount * 100.0;
    assert raw >= 100.0 <==> b.spent >= b.amount by {
      assert raw * b.amount == b.spent * 100.0;
    }
  }

  /** `remaining`: what is left of the budget; negative exactly when the
      budget is overspent, and spent plus remaining is the amount. */
  function Remaining(b: Budget): (r: real)
    ensures r < 0.0 <==> b.spent > b.amount
    ensures r == 0.0 <==> b.spent == b.amount
    ensures b.spent + r == b.amount
  {
    b.amount - b.spent
  }
}
