/** The daily and weekly budget card of `DailyWeeklyBudget.tsx`: each
    budget's amount converted to a day or a week by fixed divisors, the
    spending in the current day or week (from the latest Sunday), the four
    totals over all budgets, and the clamped utilisation percentages.
    "Today" is a parameter. */
module DailyWeeklyBudget {

  import opened Collections
  import opened Dates
  import opened Domain
  import opened FinanceUtils

  datatype Granularity = PerDay | PerWeek

  /** `calculateBudgetForPeriod`: a day is 1/7 of a week, 1/30 of a month
      and 1/365 of a year; a week is 7 days, 1/4 of a month and 1/52 of a
      year; an unrecognised period counts as monthly. */
  function BudgetForPeriod(b: Budget, g: Granularity): (r: real)
    ensures g == PerDay ==>
              && (b.period == DAILY ==> r == b.amount)
              && (b.period == WEEKLY ==> 7.0 * r == b.amount)
              && (b.period == MONTHLY || !IsKnownPeriod(b.period) ==> 30.0 * r == b.amount)
              && (b.period == YEARLY ==> 365.0 * r == b.amount)
    ensures g == PerWeek ==>
              && (b.period == DAILY ==> r == 7.0 * b.amount)
              && (b.period == WEEKLY ==> r == b.amount)
              && (b.period == MONTHLY || !IsKnownPeriod(b.period) ==> 4.0 * r == b.amount)
              && (b.period == YEARLY ==> 52.0 * r == b.amount)
    ensures b.amount >= 0.0 ==> 0.0 <= r
    ensures b.amount >= 0.0 && g == PerDay ==> r <= b.amount
  {
    if b.period == DAILY then (if g == PerDay then b.amount else b.amount * 7.0)
    else if b.period == WEEKLY then (if g == PerDay then b.amount / 7.0 else b.amount)
    else if b.period == MONTHLY then (if g == PerDay then b.amount / 30.0 else b.amount / 4.0)
    else if b.period == YEARLY then (if g == PerDay then b.amount / 365.0 else b.amount / 52.0)
    else (if g == PerDay then b.amount / 30.0 else b.amount / 4.0)
  }

  /** A period the card does not know is converted as a monthly one. */
  lemma UnknownPeriodIsMonthly(b: Budget, g: Granularity)
    requires !IsKnownPeriod(b.period)
    ensures BudgetForPeriod(b, g) == BudgetForPeriod(b.(period := MONTHLY), g)
  {
  }

  /** How the weekly figure relates to the daily one: exactly seven days for
      daily and weekly budgets, 7.5 days for a monthly one, 365/52 days for a
      yearly one. */
  lemma WeekToDayRatio(b: Budget)
    ensures var d, w := BudgetForPeriod(b, PerDay), BudgetForPeriod(b, PerWeek);
            && (b.period == DAILY || b.period == WEEKLY ==> w == 7.0 * d)
            && (b.period == YEARLY ==> 52.0 * w == 365.0 * d)
            && (b.period != DAILY && b.period != WEEKLY && b.period != YEARLY ==> 2.0 * w == 15.0 * d)
  {
  }

  /** The first day counted: today for a daily figure, the latest Sunday
      (today minus `getDay()`) for a weekly one. */
  function PeriodStart(today: CalendarDate, g: Granularity): (n: int)
    ensures g == PerDay ==> n == DayIndex(today)
    ensures g == PerWeek ==> n <= DayIndex(today) < n + 7 && (n + 4) % 7 == 0
  {
    var x := DayIndex(today);
    SundayOnOrBefore(x);
    if g == PerDay then x else x - Weekday(today)
  }

  /** Stepping back from day `x` by its weekday lands on a Sunday. */
  lemma SundayOnOrBefore(x: int)
    ensures 0 <= (x + 4) % 7 < 7
    ensures (x - (x + 4) % 7 + 4) % 7 == 0
  {
    var q, w := (x + 4) / 7, (x + 4) % 7;
    assert x - w + 4 == 7 * q;
  }

  /** An expense of the category dated on or after the start day. */
  function InWindow(category: string, start: int): Transaction -> bool
  {
    (t: Transaction) => t.txType == Expense && t.category == category && DayIndex(t.date) >= start
  }

  /** `calculateSpentForPeriod`. */
  function SpentForPeriod(b: Budget, ts: seq<Transaction>, today: CalendarDate, g: Granularity): (r: real)
    ensures NonnegAmounts(ts) ==> 0.0 <= r <= BudgetSpent(ts, b.category)
  {
    var r := SumOf(Filter(ts, InWindow(b.category, PeriodStart(today, g))), AmountOf);
    assert NonnegAmounts(ts) ==> 0.0 <= r <= BudgetSpent(ts, b.category) by {
      if NonnegAmounts(ts) {
        FilterElements(ts, InWindow(b.category, PeriodStart(today, g)));
        SumNonneg(Filter(ts, InWindow(b.category, PeriodStart(today, g))), AmountOf);
        SumFilterMono(ts, InWindow(b.category, PeriodStart(today, g)), ExpenseInCategory(b.category), AmountOf);
      }
    }
    r
  }

  /** The period's spending over no transactions is 0, and an appended
      transaction adds its amount exactly when it is an expense of the
      budget's category dated on or after the period's first day. */
  lemma SpentForPeriodStep(b: Budget, ts: seq<Transaction>, t: Transaction, today: CalendarDate, g: Granularity)
    ensures SpentForPeriod(b, [], today, g) == 0.0
    ensures SpentForPeriod(b, ts + [t], today, g)
         == SpentForPeriod(b, ts, today, g)
            + (if t.txType == Expense && t.category == b.category && DayIndex(t.date) >= PeriodStart(today, g)
               then t.amount else 0.0)
  {
    FilteredSumStep(ts, t, InWindow(b.category, PeriodStart(today, g)));
  }

  /** The week includes today, so with non-negative amounts the weekly
      spending is at least the daily spending. */
  lemma WeeklySpentCoversDaily(b: Budget, ts: seq<Transaction>, today: CalendarDate)
    requires NonnegAmounts(ts)
    ensures SpentForPeriod(b, ts, today, PerDay) <= SpentForPeriod(b, ts, today, PerWeek)
  {
    SumFilterMono(ts, InWindow(b.category, PeriodStart(today, PerDay)),
                  InWindow(b.category, PeriodStart(today, PerWeek)), AmountOf);
  }

  function BudgetFor(g: Granularity): Budget -> real
  {
    (b: Budget) => BudgetForPeriod(b, g)
  }

  function SpentFor(ts: seq<Transaction>, today: CalendarDate, g: Granularity): Budget -> real
  {
    (b: Budget) => SpentForPeriod(b, ts, today, g)
  }

  /** `totalDailyBudget` and `totalWeeklyBudget`. */
  function TotalBudget(bs: seq<Budget>, g: Granularity): (r: real)
    ensures (forall i :: 0 <= i < |bs| ==> bs[i].amount >= 0.0) ==> r >= 0.0
  {
    SumNonnegBudgets(bs, g);
    SumOf(bs, BudgetFor(g))
  }

  /** One more budget adds its own converted amount to the total. */
  lemma TotalBudgetStep(bs: seq<Budget>, b: Budget, g: Granularity)
    ensures TotalBudget(bs + [b], g) == TotalBudget(bs, g) + BudgetForPeriod(b, g)
    ensures TotalBudget([], g) == 0.0
  {
    SumSnoc(bs, b, BudgetFor(g));
  }

  lemma SumNonnegBudgets(bs: seq<Budget>, g: Granularity)
    ensures (forall i :: 0 <= i < |bs| ==> bs[i].amount >= 0.0) ==> SumOf(bs, BudgetFor(g)) >= 0.0
  {
    if forall i :: 0 <= i < |bs| ==> bs[i].amount >= 0.0 {
      SumNonneg(bs, BudgetFor(g));
    }
  }

  /** `totalDailySpent` and `totalWeeklySpent`. */
  function TotalSpent(bs: seq<Budget>, ts: seq<Transaction>, today: CalendarDate, g: Granularity): (r: real)
    ensures NonnegAmounts(ts) ==> r >= 0.0
  {
    assert NonnegAmounts(ts) ==> SumOf(bs, SpentFor(ts, today, g)) >= 0.0 by {
      if NonnegAmounts(ts) {
        SumNonneg(bs, SpentFor(ts, today, g));
      }
    }
    SumOf(bs, SpentFor(ts, today, g))
  }

  /** One more budget adds its own spending in the period to the total. */
  lemma TotalSpentStep(bs: seq<Budget>, b: Budget, ts: seq<Transaction>, today: CalendarDate, g: Granularity)
    ensures TotalSpent(bs + [b], ts, today, g) == TotalSpent(bs, ts, today, g) + SpentForPeriod(b, ts, today, g)
    ensures TotalSpent([], ts, today, g) == 0.0
  {
    SumSnoc(bs, b, SpentFor(ts, today, g));
  }

  /** With non-negative amounts the weekly total spent is at least the daily
      total spent. */
  lemma TotalWeeklySpentCoversDaily(bs: seq<Budget>, ts: seq<Transaction>, today: CalendarDate)
    requires NonnegAmounts(ts)
    ensures TotalSpent(bs, ts, today, PerDay) <= TotalSpent(bs, ts, today, PerWeek)
  {
    forall i | 0 <= i < |bs|
      ensures SpentFor(ts, today, PerDay)(bs[i]) <= SpentFor(ts, today, PerWeek)(bs[i])
    {
      WeeklySpentCoversDaily(bs[i], ts, today);
    }
    SumMono(bs, SpentFor(ts, today, PerDay), SpentFor(ts, today, PerWeek));
  }

  /** `dailyPercentage` / `weeklyPercentage`: spent as a percentage of the
      budget, capped at 100, and 0 when there is no positive budget. */
  function Percent(spent: real, total: real): (r: real)
    ensures r <= 100.0
    ensures total <= 0.0 ==> r == 0.0
    ensures spent >= 0.0 ==> r >= 0.0
    ensures total > 0.0 ==> (r == 100.0 <==> spent >= total)
    ensures total > 0.0 && spent < total ==> r * total == spent * 100.0
  {
    if total > 0.0 then
      var raw := spent / total * 100.0;
      assert raw >= 100.0 <==> spent >= total by {
        assert raw * total == spent * 100.0;
      }
      MinReal(raw, 100.0)
    else 0.0
  }
}
