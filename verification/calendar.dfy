/** The month-partitioned view of `CalendarManager.tsx`: a map from month
    key to a snapshot of that month's transactions, budgets and summary, the
    current month, and the transitions that switch months, step one month
    and refresh the current snapshot from the live data. */
module Calendar {

  import opened Collections
  import opened Dates
  import opened Domain
  import opened FinanceUtils
  import opened DateUtils

  /** `MonthlyData`: one month's snapshot. */
  datatype MonthlyData = MonthlyData(
    month: Month,
    transactions: seq<Transaction>,
    budgets: seq<Budget>,
    summary: Summary)

  /** `CalendarState`: the current month and the snapshots by month. */
  datatype CalendarState = CalendarState(currentMonth: Month, monthlyData: map<Month, MonthlyData>)

  datatype Direction = Prev | Next

  /** The snapshot shown for a month with no data. */
  function EmptySnapshot(k: Month): (d: MonthlyData)
    ensures d.month == k && d.transactions == [] && d.budgets == []
    ensures d.summary == CalculateSummary(d.transactions)
  {
    MonthlyData(k, [], [], ZeroSummary)
  }

  /** The state every transition keeps: the current month has a snapshot,
      every snapshot is labelled with its own key, and its summary is the
      summary of its transactions. */
  predicate Consistent(st: CalendarState)
  {
    && st.currentMonth in st.monthlyData
    && forall k :: k in st.monthlyData ==> SnapshotOk(k, st.monthlyData[k])
  }

  /** A snapshot stored under `k` is labelled `k` and its summary is the
      summary of its transactions. */
  predicate SnapshotOk(k: Month, d: MonthlyData)
  {
    d.month == k && d.summary == CalculateSummary(d.transactions)
  }

  /** The initial state: one snapshot, for the month of `today`, holding the
      live transactions and budgets. */
  function InitialCalendar(today: CalendarDate, ts: seq<Transaction>, bs: seq<Budget>): (st: CalendarState)
    ensures st.currentMonth == MonthOf(today)
    ensures st.monthlyData.Keys == {MonthOf(today)}
    ensures st.monthlyData[MonthOf(today)].transactions == ts
    ensures st.monthlyData[MonthOf(today)].budgets == bs
    ensures Consistent(st)
  {
    var k := MonthOf(today);
    CalendarState(k, map[k := MonthlyData(k, ts, bs, CalculateSummary(ts))])
  }

  /** `getCurrentMonthData`: the stored snapshot of the current month, or
      an empty one when there is none. */
  function GetCurrentMonthData(st: CalendarState): (d: MonthlyData)
    ensures st.currentMonth in st.monthlyData ==> d == st.monthlyData[st.currentMonth]
    ensures st.currentMonth !in st.monthlyData ==> d == EmptySnapshot(st.currentMonth)
    ensures Consistent(st) ==> d.month == st.currentMonth && d.summary == CalculateSummary(d.transactions)
  {
    if st.currentMonth in st.monthlyData then st.monthlyData[st.currentMonth]
    else EmptySnapshot(st.currentMonth)
  }

  /** The budgets of a month without data: the live budgets with nothing
      spent. */
  function ResetSpent(bs: seq<Budget>): (r: seq<Budget>)
    ensures |r| == |bs|
    ensures forall i :: 0 <= i < |r| ==> r[i] == bs[i].(spent := 0.0)
  {
    if |bs| == 0 then [] else ResetSpent(bs[..|bs|-1]) + [bs[|bs|-1].(spent := 0.0)]
  }

  /** A month's fresh budgets are the budget status of an empty month. */
  lemma ResetSpentIsEmptyStatus(bs: seq<Budget>)
    ensures ResetSpent(bs) == GetBudgetStatus(bs, [])
  {
    var r, s := ResetSpent(bs), GetBudgetStatus(bs, []);
    assert |r| == |s|;
    forall i | 0 <= i < |r| ensures r[i] == s[i] {
      assert s[i].(spent := 0.0) == bs[i].(spent := 0.0) && s[i].spent == 0.0;
    }
  }

  /** `switchToMonth`: makes `k` current, first inserting an empty snapshot
      for it when it has none; returns the new state and the snapshot
      handed to `onMonthChange`. Existing snapshots are never touched. */
  function SwitchToMonth(st: CalendarState, bs: seq<Budget>, k: Month): (r: (CalendarState, MonthlyData))
    ensures r.0.currentMonth == k
    ensures r.0.monthlyData.Keys == st.monthlyData.Keys + {k}
    ensures forall j :: j in st.monthlyData ==> r.0.monthlyData[j] == st.monthlyData[j]
    ensures r.1 == r.0.monthlyData[k]
    ensures k !in st.monthlyData ==>
              r.1.month == k && r.1.transactions == [] && r.1.summary == ZeroSummary
              && r.1.budgets == GetBudgetStatus(bs, [])
    ensures Consistent(st) ==> Consistent(r.0)
  {
    if k !in st.monthlyData then
      var blank := MonthlyData(k, [], ResetSpent(bs), ZeroSummary);
      ResetSpentIsEmptyStatus(bs);
      (CalendarState(k, st.monthlyData[k := blank]), blank)
    else
      (st.(currentMonth := k), st.monthlyData[k])
  }

  /** `navigateMonth`: switches to the month before or after the current
      one, keeping every stored snapshot and adding at most the new month's;
      the new month's snapshot is handed to `onMonthChange`. */
  function NavigateMonth(st: CalendarState, bs: seq<Budget>, dir: Direction): (r: (CalendarState, MonthlyData))
    ensures Ordinal(r.0.currentMonth) == Ordinal(st.currentMonth) + (if dir == Next then 1 else -1)
    ensures r.0.monthlyData.Keys == st.monthlyData.Keys + {r.0.currentMonth}
    ensures forall j :: j in st.monthlyData ==> r.0.monthlyData[j] == st.monthlyData[j]
    ensures r.1 == r.0.monthlyData[r.0.currentMonth]
    ensures r.0.currentMonth !in st.monthlyData ==>
              r.1.month == r.0.currentMonth && r.1.transactions == [] && r.1.summary == ZeroSummary
              && r.1.budgets == GetBudgetStatus(bs, [])
    ensures Consistent(st) ==> Consistent(r.0)
  {
    SwitchToMonth(st, bs, if dir == Prev then PrevMonth(st.currentMonth) else NextMonth(st.currentMonth))
  }

  /** Stepping forward and back returns to the original month without adding
      a further snapshot, and shows that month's stored snapshot. */
  lemma NavigateNextThenPrev(st: CalendarState, bs: seq<Budget>)
    requires Consistent(st)
    ensures var (mid, _) := NavigateMonth(st, bs, Next);
            var (back, shown) := NavigateMonth(mid, bs, Prev);
            back.currentMonth == st.currentMonth
            && back.monthlyData == mid.monthlyData
            && shown == st.monthlyData[st.currentMonth]
  {
    NextPrevInverse(st.currentMonth);
  }

  /** The refresh effect: the current month's snapshot takes the live
      transactions, their budget status and their summary, keeping its month
      label; every other snapshot stays as it was. */
  function Refresh(st: CalendarState, ts: seq<Transaction>, bs: seq<Budget>): (r: CalendarState)
    ensures r.currentMonth == st.currentMonth
    ensures r.monthlyData.Keys == st.monthlyData.Keys + {st.currentMonth}
    ensures forall j :: j in st.monthlyData && j != st.currentMonth ==> r.monthlyData[j] == st.monthlyData[j]
    ensures st.currentMonth in r.monthlyData
    ensures var d := r.monthlyData[st.currentMonth];
            d.month == GetCurrentMonthData(st).month
            && d.transactions == ts && d.summary == CalculateSummary(ts) && d.budgets == GetBudgetStatus(bs, ts)
    ensures Consistent(st) ==> Consistent(r)
  {
    var cur := GetCurrentMonthData(st);
    var updated := cur.(transactions := ts, budgets := GetBudgetStatus(bs, ts), summary := CalculateSummary(ts));
    var r := st.(monthlyData := st.monthlyData[st.currentMonth := updated]);
    assert r.monthlyData[st.currentMonth] == updated;
    assert Consistent(st) ==> Consistent(r) by {
      if Consistent(st) {
        StoreKeepsConsistent(st, st.currentMonth, updated);
      }
    }
    r
  }

  /** Storing a well-formed snapshot keeps the state consistent. */
  lemma StoreKeepsConsistent(st: CalendarState, k: Month, d: MonthlyData)
    requires Consistent(st)
    requires d.month == k && d.summary == CalculateSummary(d.transactions)
    ensures Consistent(st.(monthlyData := st.monthlyData[k := d]))
  {
    var m := st.monthlyData[k := d];
    forall j | j in m ensures SnapshotOk(j, m[j]) {
      if j != k { assert m[j] == st.monthlyData[j]; }
    }
  }

  /** A refresh with the data the current snapshot already holds changes
      nothing. */
  lemma RefreshUnchanged(st: CalendarState, ts: seq<Transaction>, bs: seq<Budget>)
    requires st.currentMonth in st.monthlyData
    requires var d := st.monthlyData[st.currentMonth];
             d.transactions == ts && d.budgets == GetBudgetStatus(bs, ts) && d.summary == CalculateSummary(ts)
    ensures Refresh(st, ts, bs) == st
  {
    assert st.monthlyData[st.currentMonth := st.monthlyData[st.currentMonth]] == st.monthlyData;
  }

  /** Refreshing twice with the same live data is refreshing once. */
  lemma RefreshIdempotent(st: CalendarState, ts: seq<Transaction>, bs: seq<Budget>)
    ensures Refresh(Refresh(st, ts, bs), ts, bs) == Refresh(st, ts, bs)
  {
    var once := Refresh(st, ts, bs);
    assert once.monthlyData[st.currentMonth].budgets == GetBudgetStatus(bs, ts);
    RefreshUnchanged(once, ts, bs);
  }

  /** The month chips: the keys with data, newest first, at most six. */
  function MonthChips(st: CalendarState): (r: seq<Month>)
    ensures |r| == Min(6, |st.monthlyData.Keys|)
    ensures StrictlyDescending(r)
    ensures forall i :: 0 <= i < |r| ==> r[i] in st.monthlyData
    ensures forall k :: k in st.monthlyData && k !in r ==>
              forall i :: 0 <= i < |r| ==> Ordinal(k) < Ordinal(r[i])
  {
    NewestOf(st.monthlyData.Keys, 6);
    SortDescending(st.monthlyData.Keys)[..Min(6, |st.monthlyData.Keys|)]
  }

  /** The first `count` months of a set in newest-first order are drawn from
      it and are newer than every month left out. */
  lemma NewestOf(s: set<Month>, count: nat)
    ensures var r := SortDescending(s)[..Min(count, |s|)];
            && StrictlyDescending(r)
            && (forall i :: 0 <= i < |r| ==> r[i] in s)
            && forall k :: k in s && k !in r ==> forall i :: 0 <= i < |r| ==> Ordinal(k) < Ordinal(r[i])
  {
    var all := SortDescending(s);
    var n := Min(count, |all|);
    PrefixIsNewest(all, n);
    forall i | 0 <= i < n ensures all[..n][i] in s {
      assert all[..n][i] == all[i];
    }
  }

  /** The first `n` keys of a newest-first list are newer than the rest. */
  lemma PrefixIsNewest(all: seq<Month>, n: nat)
    requires StrictlyDescending(all) && n <= |all|
    ensures StrictlyDescending(all[..n])
    ensures forall k :: k in all && k !in all[..n] ==>
              forall i :: 0 <= i < n ==> Ordinal(k) < Ordinal(all[..n][i])
  {
    var pre := all[..n];
    forall i, j | 0 <= i < j < n ensures Ordinal(pre[i]) > Ordinal(pre[j]) {
      assert pre[i] == all[i] && pre[j] == all[j];
    }
    forall k, i | k in all && k !in pre && 0 <= i < n
      ensures Ordinal(k) < Ordinal(pre[i])
    {
      assert all == pre + all[n..];
      assert k in all[n..];
      var j :| 0 <= j < |all| - n && all[n..][j] == k;
      assert all[n + j] == k && pre[i] == all[i];
    }
  }
}
