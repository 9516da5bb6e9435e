/** The month helpers of `src/utils/dateUtils.ts`: month keys, the
    month-membership test, filtering by month and the list of months that
    occur in a transaction list, newest first. */
module DateUtils {

  import opened Collections
  import opened Dates
  import opened Domain

  /** `getMonthKey`: the "YYYY-MM" text of the month a date lies in, with a
      zero-padded month; it reads back as that month. */
  function GetMonthKey(d: CalendarDate): (s: string)
    requires 0 <= d.year <= 9999
    ensures |s| == 7 && s[4] == '-'
    ensures ParseKey(s) == Some(MonthOf(d))
  {
    KeyStringRoundTrip(MonthOf(d));
    KeyString(MonthOf(d))
  }

  /** `isTransactionInMonth`: the date lies between the first and the last
      day of the month, which is the case exactly when the date's year and
      month are the key's. */
  function IsTransactionInMonth(d: CalendarDate, k: Month): (r: bool)
    ensures r <==> d.year == k.year && d.month == k.month
  {
    InMonthIff(d, k);
    InMonth(d, k)
  }

  function InMonthOf(k: Month): Transaction -> bool
  {
    (t: Transaction) => IsTransactionInMonth(t.date, k)
  }

  function HasMonthKey(k: Month): Transaction -> bool
  {
    (t: Transaction) => MonthOf(t.date) == k
  }

  /** `filterTransactionsByMonth`: the transactions of month `k`, in order. */
  function FilterTransactionsByMonth(ts: seq<Transaction>, k: Month): (r: seq<Transaction>)
    ensures SubseqOf(r, ts)
    ensures forall i :: 0 <= i < |r| ==> MonthOf(r[i].date) == k
    ensures forall i :: 0 <= i < |ts| && MonthOf(ts[i].date) == k ==> ts[i] in r
  {
    FilterComplete(ts, InMonthOf(k));
    Filter(ts, InMonthOf(k))
  }

  /** Filtering by the interval test is filtering by equality of month keys. */
  lemma FilterByMonthIsKeyFilter(ts: seq<Transaction>, k: Month)
    ensures FilterTransactionsByMonth(ts, k) == Filter(ts, HasMonthKey(k))
  {
    FilterExt(ts, InMonthOf(k), HasMonthKey(k));
  }

  /** The months of a list split it: every transaction is kept by the filter
      of its own month and by no other. */
  lemma FilterByMonthPartition(ts: seq<Transaction>, i: int, k: Month)
    requires 0 <= i < |ts|
    ensures ts[i] in FilterTransactionsByMonth(ts, MonthOf(ts[i].date))
    ensures k != MonthOf(ts[i].date) ==> ts[i] !in FilterTransactionsByMonth(ts, k)
  {
    var r := FilterTransactionsByMonth(ts, k);
    if ts[i] in r {
      var j :| 0 <= j < |r| && r[j] == ts[i];
    }
  }

  // ---- the available months ----

  /** Some transaction lies in month `k`. */
  predicate HasMonth(ts: seq<Transaction>, k: Month)
  {
    exists i :: 0 <= i < |ts| && MonthOf(ts[i].date) == k
  }

  /** The `Set` the `forEach` of `getAllAvailableMonths` fills. */
  function MonthSet(ts: seq<Transaction>): (s: set<Month>)
    ensures forall k :: k in s <==> HasMonth(ts, k)
  {
    set i | 0 <= i < |ts| :: MonthOf(ts[i].date)
  }

  predicate StrictlyDescending(ks: seq<Month>)
  {
    forall i, j :: 0 <= i < j < |ks| ==> Ordinal(ks[i]) > Ordinal(ks[j])
  }

  lemma {:induction false} LatestExists(s: set<Month>)
    requires s != {}
    ensures exists m :: m in s && forall x :: x in s ==> Ordinal(x) <= Ordinal(m)
    decreases |s|
  {
    var y :| y in s;
    var rest := s - {y};
    if rest == {} {
      assert s == {y};
    } else {
      LatestExists(rest);
      var m :| m in rest && forall x :: x in rest ==> Ordinal(x) <= Ordinal(m);
      if Ordinal(y) <= Ordinal(m) {
        assert forall x :: x in s ==> Ordinal(x) <= Ordinal(m);
      } else {
        assert forall x :: x in s ==> Ordinal(x) <= Ordinal(y);
      }
    }
  }

  /** The newest month of a non-empty set. */
  function Latest(s: set<Month>): (m: Month)
    requires s != {}
    ensures m in s
    ensures forall x :: x in s ==> Ordinal(x) <= Ordinal(m)
  {
    LatestExists(s);
    assert forall a: Month, b: Month :: Ordinal(a) == Ordinal(b) ==> a == b;
    var m :| m in s && forall x :: x in s ==> Ordinal(x) <= Ordinal(m);
    m
  }

  /** `Array.from(set).sort().reverse()` on month keys: every key once,
      newest first. */
  function SortDescending(s: set<Month>): (r: seq<Month>)
    ensures StrictlyDescending(r)
    ensures forall k :: k in r <==> k in s
    ensures |r| == |s|
    decreases |s|
  {
    if s == {} then []
    else
      var m := Latest(s);
      var rest := SortDescending(s - {m});
      assert forall i :: 0 <= i < |rest| ==> Ordinal(rest[i]) < Ordinal(m) by {
        forall i | 0 <= i < |rest| ensures Ordinal(rest[i]) < Ordinal(m) {
          OrdinalInjective(rest[i], m);
        }
      }
      ConsDescending(m, rest);
      [m] + rest
  }

  /** A month newer than every month of a strictly descending list can go
      in front of it. */
  lemma ConsDescending(m: Month, rest: seq<Month>)
    requires StrictlyDescending(rest)
    requires forall i :: 0 <= i < |rest| ==> Ordinal(rest[i]) < Ordinal(m)
    ensures StrictlyDescending([m] + rest)
    ensures forall k :: k in [m] + rest <==> k == m || k in rest
  {
    var r := [m] + rest;
    forall i, j | 0 <= i < j < |r| ensures Ordinal(r[i]) > Ordinal(r[j]) {
      assert r[j] == rest[j - 1];
      if i > 0 { assert r[i] == rest[i - 1]; }
    }
  }

  /** `getAllAvailableMonths`: the months the transactions fall in, each
      once, newest first. */
  function GetAllAvailableMonths(ts: seq<Transaction>): (r: seq<Month>)
    ensures StrictlyDescending(r)
    ensures forall i, j :: 0 <= i < j < |r| ==> r[i] != r[j]
    ensures forall k :: k in r <==> HasMonth(ts, k)
  {
    SortDescending(MonthSet(ts))
  }

  /** Every transaction falls in exactly one of the listed months. */
  lemma EachTransactionInOneMonth(ts: seq<Transaction>, i: int)
    requires 0 <= i < |ts|
    ensures var r := GetAllAvailableMonths(ts);
            exists j :: 0 <= j < |r| && IsTransactionInMonth(ts[i].date, r[j])
    ensures var r := GetAllAvailableMonths(ts);
            forall j, j' :: 0 <= j < |r| && 0 <= j' < |r|
              && IsTransactionInMonth(ts[i].date, r[j]) && IsTransactionInMonth(ts[i].date, r[j'])
              ==> j == j'
  {
    var r := GetAllAvailableMonths(ts);
    var own := MonthOf(ts[i].date);
    assert HasMonth(ts, own);
    var j :| 0 <= j < |r| && r[j] == own;
    assert IsTransactionInMonth(ts[i].date, r[j]);
  }
}
