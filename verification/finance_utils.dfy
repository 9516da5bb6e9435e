/** The derivation functions of `src/utils/financeUtils.ts` and the seeded
    category catalog of `src/data/mockData.ts`: category lookup, the
    summary, per-category totals, the most recent transactions and budget
    status. */
module FinanceUtils {

  import opened Collections
  import opened Dates
  import opened Domain

  /** The seeded catalog. Ids "4" (income) and "13" (expense) share the
      name "אחר" ("other"). */
  const Categories: seq<Category> := [
    Category("1", "משכורת", Income),
    Category("2", "מתנות", Income),
    Category("3", "השקעות", Income),
    Category("4", "אחר", Income),
    Category("5", "מזון", Expense),
    Category("6", "תחבורה", Expense),
    Category("7", "בידור", Expense),
    Category("8", "קניות", Expense),
    Category("9", "חשבונות", Expense),
    Category("10", "דיור", Expense),
    Category("11", "בריאות", Expense),
    Category("12", "חינוך", Expense),
    Category("13", "אחר", Expense)
  ]

  /** The label shown for an id that is not in the catalog ("unknown"). */
  const UnknownCategory: string := "לא ידוע"

  // ---- category lookup ----

  /** `Array.find` on a catalog: the first entry with the id. */
  function FindCategory(cats: seq<Category>, id: string): (r: Option<Category>)
    ensures r.None? <==> forall i :: 0 <= i < |cats| ==> cats[i].id != id
    ensures r.Some? ==> exists i :: 0 <= i < |cats| && cats[i] == r.value && cats[i].id == id
                          && forall j :: 0 <= j < i ==> cats[j].id != id
  {
    if |cats| == 0 then None
    else if cats[0].id == id then Some(cats[0])
    else
      var r := FindCategory(cats[1..], id);
      assert r.Some? ==> exists i :: 1 <= i < |cats| && cats[i] == r.value && cats[i].id == id
                            && forall j :: 0 <= j < i ==> cats[j].id != id by {
        if r.Some? {
          var i :| 0 <= i < |cats| - 1 && cats[1..][i] == r.value && cats[1..][i].id == id
                   && forall j :: 0 <= j < i ==> cats[1..][j].id != id;
          assert forall j :: 0 <= j < i + 1 ==> cats[j].id != id by {
            forall j | 0 <= j < i + 1 ensures cats[j].id != id {
              if j > 0 { assert cats[j] == cats[1..][j - 1]; }
            }
          }
        }
      }
      r
  }

  predicate DistinctIds(cats: seq<Category>)
  {
    forall i, j :: 0 <= i < j < |cats| ==> cats[i].id != cats[j].id
  }

  /** The ids are "1" to "13" in order: the one-digit ids differ in their
      digit, a one-digit id differs from a two-digit one in length, and the
      two-digit ids differ in their second digit. */
  lemma CatalogIdsDistinct()
    ensures DistinctIds(Categories)
  {
    forall i, j | 0 <= i < j < |Categories| ensures Categories[i].id != Categories[j].id {
      if j < 9 {
        assert Categories[i].id[0] != Categories[j].id[0];
      } else if i < 9 {
        assert |Categories[i].id| == 1 && |Categories[j].id| == 2;
      } else {
        assert Categories[i].id[1] != Categories[j].id[1];
      }
    }
  }

  /** `getCategoryById`. */
  function GetCategoryById(id: string): (r: Option<Category>)
    ensures r.Some? ==> r.value in Categories && r.value.id == id
    ensures r.None? <==> forall i :: 0 <= i < |Categories| ==> Categories[i].id != id
  {
    FindCategory(Categories, id)
  }

  /** `getCategoryNameById`: the catalog name of a known id, the "unknown"
      label otherwise. */
  function GetCategoryNameById(id: string): (r: string)
    ensures forall i :: 0 <= i < |Categories| && Categories[i].id == id ==> r == Categories[i].name
    ensures (forall i :: 0 <= i < |Categories| ==> Categories[i].id != id) ==> r == UnknownCategory
  {
    CatalogIdsDistinct();
    match GetCategoryById(id)
    case Some(c) => c.name
    case None => UnknownCategory
  }

  /** The two "other" categories resolve to one name. */
  lemma OtherCategoriesShareName()
    ensures GetCategoryNameById("4") == GetCategoryNameById("13") == "אחר"
  {
    assert Categories[3].id == "4" && Categories[3].name == "אחר";
    assert GetCategoryNameById("4") == "אחר";
    assert Categories[12].id == "13" && Categories[12].name == "אחר";
    assert GetCategoryNameById("13") == "אחר";
  }

  // ---- summary ----

  /** `calculateSummary`: income and expense totals, savings as their
      difference, and the expense totals paid by credit and by cash. */
  function CalculateSummary(ts: seq<Transaction>): (r: Summary)
    ensures r.totalSaved == r.totalIncome - r.totalExpense
    ensures ts == [] ==> r == ZeroSummary
  {
    var income := SumOf(Filter(ts, IsIncome), AmountOf);
    var expense := SumOf(Filter(ts, IsExpense), AmountOf);
    Summary(
      income,
      expense,
      income - expense,
      SumOf(Filter(ts, IsCreditExpense), AmountOf),
      SumOf(Filter(ts, IsCashExpense), AmountOf))
  }

  /** One transaction's contribution to a running summary: a reference
      definition of the summary as a single left-to-right pass. */
  function Accumulate(s: Summary, t: Transaction): Summary
  {
    match t.txType
    case Income =>
      s.(totalIncome := s.totalIncome + t.amount, totalSaved := s.totalSaved + t.amount)
    case Expense =>
      s.(totalExpense := s.totalExpense + t.amount,
         totalSaved := s.totalSaved - t.amount,
         creditDebt := if t.paymentMethod == Credit then s.creditDebt + t.amount else s.creditDebt,
         cashSpent := if t.paymentMethod == Cash then s.cashSpent + t.amount else s.cashSpent)
  }

  /** Sums over a filter grow by the appended element exactly when it passes. */
  lemma FilteredSumStep(ts: seq<Transaction>, t: Transaction, p: Transaction -> bool)
    ensures SumOf(Filter(ts + [t], p), AmountOf)
         == SumOf(Filter(ts, p), AmountOf) + (if p(t) then t.amount else 0.0)
  {
    assert (ts + [t])[..|ts|] == ts;
    var f := Filter(ts, p);
    assert (f + [t])[..|f|] == f;
  }

  /** Appending a transaction updates the summary by that transaction's
      contribution, so the summary is the fold of `Accumulate`. */
  lemma SummaryStep(ts: seq<Transaction>, t: Transaction)
    ensures CalculateSummary(ts + [t]) == Accumulate(CalculateSummary(ts), t)
  {
    var before, after := CalculateSummary(ts), CalculateSummary(ts + [t]);
    assert after.totalIncome == before.totalIncome + (if IsIncome(t) then t.amount else 0.0) by {
      FilteredSumStep(ts, t, IsIncome);
    }
    assert after.totalExpense == before.totalExpense + (if IsExpense(t) then t.amount else 0.0) by {
      FilteredSumStep(ts, t, IsExpense);
    }
    assert after.creditDebt == before.creditDebt + (if IsCreditExpense(t) then t.amount else 0.0) by {
      FilteredSumStep(ts, t, IsCreditExpense);
    }
    assert after.cashSpent == before.cashSpent + (if IsCashExpense(t) then t.amount else 0.0) by {
      FilteredSumStep(ts, t, IsCashExpense);
    }
    AccumulateByFields(before, after, t);
  }

  /** `Accumulate` is characterised by how each figure moves. */
  lemma AccumulateByFields(before: Summary, after: Summary, t: Transaction)
    requires before.totalSaved == before.totalIncome - before.totalExpense
    requires after.totalSaved == after.totalIncome - after.totalExpense
    requires after.totalIncome == before.totalIncome + (if IsIncome(t) then t.amount else 0.0)
    requires after.totalExpense == before.totalExpense + (if IsExpense(t) then t.amount else 0.0)
    requires after.creditDebt == before.creditDebt + (if IsCreditExpense(t) then t.amount else 0.0)
    requires after.cashSpent == before.cashSpent + (if IsCashExpense(t) then t.amount else 0.0)
    ensures after == Accumulate(before, t)
  {
  }

  /** With non-negative amounts the totals are non-negative, and the credit
      and cash figures together never exceed the expense total. */
  lemma SummaryBounds(ts: seq<Transaction>)
    requires NonnegAmounts(ts)
    ensures CalculateSummary(ts).totalIncome >= 0.0
    ensures CalculateSummary(ts).totalExpense >= 0.0
    ensures CalculateSummary(ts).creditDebt >= 0.0
    ensures CalculateSummary(ts).cashSpent >= 0.0
    ensures CalculateSummary(ts).creditDebt + CalculateSummary(ts).cashSpent
            <= CalculateSummary(ts).totalExpense
  {
    FilterElements(ts, IsIncome);
    FilterElements(ts, IsExpense);
    FilterElements(ts, IsCreditExpense);
    FilterElements(ts, IsCashExpense);
    SumNonneg(Filter(ts, IsIncome), AmountOf);
    SumNonneg(Filter(ts, IsExpense), AmountOf);
    SumNonneg(Filter(ts, IsCreditExpense), AmountOf);
    SumNonneg(Filter(ts, IsCashExpense), AmountOf);
    SumDisjointFilters(ts, IsCreditExpense, IsCashExpense, IsExpense, AmountOf);
  }

  /** Income and expense together account for every amount. */
  lemma IncomeExpenseSplit(ts: seq<Transaction>)
    ensures CalculateSummary(ts).totalIncome + CalculateSummary(ts).totalExpense
            == SumOf(ts, AmountOf)
  {
    SumFilterSplit(ts, IsIncome, IsExpense, AmountOf);
  }

  // ---- per-category totals ----

  /** One entry of the object `getTransactionsByCategory` builds; entries
      keep the order in which their names first occur. */
  datatype Bucket = Bucket(name: string, total: real)

  function TotalOf(b: Bucket): real { b.total }

  predicate DistinctNames(bs: seq<Bucket>)
  {
    forall i, j :: 0 <= i < j < |bs| ==> bs[i].name != bs[j].name
  }

  /** The names of the entries, in order. */
  function Names(bs: seq<Bucket>): (ns: seq<string>)
    ensures |ns| == |bs|
    ensures forall i :: 0 <= i < |bs| ==> ns[i] == bs[i].name
  {
    seq(|bs|, i requires 0 <= i < |bs| => bs[i].name)
  }

  /** Position of the last occurrence of `name`, or -1. */
  function LastIndexOf(ns: seq<string>, name: string): (r: int)
    ensures -1 <= r < |ns|
    ensures r >= 0 ==> ns[r] == name
    ensures r == -1 <==> forall i :: 0 <= i < |ns| ==> ns[i] != name
  {
    if |ns| == 0 then -1
    else if ns[|ns|-1] == name then |ns| - 1
    else LastIndexOf(ns[..|ns|-1], name)
  }

  /** Position of the entry for `name`, or -1. */
  function BucketIndex(bs: seq<Bucket>, name: string): (r: int)
    ensures -1 <= r < |bs|
    ensures r >= 0 ==> bs[r].name == name
    ensures r == -1 <==> forall i :: 0 <= i < |bs| ==> bs[i].name != name
  {
    LastIndexOf(Names(bs), name)
  }

  /** Appending an entry: its own name is found at the end, other names
      where they were. */
  lemma BucketIndexSnoc(bs: seq<Bucket>, b: Bucket, k: string)
    ensures BucketIndex(bs + [b], k) == if b.name == k then |bs| else BucketIndex(bs, k)
  {
    var ns := Names(bs + [b]);
    assert ns[..|bs|] == Names(bs);
  }

  /** The value stored under `name`, 0 when there is none (the reads of
      `result[name]` with the missing-entry default). */
  function Lookup(bs: seq<Bucket>, name: string): real
  {
    var i := BucketIndex(bs, name);
    if i < 0 then 0.0 else bs[i].total
  }

  /** `if (!result[k]) result[k] = 0; result[k] += amount`: the entry for
      `name` grows by the amount (it is created when missing), and so does
      the total of all entries. */
  function AddToBucket(bs: seq<Bucket>, name: string, amount: real): (r: seq<Bucket>)
    ensures Lookup(r, name) == Lookup(bs, name) + amount
    ensures SumOf(r, TotalOf) == SumOf(bs, TotalOf) + amount
  {
    var i := BucketIndex(bs, name);
    if i < 0 then
      var r := bs + [Bucket(name, amount)];
      BucketIndexSnoc(bs, Bucket(name, amount), name);
      assert r[|bs|] == Bucket(name, amount);
      assert Lookup(r, name) == amount && Lookup(bs, name) == 0.0;
      SumSnoc(bs, Bucket(name, amount), TotalOf);
      r
    else
      var r := bs[i := Bucket(name, bs[i].total + amount)];
      BucketIndexUpdate(bs, i, bs[i].total + amount, name);
      assert Lookup(r, name) == r[i].total == bs[i].total + amount;
      SumOneChanged(bs, r, i, TotalOf);
      r
  }

  /** Every other name keeps its entry and its value; `name` has an entry
      afterwards. */
  lemma AddToBucketLookup(bs: seq<Bucket>, name: string, amount: real, k: string)
    ensures var r := AddToBucket(bs, name, amount);
            && Lookup(r, k) == Lookup(bs, k) + (if k == name then amount else 0.0)
            && (BucketIndex(r, k) >= 0 <==> BucketIndex(bs, k) >= 0 || k == name)
  {
    var i := BucketIndex(bs, name);
    if i < 0 {
      var r := bs + [Bucket(name, amount)];
      assert AddToBucket(bs, name, amount) == r;
      BucketIndexSnoc(bs, Bucket(name, amount), k);
      if k != name {
        assert BucketIndex(bs, k) >= 0 ==> r[BucketIndex(bs, k)] == bs[BucketIndex(bs, k)];
      }
    } else {
      var r := bs[i := Bucket(name, bs[i].total + amount)];
      assert AddToBucket(bs, name, amount) == r;
      BucketIndexUpdate(bs, i, bs[i].total + amount, k);
    }
  }

  /** Adding never makes two entries share a name. */
  lemma AddToBucketDistinct(bs: seq<Bucket>, name: string, amount: real)
    requires DistinctNames(bs)
    ensures DistinctNames(AddToBucket(bs, name, amount))
  {
    var i := BucketIndex(bs, name);
    if i < 0 {
      assert AddToBucket(bs, name, amount) == bs + [Bucket(name, amount)];
      SnocDistinct(bs, Bucket(name, amount));
    } else {
      var r := bs[i := Bucket(name, bs[i].total + amount)];
      assert AddToBucket(bs, name, amount) == r;
      assert forall p :: 0 <= p < |r| ==> r[p].name == bs[p].name;
    }
  }

  /** A name not yet present can be appended. */
  lemma SnocDistinct(bs: seq<Bucket>, b: Bucket)
    requires DistinctNames(bs)
    requires forall p :: 0 <= p < |bs| ==> bs[p].name != b.name
    ensures DistinctNames(bs + [b])
  {
    var r := bs + [b];
    forall p, q | 0 <= p < q < |r| ensures r[p].name != r[q].name {
      assert r[p] == bs[p];
      if q < |bs| { assert r[q] == bs[q]; }
    }
  }

  /** Changing an entry's total leaves every position where it was. */
  lemma BucketIndexUpdate(bs: seq<Bucket>, i: int, v: real, k: string)
    requires 0 <= i < |bs|
    ensures BucketIndex(bs[i := Bucket(bs[i].name, v)], k) == BucketIndex(bs, k)
  {
    assert Names(bs[i := Bucket(bs[i].name, v)]) == Names(bs);
  }

  /** The category name a transaction is bucketed under. */
  function NameOf(t: Transaction): string
  {
    GetCategoryNameById(t.category)
  }

  function HasKey(key: Transaction -> string, k: string): Transaction -> bool
  {
    (t: Transaction) => key(t) == k
  }

  /** Some transaction has the key `k`. */
  predicate Mentions(ts: seq<Transaction>, key: Transaction -> string, k: string)
  {
    exists i :: 0 <= i < |ts| && key(ts[i]) == k
  }

  lemma MentionsStep(init: seq<Transaction>, t: Transaction, key: Transaction -> string, k: string)
    ensures Mentions(init + [t], key, k) <==> Mentions(init, key, k) || key(t) == k
  {
    var ts := init + [t];
    if Mentions(ts, key, k) {
      var i :| 0 <= i < |ts| && key(ts[i]) == k;
      if i < |init| { assert init[i] == ts[i]; }
    }
    if Mentions(init, key, k) {
      var i :| 0 <= i < |init| && key(init[i]) == k;
      assert ts[i] == init[i];
    }
    if key(t) == k {
      assert ts[|init|] == t;
    }
  }

  /** The `forEach` of `getTransactionsByCategory` for an arbitrary key:
      each transaction's amount goes to the entry of its key, so the entries
      together hold the total of all amounts. */
  function GroupTotals(ts: seq<Transaction>, key: Transaction -> string): (r: seq<Bucket>)
    ensures SumOf(r, TotalOf) == SumOf(ts, AmountOf)
  {
    if |ts| == 0 then []
    else
      var init := ts[..|ts|-1];
      var t := ts[|ts|-1];
      assert ts == init + [t];
      SumSnoc(init, t, AmountOf);
      AddToBucket(GroupTotals(init, key), key(t), t.amount)
  }

  /** Grouping one more transaction adds it to its key's entry. */
  lemma GroupTotalsSnoc(init: seq<Transaction>, t: Transaction, key: Transaction -> string)
    ensures GroupTotals(init + [t], key) == AddToBucket(GroupTotals(init, key), key(t), t.amount)
  {
    assert (init + [t])[..|init|] == init;
  }

  /** Per key: there is an entry exactly when some transaction has the key,
      and it holds the sum of their amounts. */
  lemma {:induction false} GroupTotalsKey(ts: seq<Transaction>, key: Transaction -> string, k: string)
    ensures var r := GroupTotals(ts, key);
            && (BucketIndex(r, k) >= 0 <==> Mentions(ts, key, k))
            && Lookup(r, k) == SumOf(Filter(ts, HasKey(key, k)), AmountOf)
  {
    if |ts| > 0 {
      var init := ts[..|ts|-1];
      var t := ts[|ts|-1];
      assert ts == init + [t];
      GroupTotalsKey(init, key, k);
      GroupTotalsSnoc(init, t, key);
      GroupStep(init, t, key, k, GroupTotals(init, key));
    }
  }

  /** The per-key facts carry over one added transaction. */
  lemma GroupStep(init: seq<Transaction>, t: Transaction, key: Transaction -> string, k: string,
                  prev: seq<Bucket>)
    requires BucketIndex(prev, k) >= 0 <==> Mentions(init, key, k)
    requires Lookup(prev, k) == SumOf(Filter(init, HasKey(key, k)), AmountOf)
    ensures var r := AddToBucket(prev, key(t), t.amount);
            && (BucketIndex(r, k) >= 0 <==> Mentions(init + [t], key, k))
            && Lookup(r, k) == SumOf(Filter(init + [t], HasKey(key, k)), AmountOf)
  {
    AddToBucketLookup(prev, key(t), t.amount, k);
    FilteredSumStep(init, t, HasKey(key, k));
    MentionsStep(init, t, key, k);
  }

  /** One entry per key. */
  lemma {:induction false} GroupTotalsDistinct(ts: seq<Transaction>, key: Transaction -> string)
    ensures DistinctNames(GroupTotals(ts, key))
  {
    if |ts| > 0 {
      var init := ts[..|ts|-1];
      var t := ts[|ts|-1];
      GroupTotalsDistinct(init, key);
      AddToBucketDistinct(GroupTotals(init, key), key(t), t.amount);
    }
  }

  /** `getTransactionsByCategory`: totals keyed by resolved category name,
      so ids that resolve to one name share an entry. */
  function GetTransactionsByCategory(ts: seq<Transaction>): (r: seq<Bucket>)
    ensures DistinctNames(r)
    ensures forall k :: BucketIndex(r, k) >= 0 <==> Mentions(ts, NameOf, k)
    ensures forall k :: Lookup(r, k) == SumOf(Filter(ts, HasKey(NameOf, k)), AmountOf)
    ensures SumOf(r, TotalOf) == SumOf(ts, AmountOf)
  {
    var r := GroupTotals(ts, NameOf);
    GroupTotalsDistinct(ts, NameOf);
    assert forall k :: (BucketIndex(r, k) >= 0 <==> Mentions(ts, NameOf, k))
                       && Lookup(r, k) == SumOf(Filter(ts, HasKey(NameOf, k)), AmountOf) by {
      forall k ensures (BucketIndex(r, k) >= 0 <==> Mentions(ts, NameOf, k))
                       && Lookup(r, k) == SumOf(Filter(ts, HasKey(NameOf, k)), AmountOf) {
        GroupTotalsKey(ts, NameOf, k);
      }
    }
    r
  }

  lemma AddToEmpty(name: string, x: real)
    ensures AddToBucket([], name, x) == [Bucket(name, x)]
  {
    assert BucketIndex([], name) == -1;
  }

  lemma GroupOne(a: Transaction, key: Transaction -> string)
    ensures GroupTotals([a], key) == [Bucket(key(a), a.amount)]
  {
    GroupTotalsSnoc([], a, key);
    assert [] + [a] == [a];
    AddToEmpty(key(a), a.amount);
  }

  lemma AddToSingleSame(name: string, x: real, y: real)
    ensures AddToBucket([Bucket(name, x)], name, y) == [Bucket(name, x + y)]
  {
    assert Names([Bucket(name, x)]) == [name];
    assert BucketIndex([Bucket(name, x)], name) == 0;
  }

  /** Two transactions with one key share one entry holding both amounts. */
  lemma GroupTwoSameKey(a: Transaction, b: Transaction, key: Transaction -> string)
    requires key(a) == key(b)
    ensures GroupTotals([a, b], key) == [Bucket(key(a), a.amount + b.amount)]
  {
    GroupOne(a, key);
    GroupTwo(a, b, key);
    AddToSingleSame(key(a), a.amount, b.amount);
  }

  lemma GroupTwo(a: Transaction, b: Transaction, key: Transaction -> string)
    ensures GroupTotals([a, b], key) == AddToBucket(GroupTotals([a], key), key(b), b.amount)
  {
    var ts := [a, b];
    assert ts[..1] == [a] && ts[1] == b;
    GroupTotalsLast(ts, key);
  }

  /** The grouping unfolded once at the last transaction. */
  lemma GroupTotalsLast(ts: seq<Transaction>, key: Transaction -> string)
    requires |ts| > 0
    ensures GroupTotals(ts, key) == AddToBucket(GroupTotals(ts[..|ts|-1], key), key(ts[|ts|-1]), ts[|ts|-1].amount)
  {
  }

  /** An income under id "4" and an expense under id "13" land in one entry. */
  lemma OtherCategoriesShareBucket(a: Transaction, b: Transaction)
    requires a.category == "4" && b.category == "13"
    ensures GetTransactionsByCategory([a, b]) == [Bucket("אחר", a.amount + b.amount)]
  {
    OtherCategoriesShareName();
    GroupTwoSameKey(a, b, NameOf);
  }

  // ---- most recent transactions ----

  /** The key a transaction is sorted by; it orders dates as the clock
      does (`StampMatchesDayIndex`). */
  function DateKey(t: Transaction): int
  {
    Stamp(t.date)
  }

  predicate SortedByDateDesc(s: seq<Transaction>)
  {
    forall i, j :: 0 <= i < j < |s| ==> DateKey(s[i]) >= DateKey(s[j])
  }

  /** Inserts `t` before the first element that is not more recent than it. */
  function InsertByDate(t: Transaction, s: seq<Transaction>): (r: seq<Transaction>)
    requires SortedByDateDesc(s)
    ensures SortedByDateDesc(r)
    ensures multiset(r) == multiset(s) + multiset{t}
    ensures |r| == |s| + 1
    ensures r[0] == t || (|s| > 0 && r[0] == s[0])
  {
    if |s| == 0 || DateKey(t) >= DateKey(s[0]) then
      ConsSorted(t, s);
      [t] + s
    else
      var rest := InsertByDate(t, s[1..]);
      assert s == [s[0]] + s[1..];
      assert DateKey(s[0]) >= DateKey(rest[0]) by {
        if |s| > 1 { assert DateKey(s[0]) >= DateKey(s[1]); }
      }
      ConsSorted(s[0], rest);
      assert multiset([s[0]] + rest) == multiset{s[0]} + multiset(rest);
      [s[0]] + rest
  }

  /** An element at least as recent as the head of a sorted list can go in
      front of it. */
  lemma ConsSorted(x: Transaction, s: seq<Transaction>)
    requires SortedByDateDesc(s)
    requires |s| > 0 ==> DateKey(x) >= DateKey(s[0])
    ensures SortedByDateDesc([x] + s)
  {
    var r := [x] + s;
    forall i, j | 0 <= i < j < |r| ensures DateKey(r[i]) >= DateKey(r[j]) {
      assert r[j] == s[j - 1];
      if i > 0 {
        assert r[i] == s[i - 1];
      } else if j > 1 {
        assert DateKey(s[0]) >= DateKey(s[j - 1]);
      }
    }
  }

  function HasDateKey(k: int): Transaction -> bool
  {
    (t: Transaction) => DateKey(t) == k
  }

  /** `Filter` of a sequence with one element in front. */
  lemma FilterCons(x: Transaction, s: seq<Transaction>, p: Transaction -> bool)
    ensures Filter([x] + s, p) == (if p(x) then [x] else []) + Filter(s, p)
  {
    FilterAppend([x], s, p);
    assert [x][..0] == [];
  }

  /** Inserting `t` puts it in front of every element with its date, so
      among equal dates it comes first. */
  lemma {:induction false} InsertKeepsEqualDatesOrder(t: Transaction, s: seq<Transaction>, k: int)
    requires SortedByDateDesc(s)
    ensures Filter(InsertByDate(t, s), HasDateKey(k)) == Filter([t] + s, HasDateKey(k))
    decreases |s|
  {
    if |s| > 0 && DateKey(t) < DateKey(s[0]) {
      var p, s0, s1 := HasDateKey(k), s[0], s[1..];
      var rest := InsertByDate(t, s1);
      assert InsertByDate(t, s) == [s0] + rest;
      assert s == [s0] + s1;
      var ft, f0 := (if p(t) then [t] else []), (if p(s0) then [s0] else []);
      assert f0 + ft == ft + f0 by {
        assert ft == [] || f0 == [];
      }
      calc {
        Filter([s0] + rest, p);
        { FilterCons(s0, rest, p); }
        f0 + Filter(rest, p);
        { InsertKeepsEqualDatesOrder(t, s1, k); }
        f0 + Filter([t] + s1, p);
        { FilterCons(t, s1, p); }
        f0 + (ft + Filter(s1, p));
        ft + (f0 + Filter(s1, p));
        { FilterCons(s0, s1, p); }
        ft + Filter(s, p);
        { FilterCons(t, s, p); }
        Filter([t] + s, p);
      }
    }
  }

  /** The comparator `(a, b) => b.date - a.date` with the stable
      `Array.prototype.sort`, as an insertion sort: newest first, and the
      transactions of any one date in their input order. */
  function SortByDateDesc(ts: seq<Transaction>): (r: seq<Transaction>)
    ensures SortedByDateDesc(r)
    ensures multiset(r) == multiset(ts)
    ensures |r| == |ts|
    ensures forall k :: Filter(r, HasDateKey(k)) == Filter(ts, HasDateKey(k))
  {
    if |ts| == 0 then []
    else
      assert ts == [ts[0]] + ts[1..];
      var rest := SortByDateDesc(ts[1..]);
      assert forall k :: Filter(InsertByDate(ts[0], rest), HasDateKey(k)) == Filter(ts, HasDateKey(k)) by {
        forall k ensures Filter(InsertByDate(ts[0], rest), HasDateKey(k)) == Filter(ts, HasDateKey(k)) {
          InsertKeepsEqualDatesOrder(ts[0], rest, k);
          FilterCons(ts[0], rest, HasDateKey(k));
          FilterCons(ts[0], ts[1..], HasDateKey(k));
        }
      }
      InsertByDate(ts[0], rest)
  }

  /** The length `slice(0, count)` keeps: a negative count counts from the end. */
  function SliceEnd(len: nat, count: int): (n: nat)
    ensures n <= len
  {
    if count >= 0 then Min(count, len)
    else if len + count > 0 then len + count else 0
  }

  /** A prefix of a newest-first list is at least as recent as everything
      left out. */
  lemma SortedPrefixIsNewest(ts: seq<Transaction>, s: seq<Transaction>, n: nat)
    requires SortedByDateDesc(s) && multiset(s) == multiset(ts) && n <= |s|
    ensures SortedByDateDesc(s[..n])
    ensures multiset(s[..n]) <= multiset(ts)
    ensures forall x :: x in multiset(ts) - multiset(s[..n]) ==>
              forall i :: 0 <= i < n ==> DateKey(x) <= DateKey(s[..n][i])
  {
    var pre, rest := s[..n], s[n..];
    assert s == pre + rest;
    assert multiset(ts) - multiset(pre) == multiset(rest);
    forall x | x in multiset(ts) - multiset(pre)
      ensures forall i :: 0 <= i < n ==> DateKey(x) <= DateKey(pre[i])
    {
      RestIsOlder(s, n, x);
    }
    PrefixSorted(s, n);
  }

  /** Everything after position `n` of a newest-first list is no newer than
      anything before it. */
  lemma RestIsOlder(s: seq<Transaction>, n: nat, x: Transaction)
    requires SortedByDateDesc(s) && n <= |s| && x in multiset(s[n..])
    ensures forall i :: 0 <= i < n ==> DateKey(x) <= DateKey(s[..n][i])
  {
    var j :| 0 <= j < |s| - n && s[n..][j] == x;
    assert s[n + j] == x;
    forall i | 0 <= i < n ensures DateKey(x) <= DateKey(s[..n][i]) {
      assert s[..n][i] == s[i];
    }
  }

  lemma PrefixSorted(s: seq<Transaction>, n: nat)
    requires SortedByDateDesc(s) && n <= |s|
    ensures SortedByDateDesc(s[..n])
  {
    forall i, j | 0 <= i < j < n ensures DateKey(s[..n][i]) >= DateKey(s[..n][j]) {
      assert s[..n][i] == s[i] && s[..n][j] == s[j];
    }
  }

  /** Cutting the stable sort after `n` keeps, of each date, a prefix of the
      transactions with that date in input order. */
  lemma SortedPrefixKeepsEarliest(ts: seq<Transaction>, n: nat)
    requires n <= |ts|
    ensures forall k :: Filter(SortByDateDesc(ts)[..n], HasDateKey(k)) <= Filter(ts, HasDateKey(k))
  {
    var sorted := SortByDateDesc(ts);
    assert sorted == sorted[..n] + sorted[n..];
    forall k ensures Filter(sorted[..n], HasDateKey(k)) <= Filter(ts, HasDateKey(k)) {
      FilterAppend(sorted[..n], sorted[n..], HasDateKey(k));
    }
  }

  /** `getRecentTransactions` (whose `count` defaults to 5): a sorted copy,
      truncated. The result is newest first, drawn from the input, and at
      least as recent as every transaction it leaves out; of the
      transactions sharing a date it keeps the earliest in input order. */
  function GetRecentTransactions(ts: seq<Transaction>, count: int): (r: seq<Transaction>)
    ensures count >= 0 ==> |r| == Min(count, |ts|)
    ensures count < 0 ==> |r| == (if |ts| + count > 0 then |ts| + count else 0)
    ensures SortedByDateDesc(r)
    ensures multiset(r) <= multiset(ts)
    ensures forall x :: x in multiset(ts) - multiset(r) ==>
              forall i :: 0 <= i < |r| ==> DateKey(x) <= DateKey(r[i])
    ensures forall k :: Filter(r, HasDateKey(k)) <= Filter(ts, HasDateKey(k))
  {
    var sorted := SortByDateDesc(ts);
    var n := SliceEnd(|ts|, count);
    SortedPrefixIsNewest(ts, sorted, n);
    SortedPrefixKeepsEarliest(ts, n);
    sorted[..n]
  }

  // ---- budget status ----

  function ExpenseInCategory(c: string): Transaction -> bool
  {
    (t: Transaction) => t.txType == Expense && t.category == c
  }

  /** The amount spent against a category: every expense of that category,
      whatever its date. */
  function BudgetSpent(ts: seq<Transaction>, c: string): real
  {
    SumOf(Filter(ts, ExpenseInCategory(c)), AmountOf)
  }

  /** `getBudgetStatus`: the budgets in order, each with `spent` recomputed
      and every other field kept. */
  function GetBudgetStatus(bs: seq<Budget>, ts: seq<Transaction>): (r: seq<Budget>)
    ensures |r| == |bs|
    ensures forall i :: 0 <= i < |r| ==>
              r[i].(spent := 0.0) == bs[i].(spent := 0.0) && r[i].spent == BudgetSpent(ts, bs[i].category)
    ensures ts == [] ==> forall i :: 0 <= i < |r| ==> r[i].spent == 0.0
  {
    if |bs| == 0 then []
    else
      var b := bs[|bs|-1];
      GetBudgetStatus(bs[..|bs|-1], ts) + [b.(spent := BudgetSpent(ts, b.category))]
  }

  /** Appending a transaction raises a budget's `spent` by its amount
      exactly when it is an expense of that budget's category. */
  lemma BudgetSpentStep(ts: seq<Transaction>, t: Transaction, c: string)
    ensures BudgetSpent(ts + [t], c)
         == BudgetSpent(ts, c) + (if t.txType == Expense && t.category == c then t.amount else 0.0)
  {
    FilteredSumStep(ts, t, ExpenseInCategory(c));
  }

  /** `BudgetSpentStep`, read from the last transaction of a list. */
  lemma BudgetSpentLast(ts: seq<Transaction>, c: string)
    requires |ts| > 0
    ensures var t := ts[|ts|-1];
            BudgetSpent(ts, c)
            == BudgetSpent(ts[..|ts|-1], c) + (if t.txType == Expense && t.category == c then t.amount else 0.0)
  {
    assert ts == ts[..|ts|-1] + [ts[|ts|-1]];
    BudgetSpentStep(ts[..|ts|-1], ts[|ts|-1], c);
  }

  /** Two lists that differ only in transaction dates. */
  predicate SameButDates(a: seq<Transaction>, b: seq<Transaction>)
  {
    |a| == |b| && forall i :: 0 <= i < |a| ==> a[i].(date := b[i].date) == b[i]
  }

  /** `spent` does not depend on dates: the budget's period does not scope it. */
  lemma {:induction false} BudgetSpentIgnoresDates(a: seq<Transaction>, b: seq<Transaction>, c: string)
    requires SameButDates(a, b)
    ensures BudgetSpent(a, c) == BudgetSpent(b, c)
  {
    if |a| > 0 {
      var a', b' := a[..|a|-1], b[..|b|-1];
      var x, y := a[|a|-1], b[|b|-1];
      SameButDatesPrefix(a, b);
      BudgetSpentIgnoresDates(a', b', c);
      BudgetSpentLast(a, c);
      BudgetSpentLast(b, c);
      assert x.txType == y.txType && x.category == y.category && x.amount == y.amount by {
        assert x.(date := y.date) == y;
      }
    }
  }

  lemma SameButDatesPrefix(a: seq<Transaction>, b: seq<Transaction>)
    requires SameButDates(a, b) && |a| > 0
    ensures SameButDates(a[..|a|-1], b[..|b|-1])
  {
    var a', b' := a[..|a|-1], b[..|b|-1];
    forall i | 0 <= i < |a'| ensures a'[i].(date := b'[i].date) == b'[i] {
      assert a'[i] == a[i] && b'[i] == b[i];
    }
  }
}
