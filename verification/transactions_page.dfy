/** The transactions page (`TransactionsPage.tsx`): adding a transaction to
    the page's list, and the list it shows, filtered by a case-insensitive
    search over the description and the category name, by type and by
    payment method. */
module TransactionsPage {

  import opened Collections
  import opened Domain
  import opened FinanceUtils

  /** The selector value that lets everything through. */
  const All: string := "all"

  /** `toLowerCase` on one character: the Latin capitals move to the small
      letters, every other character (Hebrew letters, digits, punctuation)
      is its own lower case. */
  function LowerChar(c: char): (r: char)
    ensures 'A' <= c <= 'Z' ==> 'a' <= r <= 'z' && r as int == c as int + 32
    ensures !('A' <= c <= 'Z') ==> r == c
  {
    if 'A' <= c <= 'Z' then (c as int + 32) as char else c
  }

  /** `toLowerCase`, character by character. */
  function Lower(s: string): (r: string)
    ensures |r| == |s|
    ensures forall i :: 0 <= i < |s| ==> r[i] == LowerChar(s[i])
  {
    seq(|s|, i requires 0 <= i < |s| => LowerChar(s[i]))
  }

  /** Lowering twice is lowering once. */
  lemma LowerIdempotent(s: string)
    ensures Lower(Lower(s)) == Lower(s)
  {
  }

  /** `sub` occurs in `s` starting at position `i`. */
  predicate OccursAt(s: string, sub: string, i: int)
  {
    0 <= i && i + |sub| <= |s| && s[i..i + |sub|] == sub
  }

  /** `includes`: `sub` occurs in `s` at some position. */
  predicate Contains(s: string, sub: string)
  {
    exists i :: 0 <= i <= |s| && OccursAt(s, sub, i)
  }

  /** Lowering commutes with taking a slice, so a literal occurrence is also
      an occurrence after lowering both sides. */
  lemma ContainsLowered(s: string, sub: string)
    requires Contains(s, sub)
    ensures Contains(Lower(s), Lower(sub))
  {
    var i :| 0 <= i <= |s| && OccursAt(s, sub, i);
    assert i + |sub| <= |s| && s[i..i + |sub|] == sub;
    assert forall k :: 0 <= k < |sub| ==> Lower(s)[i + k] == LowerChar(sub[k]) by {
      forall k | 0 <= k < |sub| ensures Lower(s)[i + k] == LowerChar(sub[k]) {
        assert s[i + k] == s[i..i + |sub|][k];
      }
    }
    assert Lower(s)[i..i + |sub|] == Lower(sub);
    assert OccursAt(Lower(s), Lower(sub), i);
  }

  lemma ContainsEmpty(s: string)
    ensures Contains(s, [])
  {
    assert s[0..0] == [];
    assert OccursAt(s, [], 0);
  }

  /** `matchesFilter`. */
  predicate SearchMatches(t: Transaction, query: string)
  {
    Contains(Lower(t.description), Lower(query))
    || Contains(Lower(GetCategoryNameById(t.category)), Lower(query))
  }

  /** `matchesType`: "all", or the stored type text. */
  predicate TypeMatches(t: Transaction, sel: string)
  {
    sel == All || TypeName(t.txType) == sel
  }

  /** `matchesPayment`: "all", or the stored payment-method text. */
  predicate MethodMatches(t: Transaction, sel: string)
  {
    sel == All || MethodName(t.paymentMethod) == sel
  }

  predicate Shown(t: Transaction, query: string, typeSel: string, methodSel: string)
  {
    SearchMatches(t, query) && TypeMatches(t, typeSel) && MethodMatches(t, methodSel)
  }

  function ShownBy(query: string, typeSel: string, methodSel: string): Transaction -> bool
  {
    (t: Transaction) => Shown(t, query, typeSel, methodSel)
  }

  /** `filteredTransactions`: the transactions passing all three tests, in
      their order. */
  function FilteredTransactions(ts: seq<Transaction>, query: string, typeSel: string, methodSel: string): (r: seq<Transaction>)
    ensures SubseqOf(r, ts)
    ensures forall i :: 0 <= i < |r| ==> Shown(r[i], query, typeSel, methodSel)
    ensures forall i :: 0 <= i < |ts| && Shown(ts[i], query, typeSel, methodSel) ==> ts[i] in r
    ensures |r| == Count(ts, ShownBy(query, typeSel, methodSel))
  {
    FilterComplete(ts, ShownBy(query, typeSel, methodSel));
    Filter(ts, ShownBy(query, typeSel, methodSel))
  }

  /** An empty search with both selectors on "all" shows every transaction. */
  lemma UnfilteredShowsAll(ts: seq<Transaction>)
    ensures FilteredTransactions(ts, [], All, All) == ts
  {
    forall i | 0 <= i < |ts| ensures ShownBy([], All, All)(ts[i]) {
      ContainsEmpty(Lower(ts[i].description));
    }
    FilterKeepsAll(ts, ShownBy([], All, All));
  }

  /** A selector other than "all" pins the type or the payment method of
      every row shown. */
  lemma SelectorsPinFields(ts: seq<Transaction>, query: string, typeSel: string, methodSel: string)
    ensures var r := FilteredTransactions(ts, query, typeSel, methodSel);
            && (typeSel != All ==> forall i :: 0 <= i < |r| ==> TypeName(r[i].txType) == typeSel)
            && (methodSel != All ==> forall i :: 0 <= i < |r| ==> MethodName(r[i].paymentMethod) == methodSel)
  {
  }

  /** The search ignores case: queries with the same lower case show the
      same rows. */
  lemma SearchIgnoresCase(ts: seq<Transaction>, q1: string, q2: string, typeSel: string, methodSel: string)
    requires Lower(q1) == Lower(q2)
    ensures FilteredTransactions(ts, q1, typeSel, methodSel) == FilteredTransactions(ts, q2, typeSel, methodSel)
  {
    FilterExt(ts, ShownBy(q1, typeSel, methodSel), ShownBy(q2, typeSel, methodSel));
  }

  /** A query that occurs literally in a description, or in the category
      name, finds that transaction. */
  lemma LiteralQueryFinds(t: Transaction, query: string)
    requires Contains(t.description, query) || Contains(GetCategoryNameById(t.category), query)
    ensures SearchMatches(t, query)
  {
    if Contains(t.description, query) {
      ContainsLowered(t.description, query);
    } else {
      ContainsLowered(GetCategoryNameById(t.category), query);
    }
  }

  /** `handleAddTransaction`: the new transaction goes at the end. */
  function HandleAddTransaction(ts: seq<Transaction>, t: Transaction): (r: seq<Transaction>)
    ensures |r| == |ts| + 1 && r[..|ts|] == ts && r[|ts|] == t
  {
    ts + [t]
  }

  /** After an addition the shown list gains the new transaction at the end
      exactly when it passes the filters. */
  lemma AddedShownIffMatches(ts: seq<Transaction>, t: Transaction, query: string, typeSel: string, methodSel: string)
    ensures FilteredTransactions(HandleAddTransaction(ts, t), query, typeSel, methodSel)
         == FilteredTransactions(ts, query, typeSel, methodSel)
            + (if Shown(t, query, typeSel, methodSel) then [t] else [])
  {
    FilterAppend(ts, [t], ShownBy(query, typeSel, methodSel));
    assert [t][..0] == [];
  }
}
