/** Sequence helpers for the bookkeeping code, which is written with
    `Array.filter` and `Array.reduce((sum, x) => sum + ..., 0)`: an
    order-preserving filter, element counts, the subsequence relation and
    real-valued sums, with the algebra the derivations rely on. */
module Collections {

  datatype Option<+T> = None | Some(value: T)

  /** The outcome of an operation that can throw: the value, or the
      message of the error thrown. */
  datatype Result<+T> = Ok(value: T) | Err(error: string)

  /** Number of elements of `s` that satisfy `p`. */
  function Count<T>(s: seq<T>, p: T -> bool): nat
  {
    if |s| == 0 then 0 else Count(s[..|s|-1], p) + (if p(s[|s|-1]) then 1 else 0)
  }

  /** `a` is obtained from `b` by deleting elements, keeping the order of the rest. */
  predicate SubseqOf<T(==)>(a: seq<T>, b: seq<T>)
    decreases |b|
  {
    if |a| == 0 then true
    else if |b| == 0 then false
    else (a[|a|-1] == b[|b|-1] && SubseqOf(a[..|a|-1], b[..|b|-1])) || SubseqOf(a, b[..|b|-1])
  }

  /** Taking a subsequence twice gives a subsequence. */
  lemma {:induction false} SubseqTrans<T>(a: seq<T>, b: seq<T>, c: seq<T>)
    requires SubseqOf(a, b) && SubseqOf(b, c)
    ensures SubseqOf(a, c)
    decreases |c|
  {
    if |a| == 0 {
    } else if |c| == 0 {
    } else if |b| == 0 {
    } else if b[|b|-1] == c[|c|-1] && SubseqOf(b[..|b|-1], c[..|c|-1]) {
      if a[|a|-1] == b[|b|-1] && SubseqOf(a[..|a|-1], b[..|b|-1]) {
        SubseqTrans(a[..|a|-1], b[..|b|-1], c[..|c|-1]);
      } else {
        SubseqTrans(a, b[..|b|-1], c[..|c|-1]);
      }
    } else {
      SubseqTrans(a, b, c[..|c|-1]);
    }
  }

  /** Every element of a subsequence occurs in the whole. */
  lemma {:induction false} SubseqMembers<T>(a: seq<T>, b: seq<T>)
    requires SubseqOf(a, b)
    ensures forall i :: 0 <= i < |a| ==> a[i] in b
    decreases |b|
  {
    if |a| > 0 && |b| > 0 {
      var b' := b[..|b|-1];
      if a[|a|-1] == b[|b|-1] && SubseqOf(a[..|a|-1], b') {
        SubseqMembers(a[..|a|-1], b');
        forall i | 0 <= i < |a| ensures a[i] in b {
          if i < |a| - 1 {
            assert a[i] == a[..|a|-1][i];
            assert a[i] in b';
            var k :| 0 <= k < |b'| && b'[k] == a[i];
            assert b[k] == a[i];
          } else {
            assert b[|b|-1] == a[i];
          }
        }
      } else {
        SubseqMembers(a, b');
        forall i | 0 <= i < |a| ensures a[i] in b {
          var k :| 0 <= k < |b'| && b'[k] == a[i];
          assert b[k] == a[i];
        }
      }
    }
  }

  /** `Array.filter`: the elements of `s` that satisfy `p`, in their order.
      The three facts together determine the result: it is a subsequence of
      `s`, all of it satisfies `p`, and it is as long as the number of
      elements of `s` that satisfy `p`. */
  function Filter<T(==)>(s: seq<T>, p: T -> bool): (r: seq<T>)
    ensures SubseqOf(r, s)
    ensures forall i :: 0 <= i < |r| ==> p(r[i])
    ensures |r| == Count(s, p)
  {
    if |s| == 0 then []
    else
      var init := Filter(s[..|s|-1], p);
      var last := s[|s|-1];
      assert forall i :: 0 <= i < |s| - 1 ==> s[i] == s[..|s|-1][i];
      if p(last) then
        assert (init + [last])[..|init|] == init;
        init + [last]
      else init
  }

  /** A subsequence made of elements satisfying `p` is no longer than the
      number of such elements. */
  lemma {:induction false} SubseqCountBound<T>(r: seq<T>, s: seq<T>, p: T -> bool)
    requires SubseqOf(r, s)
    requires forall i :: 0 <= i < |r| ==> p(r[i])
    ensures |r| <= Count(s, p)
    decreases |s|
  {
    if |r| > 0 {
      var r', s' := r[..|r|-1], s[..|s|-1];
      if r[|r|-1] == s[|s|-1] && SubseqOf(r', s') {
        assert forall i :: 0 <= i < |r'| ==> r'[i] == r[i];
        SubseqCountBound(r', s', p);
      } else {
        SubseqCountBound(r, s', p);
      }
    }
  }

  /** The three facts of `Filter`'s contract pin its result down: any
      subsequence of `s` satisfying `p` throughout and as long as the count
      is the filter. */
  lemma {:induction false} FilterDetermined<T>(r: seq<T>, s: seq<T>, p: T -> bool)
    requires SubseqOf(r, s)
    requires forall i :: 0 <= i < |r| ==> p(r[i])
    requires |r| == Count(s, p)
    ensures r == Filter(s, p)
    decreases |s|
  {
    if |s| > 0 {
      var s', x := s[..|s|-1], s[|s|-1];
      if p(x) {
        if |r| > 0 && r[|r|-1] == x && SubseqOf(r[..|r|-1], s') {
          var r' := r[..|r|-1];
          assert forall i :: 0 <= i < |r'| ==> r'[i] == r[i];
          FilterDetermined(r', s', p);
          assert r == r' + [x];
        } else {
          SubseqCountBound(r, s', p);
        }
      } else {
        FilterDetermined(r, s', p);
      }
    }
  }

  /** An element of `s` that satisfies `p` survives the filter. */
  lemma {:induction false} FilterMember<T>(s: seq<T>, p: T -> bool, x: T)
    requires x in s && p(x)
    ensures x in Filter(s, p)
  {
    var init := s[..|s|-1];
    if s[|s|-1] != x {
      var i :| 0 <= i < |s| && s[i] == x;
      assert init[i] == x;
      FilterMember(init, p, x);
    }
  }

  /** No element of `s` that satisfies `p` is lost. */
  lemma FilterComplete<T>(s: seq<T>, p: T -> bool)
    ensures forall i :: 0 <= i < |s| && p(s[i]) ==> s[i] in Filter(s, p)
  {
    forall i | 0 <= i < |s| && p(s[i]) ensures s[i] in Filter(s, p) {
      FilterMember(s, p, s[i]);
    }
  }

  /** Every element of the filter is drawn from `s`. */
  lemma FilterElements<T>(s: seq<T>, p: T -> bool)
    ensures forall i :: 0 <= i < |Filter(s, p)| ==> Filter(s, p)[i] in s
  {
    SubseqMembers(Filter(s, p), s);
  }

  /** Whatever survives the filter is an element of `s` satisfying `p`. */
  lemma FilterSubset<T>(s: seq<T>, p: T -> bool, x: T)
    requires x in Filter(s, p)
    ensures x in s && p(x)
  {
    var r := Filter(s, p);
    var i :| 0 <= i < |r| && r[i] == x;
    SubseqMembers(r, s);
  }

  /** `Array.reduce` summing `f` over the elements, starting from 0. */
  function SumOf<T>(s: seq<T>, f: T -> real): real
  {
    if |s| == 0 then 0.0 else SumOf(s[..|s|-1], f) + f(s[|s|-1])
  }

  lemma {:induction false} FilterAppend<T>(a: seq<T>, b: seq<T>, p: T -> bool)
    ensures Filter(a + b, p) == Filter(a, p) + Filter(b, p)
    decreases |b|
  {
    if |b| == 0 {
      assert a + b == a;
    } else {
      var b' := b[..|b|-1];
      assert (a + b)[..|a + b| - 1] == a + b';
      FilterAppend(a, b', p);
    }
  }

  lemma {:induction false} CountAppend<T>(a: seq<T>, b: seq<T>, p: T -> bool)
    ensures Count(a + b, p) == Count(a, p) + Count(b, p)
    decreases |b|
  {
    if |b| == 0 {
      assert a + b == a;
    } else {
      assert (a + b)[..|a + b| - 1] == a + b[..|b|-1];
      CountAppend(a, b[..|b|-1], p);
    }
  }

  /** A filter that every element passes is the identity. */
  lemma {:induction false} FilterKeepsAll<T>(s: seq<T>, p: T -> bool)
    requires forall i :: 0 <= i < |s| ==> p(s[i])
    ensures Filter(s, p) == s
  {
    if |s| > 0 {
      FilterKeepsAll(s[..|s|-1], p);
    }
  }

  /** A filter that no element passes is empty. */
  lemma {:induction false} FilterDropsAll<T>(s: seq<T>, p: T -> bool)
    requires forall i :: 0 <= i < |s| ==> !p(s[i])
    ensures Filter(s, p) == []
  {
    if |s| > 0 {
      FilterDropsAll(s[..|s|-1], p);
    }
  }

  /** Filters with predicates that agree on the elements give the same result. */
  lemma {:induction false} FilterExt<T>(s: seq<T>, p: T -> bool, q: T -> bool)
    requires forall i :: 0 <= i < |s| ==> p(s[i]) == q(s[i])
    ensures Filter(s, p) == Filter(s, q)
  {
    if |s| > 0 {
      FilterExt(s[..|s|-1], p, q);
    }
  }

  /** Filtering twice is filtering once by the conjunction. */
  lemma {:induction false} FilterFilter<T>(s: seq<T>, p: T -> bool, q: T -> bool, pq: T -> bool)
    requires forall i :: 0 <= i < |s| ==> pq(s[i]) == (p(s[i]) && q(s[i]))
    ensures Filter(Filter(s, p), q) == Filter(s, pq)
  {
    if |s| > 0 {
      var init := s[..|s|-1];
      FilterFilter(init, p, q, pq);
      if p(s[|s|-1]) {
        FilterAppend(Filter(init, p), [s[|s|-1]], q);
      }
    }
  }

  lemma {:induction false} SumAppend<T>(a: seq<T>, b: seq<T>, f: T -> real)
    ensures SumOf(a + b, f) == SumOf(a, f) + SumOf(b, f)
    decreases |b|
  {
    if |b| == 0 {
      assert a + b == a;
    } else {
      assert (a + b)[..|a + b| - 1] == a + b[..|b|-1];
      SumAppend(a, b[..|b|-1], f);
    }
  }

  lemma SumSnoc<T>(a: seq<T>, x: T, f: T -> real)
    ensures SumOf(a + [x], f) == SumOf(a, f) + f(x)
  {
    assert (a + [x])[..|a|] == a;
  }

  lemma {:induction false} SumNonneg<T>(s: seq<T>, f: T -> real)
    requires forall i :: 0 <= i < |s| ==> f(s[i]) >= 0.0
    ensures SumOf(s, f) >= 0.0
  {
    if |s| > 0 {
      SumNonneg(s[..|s|-1], f);
    }
  }

  /** Changing one term changes the sum by the difference of that term. */
  lemma {:induction false} SumOneChanged<T>(s: seq<T>, s': seq<T>, i: int, f: T -> real)
    requires |s| == |s'| && 0 <= i < |s|
    requires forall j :: 0 <= j < |s| && j != i ==> s'[j] == s[j]
    ensures SumOf(s', f) == SumOf(s, f) - f(s[i]) + f(s'[i])
    decreases |s|
  {
    var n := |s| - 1;
    if i == n {
      assert s'[..n] == s[..n];
    } else {
      SumOneChanged(s[..n], s'[..n], i, f);
      assert s'[n] == s[n];
    }
  }

  /** A sum grows with its terms. */
  lemma {:induction false} SumMono<T>(s: seq<T>, f: T -> real, g: T -> real)
    requires forall i :: 0 <= i < |s| ==> f(s[i]) <= g(s[i])
    ensures SumOf(s, f) <= SumOf(s, g)
  {
    if |s| > 0 {
      SumMono(s[..|s|-1], f, g);
    }
  }

  /** A sum of non-negative terms only grows when the filter admits more. */
  lemma {:induction false} SumFilterMono<T>(s: seq<T>, p: T -> bool, q: T -> bool, f: T -> real)
    requires forall i :: 0 <= i < |s| ==> f(s[i]) >= 0.0
    requires forall i :: 0 <= i < |s| ==> p(s[i]) ==> q(s[i])
    ensures SumOf(Filter(s, p), f) <= SumOf(Filter(s, q), f)
  {
    if |s| > 0 {
      var init, x := s[..|s|-1], s[|s|-1];
      SumFilterMono(init, p, q, f);
      if p(x) { SumSnoc(Filter(init, p), x, f); }
      if q(x) { SumSnoc(Filter(init, q), x, f); }
    }
  }

  /** Two disjoint filters inside a third sum to at most the third's sum. */
  lemma {:induction false} SumDisjointFilters<T>(s: seq<T>, p: T -> bool, q: T -> bool, r: T -> bool, f: T -> real)
    requires forall i :: 0 <= i < |s| ==> f(s[i]) >= 0.0
    requires forall i :: 0 <= i < |s| ==> !(p(s[i]) && q(s[i]))
    requires forall i :: 0 <= i < |s| ==> (p(s[i]) || q(s[i])) ==> r(s[i])
    ensures SumOf(Filter(s, p), f) + SumOf(Filter(s, q), f) <= SumOf(Filter(s, r), f)
  {
    if |s| > 0 {
      var init, x := s[..|s|-1], s[|s|-1];
      SumDisjointFilters(init, p, q, r, f);
      if p(x) { SumSnoc(Filter(init, p), x, f); }
      if q(x) { SumSnoc(Filter(init, q), x, f); }
      if r(x) { SumSnoc(Filter(init, r), x, f); }
    }
  }

  /** A filter and its complement split a sum. */
  lemma {:induction false} SumFilterSplit<T>(s: seq<T>, p: T -> bool, np: T -> bool, f: T -> real)
    requires forall i :: 0 <= i < |s| ==> np(s[i]) == !p(s[i])
    ensures SumOf(Filter(s, p), f) + SumOf(Filter(s, np), f) == SumOf(s, f)
  {
    if |s| > 0 {
      var init, x := s[..|s|-1], s[|s|-1];
      SumFilterSplit(init, p, np, f);
      if p(x) {
        SumSnoc(Filter(init, p), x, f);
      } else {
        SumSnoc(Filter(init, np), x, f);
      }
    }
  }

  function Min(a: int, b: int): (r: int)
    ensures r <= a && r <= b && (r == a || r == b)
  {
    if a <= b then a else b
  }

  function MinReal(a: real, b: real): (r: real)
    ensures r <= a && r <= b && (r == a || r == b)
  {
    if a <= b then a else b
  }
}
