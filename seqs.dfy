/** The array operations the pages build their lists with:
    `Array.prototype.filter`, `find` and a stable `sort` with a comparator. */
module Seqs {
  import opened Wrappers

  /** `r` is `s` with some elements left out, the rest in their order. */
  ghost predicate IsSubsequence<T>(r: seq<T>, s: seq<T>)
    decreases |s|
  {
    if r == [] then true
    else if s == [] then false
    else (r[0] == s[0] && IsSubsequence(r[1..], s[1..])) || IsSubsequence(r, s[1..])
  }

  /** `s.filter(p)`: exactly the elements satisfying `p`, each as often as in
      `s`, in their original order. */
  function Filter<T(!new)>(s: seq<T>, p: T -> bool): (r: seq<T>)
    ensures |r| <= |s|
    ensures forall x :: x in r <==> x in s && p(x)
  {
    if s == [] then []
    else
      var rest := Filter(s[1..], p);
      assert s == [s[0]] + s[1..];
      if p(s[0]) then
        assert ([s[0]] + rest)[1..] == rest;
        [s[0]] + rest
      else rest
  }

  /** The filter only leaves elements out: what remains keeps its order. */
  lemma {:induction false} FilterIsSubsequence<T(!new)>(s: seq<T>, p: T -> bool)
    ensures IsSubsequence(Filter(s, p), s)
  {
    if s != [] {
      FilterIsSubsequence(s[1..], p);
      FilterStep(s, p);
      if p(s[0]) {
        assert ([s[0]] + Filter(s[1..], p))[1..] == Filter(s[1..], p);
      } else {
        SubsequenceSkip(Filter(s[1..], p), s);
      }
    }
  }

  /** A subsequence of the tail is a subsequence of the whole. */
  lemma SubsequenceSkip<T>(r: seq<T>, s: seq<T>)
    requires s != [] && IsSubsequence(r, s[1..])
    ensures IsSubsequence(r, s)
  {
  }

  /** The filter keeps every passing element as many times as it occurs. */
  lemma {:induction false} FilterCount<T(!new)>(s: seq<T>, p: T -> bool, x: T)
    ensures multiset(Filter(s, p))[x] == if p(x) then multiset(s)[x] else 0
  {
    if s != [] {
      FilterCount(s[1..], p, x);
      assert s == [s[0]] + s[1..];
      assert multiset(s) == multiset{s[0]} + multiset(s[1..]);
      var head := if p(s[0]) then [s[0]] else [];
      assert Filter(s, p) == head + Filter(s[1..], p);
      assert multiset(Filter(s, p)) == multiset(head) + multiset(Filter(s[1..], p));
    }
  }

  /** `FilterCount` for every element at once. */
  lemma FilterCounts<T(!new)>(s: seq<T>, p: T -> bool)
    ensures forall x :: multiset(Filter(s, p))[x] == if p(x) then multiset(s)[x] else 0
  {
    forall x
      ensures multiset(Filter(s, p))[x] == if p(x) then multiset(s)[x] else 0
    {
      FilterCount(s, p, x);
    }
  }

  /** Filtering a concatenation filters each part. */
  lemma {:induction false} FilterAppend<T(!new)>(a: seq<T>, b: seq<T>, p: T -> bool)
    ensures Filter(a + b, p) == Filter(a, p) + Filter(b, p)
  {
    if a == [] {
      assert a + b == b;
    } else {
      var head := if p(a[0]) then [a[0]] else [];
      FilterAppend(a[1..], b, p);
      assert Filter(a + b, p) == head + Filter(a[1..] + b, p) by {
        assert (a + b)[0] == a[0];
        assert (a + b)[1..] == a[1..] + b;
        FilterStep(a + b, p);
      }
      assert Filter(a, p) == head + Filter(a[1..], p) by {
        FilterStep(a, p);
      }
      SeqAssociative(head, Filter(a[1..], p), Filter(b, p));
    }
  }

  lemma SeqAssociative<T>(a: seq<T>, b: seq<T>, c: seq<T>)
    ensures a + (b + c) == (a + b) + c
  {
  }

  /** One step of the filter: the head, if it passes, then the filtered tail. */
  lemma FilterStep<T(!new)>(s: seq<T>, p: T -> bool)
    requires s != []
    ensures Filter(s, p) == (if p(s[0]) then [s[0]] else []) + Filter(s[1..], p)
  {
  }

  /** When every element passes, the filter returns the list unchanged. */
  lemma {:induction false} FilterKeepsAll<T(!new)>(s: seq<T>, p: T -> bool)
    requires forall i :: 0 <= i < |s| ==> p(s[i])
    ensures Filter(s, p) == s
  {
    if s != [] {
      FilterKeepsAll(s[1..], p);
    }
  }

  /** Two predicates that agree on every element filter the same. */
  lemma {:induction false} FilterAgree<T(!new)>(s: seq<T>, p: T -> bool, q: T -> bool)
    requires forall i :: 0 <= i < |s| ==> p(s[i]) == q(s[i])
    ensures Filter(s, p) == Filter(s, q)
  {
    if s != [] {
      FilterAgree(s[1..], p, q);
    }
  }

  /** A predicate and its negation split a list: the two filters' lengths
      add up to the length of the list. */
  lemma {:induction false} FilterComplement<T(!new)>(s: seq<T>, p: T -> bool, q: T -> bool)
    requires forall x :: q(x) == !p(x)
    ensures |Filter(s, p)| + |Filter(s, q)| == |s|
  {
    if s != [] {
      FilterComplement(s[1..], p, q);
    }
  }

  /** `s.find(p)`: the first element satisfying `p`, or nothing. */
  function Find<T>(s: seq<T>, p: T -> bool): (r: Option<T>)
    ensures r.None? <==> forall i :: 0 <= i < |s| ==> !p(s[i])
    ensures r.Some? ==> exists i :: 0 <= i < |s| && s[i] == r.value && p(s[i])
                                    && forall j :: 0 <= j < i ==> !p(s[j])
  {
    if s == [] then None
    else if p(s[0]) then Some(s[0])
    else
      var r := Find(s[1..], p);
      assert forall i :: 1 <= i < |s| ==> s[1..][i - 1] == s[i];
      r
  }

  /** Elements appended after the first match do not change what `find` returns. */
  lemma {:induction false} FindAppend<T>(s: seq<T>, t: seq<T>, p: T -> bool)
    requires Find(s, p).Some?
    ensures Find(s + t, p) == Find(s, p)
  {
    if !p(s[0]) {
      assert (s + t)[1..] == s[1..] + t;
      FindAppend(s[1..], t, p);
    }
  }

  /** Elements appended after a list with no match are searched in turn:
      when none of them matches either, `find` still finds nothing new. */
  lemma {:induction false} FindAppendNone<T>(s: seq<T>, t: seq<T>, p: T -> bool)
    requires forall i :: 0 <= i < |t| ==> !p(t[i])
    ensures Find(s + t, p) == Find(s, p)
  {
    if s == [] {
      assert s + t == t;
    } else {
      assert (s + t)[1..] == s[1..] + t;
      FindAppendNone(s[1..], t, p);
      if Find(s, p).Some? {
        FindAppend(s, t, p);
      }
    }
  }

  /** Dropping elements that cannot match first does not change what `find`
      returns. */
  lemma {:induction false} FindFilter<T(!new)>(s: seq<T>, p: T -> bool, q: T -> bool)
    requires forall x :: p(x) ==> q(x)
    ensures Find(Filter(s, q), p) == Find(s, p)
  {
    if s != [] {
      FindFilter(s[1..], p, q);
      if q(s[0]) {
        assert Filter(s, q) == [s[0]] + Filter(s[1..], q);
        assert ([s[0]] + Filter(s[1..], q))[1..] == Filter(s[1..], q);
      }
    }
  }

  // ---------------------------------------------------------------------
  // Stable insertion sort

  /** `before(a, b)` says that a comparator puts `a` strictly ahead of `b`
      (`compare(a, b) < 0`); sorting needs it to be a strict weak order. */
  ghost predicate StrictWeakOrder<T(!new)>(before: (T, T) -> bool)
  {
    && (forall a, b :: before(a, b) ==> !before(b, a))
    && (forall a, b, c :: !before(a, b) && !before(b, c) ==> !before(a, c))
  }

  /** No element is strictly ahead of an element that precedes it. */
  ghost predicate SortedBy<T>(r: seq<T>, before: (T, T) -> bool)
  {
    forall i, j :: 0 <= i < j < |r| ==> !before(r[j], r[i])
  }

  /** Puts `x` into the sorted `r` after every element that is not behind it. */
  function Insert<T>(x: T, r: seq<T>, before: (T, T) -> bool): (o: seq<T>)
    ensures multiset(o) == multiset(r) + multiset{x}
    ensures |o| == |r| + 1
  {
    if r == [] || !before(r[0], x) then [x] + r
    else
      assert r == [r[0]] + r[1..];
      [r[0]] + Insert(x, r[1..], before)
  }

  /** `[...s].sort(compare)`, a stable sort: a permutation of `s`. */
  function SortBy<T>(s: seq<T>, before: (T, T) -> bool): (r: seq<T>)
    ensures multiset(r) == multiset(s)
    ensures |r| == |s|
  {
    if s == [] then []
    else
      assert s == [s[0]] + s[1..];
      Insert(s[0], SortBy(s[1..], before), before)
  }

  lemma {:induction false} InsertSorted<T(!new)>(x: T, r: seq<T>, before: (T, T) -> bool)
    requires StrictWeakOrder(before) && SortedBy(r, before)
    ensures SortedBy(Insert(x, r, before), before)
  {
    var o := Insert(x, r, before);
    if r == [] || !before(r[0], x) {
      assert o == [x] + r;
      forall j | 1 <= j < |o|
        ensures !before(o[j], x)
      {
        if j > 1 {
          assert !before(r[j - 1], r[0]);
        }
      }
    } else {
      var rest := Insert(x, r[1..], before);
      InsertSorted(x, r[1..], before);
      assert o == [r[0]] + rest;
      forall j | 1 <= j < |o|
        ensures !before(o[j], r[0])
      {
        var y := o[j];
        assert y in multiset(rest);
        assert y in multiset(r[1..]) + multiset{x};
        if y != x {
          assert y in r[1..];
          var k :| 0 <= k < |r[1..]| && r[1..][k] == y;
          assert r[k + 1] == y;
        }
      }
    }
  }

  /** The sort puts the list in the comparator's order. */
  lemma {:induction false} SortBySorted<T(!new)>(s: seq<T>, before: (T, T) -> bool)
    requires StrictWeakOrder(before)
    ensures SortedBy(SortBy(s, before), before)
  {
    if s != [] {
      SortBySorted(s[1..], before);
      InsertSorted(s[0], SortBy(s[1..], before), before);
    }
  }

  /** Elements are kept: the sorted list holds exactly the input's elements. */
  lemma SortByMembers<T>(s: seq<T>, before: (T, T) -> bool, x: T)
    ensures x in SortBy(s, before) <==> x in s
  {
    assert x in SortBy(s, before) <==> x in multiset(SortBy(s, before));
    assert x in s <==> x in multiset(s);
  }
}
