/** Sequence operations that model the query shapes of the backend: a WHERE
    filter, `.first()`, Python's `sum(...)`, and an ORDER BY sort. */
module Seqs {
  import opened Wrappers

  /** The elements of `s` that satisfy `p`, in table order. */
  function Filter<T(!new)>(s: seq<T>, p: T -> bool): (r: seq<T>)
    ensures |r| <= |s|
    ensures forall x :: x in r <==> x in s && p(x)
    ensures forall i :: 0 <= i < |r| ==> p(r[i])
    decreases |s|
  {
    if s == [] then []
    else
      var init := Filter(s[..|s| - 1], p);
      assert s == s[..|s| - 1] + [s[|s| - 1]];
      if p(s[|s| - 1]) then init + [s[|s| - 1]] else init
  }

  /** Filtering keeps exactly the multiplicity of every element that satisfies `p`. */
  lemma {:induction false} FilterMultiset<T(!new)>(s: seq<T>, p: T -> bool, x: T)
    ensures multiset(Filter(s, p))[x] == if p(x) then multiset(s)[x] else 0
    decreases |s|
  {
    if s != [] {
      var s' := s[..|s| - 1];
      assert s == s' + [s[|s| - 1]];
      FilterMultiset(s', p, x);
    }
  }

  /** The index of the first element satisfying `p`, as `.first()` or `next(...)` finds it. */
  function FirstIndex<T>(s: seq<T>, p: T -> bool): (r: Option<nat>)
    ensures r.Some? ==> r.value < |s| && p(s[r.value])
    ensures r.Some? ==> forall j :: 0 <= j < r.value ==> !p(s[j])
    ensures r.None? <==> forall j :: 0 <= j < |s| ==> !p(s[j])
    decreases |s|
  {
    if s == [] then None
    else if p(s[0]) then Some(0)
    else match FirstIndex(s[1..], p)
      case Some(k) => Some(k + 1)
      case None => None
  }

  /** What is left after removing the element at index `k`. */
  lemma RemoveAtMembership<T>(s: seq<T>, k: nat, x: T)
    requires k < |s|
    ensures x in s[..k] + s[k + 1..] <==> exists i :: 0 <= i < |s| && i != k && s[i] == x
  {
    var rest := s[..k] + s[k + 1..];
    if x in rest {
      var j :| 0 <= j < |rest| && rest[j] == x;
      assert s[if j < k then j else j + 1] == x;
    }
    if exists i :: 0 <= i < |s| && i != k && s[i] == x {
      var i :| 0 <= i < |s| && i != k && s[i] == x;
      assert rest[if i < k then i else i - 1] == x;
    }
  }

  /** Python's `sum(...)` over integers; the empty sum is 0. */
  function SumInt(s: seq<int>): int
    decreases |s|
  {
    if s == [] then 0 else SumInt(s[..|s| - 1]) + s[|s| - 1]
  }

  /** Python's `sum(...)` over amounts; the empty sum is 0. */
  function SumReal(s: seq<real>): real
    decreases |s|
  {
    if s == [] then 0.0 else SumReal(s[..|s| - 1]) + s[|s| - 1]
  }

  /** A sum of at most `x` per element somewhere has an element of at most `x`. */
  lemma {:induction false} SomeAtMost(s: seq<int>, x: real)
    requires |s| > 0
    requires SumInt(s) as real <= x * |s| as real
    ensures exists i :: 0 <= i < |s| && s[i] as real <= x
    decreases |s|
  {
    var n := |s| - 1;
    if s[n] as real > x {
      assert x * |s| as real == x * n as real + x;
      SomeAtMost(s[..n], x);
      var i :| 0 <= i < n && s[..n][i] as real <= x;
      assert s[i] == s[..n][i];
    }
  }

  /** A sum of at least `x` per element somewhere has an element of at least `x`. */
  lemma {:induction false} SomeAtLeast(s: seq<int>, x: real)
    requires |s| > 0
    requires SumInt(s) as real >= x * |s| as real
    ensures exists i :: 0 <= i < |s| && s[i] as real >= x
    decreases |s|
  {
    var n := |s| - 1;
    if s[n] as real < x {
      assert x * |s| as real == x * n as real + x;
      SomeAtLeast(s[..n], x);
      var i :| 0 <= i < n && s[..n][i] as real >= x;
      assert s[i] == s[..n][i];
    }
  }

  /** A sum of non-negative amounts is non-negative. */
  lemma {:induction false} SumRealNonNegative(s: seq<real>)
    requires forall i :: 0 <= i < |s| ==> s[i] >= 0.0
    ensures SumReal(s) >= 0.0
    decreases |s|
  {
    if s != [] {
      SumRealNonNegative(s[..|s| - 1]);
    }
  }

  lemma {:induction false} SumIntConcat(a: seq<int>, b: seq<int>)
    ensures SumInt(a + b) == SumInt(a) + SumInt(b)
    decreases |b|
  {
    if b == [] {
      assert a + b == a;
    } else {
      var b' := b[..|b| - 1];
      assert (a + b)[..|a + b| - 1] == a + b';
      SumIntConcat(a, b');
    }
  }

  /** A sum does not depend on the order of its terms. */
  lemma {:induction false} SumIntPermutation(a: seq<int>, b: seq<int>)
    requires multiset(a) == multiset(b)
    ensures SumInt(a) == SumInt(b)
    decreases |a|
  {
    if a != [] {
      var x := a[|a| - 1];
      var a' := a[..|a| - 1];
      assert a == a' + [x];
      assert x in multiset(b);
      var j :| 0 <= j < |b| && b[j] == x;
      var b' := b[..j] + b[j + 1..];
      assert b == b[..j] + [x] + b[j + 1..];
      assert multiset(b) == multiset(b[..j]) + multiset{x} + multiset(b[j + 1..]);
      assert multiset(b') == multiset(b[..j]) + multiset(b[j + 1..]);
      assert multiset(a) == multiset(a') + multiset{x};
      assert multiset(a') == multiset(a) - multiset{x};
      assert multiset(b') == multiset(b) - multiset{x};
      SumIntPermutation(a', b');
      SumIntConcat(b[..j] + [x], b[j + 1..]);
      SumIntConcat(b[..j], [x]);
      SumIntConcat(b[..j], b[j + 1..]);
    }
  }

  /** `le(a, b)`: `a` may come before `b`. A sort key with ties is a total preorder. */
  ghost predicate TotalPreorder<T(!new)>(le: (T, T) -> bool)
  {
    && (forall a, b :: le(a, b) || le(b, a))
    && (forall a, b, c :: le(a, b) && le(b, c) ==> le(a, c))
  }

  predicate SortedBy<T>(s: seq<T>, le: (T, T) -> bool)
  {
    forall i, j :: 0 <= i < j < |s| ==> le(s[i], s[j])
  }

  function InsertSorted<T(!new)>(x: T, s: seq<T>, le: (T, T) -> bool): (r: seq<T>)
    requires TotalPreorder(le)
    requires SortedBy(s, le)
    ensures multiset(r) == multiset(s) + multiset{x}
    ensures SortedBy(r, le)
    decreases |s|
  {
    if s == [] then [x]
    else if le(x, s[0]) then [x] + s
    else
      var rest := InsertSorted(x, s[1..], le);
      assert s == [s[0]] + s[1..];
      assert forall y :: y in rest ==> le(s[0], y) by {
        forall y | y in rest ensures le(s[0], y) {
          assert y in multiset(rest);
          if y != x {
            assert y in multiset(s[1..]);
          }
        }
      }
      [s[0]] + rest
  }

  /** An ORDER BY: a permutation of `s` ordered by `le`; the order of ties is unspecified. */
  function SortBy<T(!new)>(s: seq<T>, le: (T, T) -> bool): (r: seq<T>)
    requires TotalPreorder(le)
    ensures multiset(r) == multiset(s)
    ensures |r| == |s|
    ensures SortedBy(r, le)
    decreases |s|
  {
    if s == [] then []
    else
      assert s == [s[0]] + s[1..];
      InsertSorted(s[0], SortBy(s[1..], le), le)
  }
}
