/** The sequence operators the scanners are built from: `Where`, `SelectMany`
    and the in-order `ForEach` of the enumerables they pass around, modelled on
    materialised sequences. */
module Enumerables {

  /** `s.Where(p)`: the elements of `s` that satisfy `p`, in order. */
  function Filter<X(!new)>(s: seq<X>, p: X -> bool): (r: seq<X>)
    ensures |r| <= |s|
    ensures forall x :: x in r <==> x in s && p(x)
    decreases |s|
  {
    if s == [] then []
    else
      assert s == [s[0]] + s[1..];
      (if p(s[0]) then [s[0]] else []) + Filter(s[1..], p)
  }

  /** `a` is `b` with some elements deleted and the rest kept in order. */
  predicate IsSubsequence<X(==)>(a: seq<X>, b: seq<X>)
    decreases |a| + |b|
  {
    if a == [] then true
    else if b == [] then false
    else (a[0] == b[0] && IsSubsequence(a[1..], b[1..])) || IsSubsequence(a, b[1..])
  }

  /** The caller's action run once per element, in order, from state `s0`. */
  function Fold<S, X>(action: (S, X) -> S, s0: S, xs: seq<X>): S
    decreases |xs|
  {
    if xs == [] then s0 else Fold(action, action(s0, xs[0]), xs[1..])
  }

  /** The action that records every element it is given, as the tests'
      `list.Add` does. */
  function Record<X>(): (seq<X>, X) -> seq<X>
  {
    (trace: seq<X>, x: X) => trace + [x]
  }

  /** `xs.SelectMany(f)`: the concatenation of `f(x)` for each `x`, in order. */
  function SelectMany<X(!new), Y(!new)>(xs: seq<X>, f: X -> seq<Y>): (r: seq<Y>)
    ensures forall y :: y in r <==> exists x :: x in xs && y in f(x)
    decreases |xs|
  {
    if xs == [] then []
    else
      assert xs == [xs[0]] + xs[1..];
      f(xs[0]) + SelectMany(xs[1..], f)
  }

  /** The sum of `|f(x)|` over `xs`. */
  function TotalLength<X, Y>(xs: seq<X>, f: X -> seq<Y>): nat
    decreases |xs|
  {
    if xs == [] then 0 else |f(xs[0])| + TotalLength(xs[1..], f)
  }

  // ---------------------------------------------------------------------
  // Where

  lemma FilterCons<X(!new)>(x: X, s: seq<X>, p: X -> bool)
    ensures Filter([x] + s, p) == (if p(x) then [x] else []) + Filter(s, p)
  {
    assert ([x] + s)[0] == x;
    assert ([x] + s)[1..] == s;
  }

  lemma {:induction false} FilterAppend<X(!new)>(a: seq<X>, b: seq<X>, p: X -> bool)
    ensures Filter(a + b, p) == Filter(a, p) + Filter(b, p)
    decreases |a|
  {
    if a == [] {
      assert a + b == b;
    } else {
      assert a + b == [a[0]] + (a[1..] + b);
      FilterCons(a[0], a[1..] + b, p);
      FilterAppend(a[1..], b, p);
    }
  }

  /** One more element considered by `Where`. */
  lemma FilterSnoc<X(!new)>(s: seq<X>, j: nat, p: X -> bool)
    requires j < |s|
    ensures Filter(s[..j + 1], p) == Filter(s[..j], p) + (if p(s[j]) then [s[j]] else [])
  {
    assert s[..j + 1] == s[..j] + [s[j]];
    FilterAppend(s[..j], [s[j]], p);
    FilterCons(s[j], [], p);
    assert [s[j]] + [] == [s[j]];
  }

  /** Every element `Where` keeps occurs as often as in the input, every
      element it drops not at all: no deduplication, no invention. */
  lemma {:induction false} FilterCount<X(!new)>(s: seq<X>, p: X -> bool, x: X)
    ensures multiset(Filter(s, p))[x] == if p(x) then multiset(s)[x] else 0
    decreases |s|
  {
    if s != [] {
      assert s == [s[0]] + s[1..];
      FilterCount(s[1..], p, x);
    }
  }

  /** `Where` keeps the order of what it keeps. */
  lemma {:induction false} FilterIsSubsequence<X(!new)>(s: seq<X>, p: X -> bool)
    ensures IsSubsequence(Filter(s, p), s)
    decreases |s|
  {
    if s != [] {
      FilterIsSubsequence(s[1..], p);
      var r := Filter(s, p);
      if p(s[0]) {
        assert r[0] == s[0] && r[1..] == Filter(s[1..], p);
      } else {
        assert r == Filter(s[1..], p);
      }
    }
  }

  /** `Where` only looks at the predicate on the elements it is given. */
  lemma {:induction false} FilterExtensional<X(!new)>(s: seq<X>, p: X -> bool, q: X -> bool)
    requires forall x :: x in s ==> p(x) == q(x)
    ensures Filter(s, p) == Filter(s, q)
    decreases |s|
  {
    if s != [] {
      assert forall x :: x in s[1..] ==> x in s;
      FilterExtensional(s[1..], p, q);
    }
  }

  /** Filtering by `p && q` in one pass equals filtering by `p` and then by `q`. */
  lemma {:induction false} FilterConjunction<X(!new)>(s: seq<X>, p: X -> bool, q: X -> bool, pq: X -> bool)
    requires forall x :: pq(x) == (p(x) && q(x))
    ensures Filter(s, pq) == Filter(Filter(s, p), q)
    decreases |s|
  {
    if s != [] {
      FilterConjunction(s[1..], p, q, pq);
      if p(s[0]) {
        FilterCons(s[0], Filter(s[1..], p), q);
      } else {
        assert Filter(s, p) == Filter(s[1..], p);
      }
    }
  }

  /** A predicate no element satisfies selects nothing. */
  lemma {:induction false} FilterNone<X(!new)>(s: seq<X>, p: X -> bool)
    requires forall x :: x in s ==> !p(x)
    ensures Filter(s, p) == []
    decreases |s|
  {
    if s != [] {
      assert forall x :: x in s[1..] ==> x in s;
      FilterNone(s[1..], p);
    }
  }

  /** A predicate every element satisfies drops nothing. */
  lemma {:induction false} FilterAll<X(!new)>(s: seq<X>, p: X -> bool)
    requires forall x :: x in s ==> p(x)
    ensures Filter(s, p) == s
    decreases |s|
  {
    if s != [] {
      assert forall x :: x in s[1..] ==> x in s;
      FilterAll(s[1..], p);
      assert s == [s[0]] + s[1..];
    }
  }

  /** The elements kept by `p` and those kept by its negation together are
      the input, with multiplicity. */
  lemma FilterPartition<X(!new)>(s: seq<X>, p: X -> bool, notP: X -> bool)
    requires forall x :: notP(x) == !p(x)
    ensures multiset(s) == multiset(Filter(s, p)) + multiset(Filter(s, notP))
  {
    forall x ensures multiset(s)[x] == multiset(Filter(s, p))[x] + multiset(Filter(s, notP))[x] {
      FilterCount(s, p, x);
      FilterCount(s, notP, x);
    }
  }

  /** `key` strictly increases along `s`. */
  predicate IncreasingBy<X>(s: seq<X>, key: X -> int)
  {
    forall i, j :: 0 <= i < j < |s| ==> key(s[i]) < key(s[j])
  }

  /** The rest of a key-ordered sequence is key-ordered, and every element
      of it has a larger key than the first. */
  lemma IncreasingTail<X>(s: seq<X>, key: X -> int)
    requires s != [] && IncreasingBy(s, key)
    ensures IncreasingBy(s[1..], key)
    ensures forall y :: y in s[1..] ==> key(s[0]) < key(y)
  {
    var rest := s[1..];
    forall i, j | 0 <= i < j < |rest| ensures key(rest[i]) < key(rest[j]) {
      assert rest[i] == s[i + 1] && rest[j] == s[j + 1];
    }
    forall y | y in rest ensures key(s[0]) < key(y) {
      var k :| 0 <= k < |rest| && rest[k] == y;
      assert s[k + 1] == y;
    }
  }

  /** The first element of a key-ordered sequence has the least key. */
  lemma IncreasingHead<X>(e: seq<X>, key: X -> int, x: X)
    requires IncreasingBy(e, key) && x in e
    ensures key(e[0]) <= key(x)
  {
    var m :| 0 <= m < |e| && e[m] == x;
    if m > 0 {
      assert key(e[0]) < key(e[m]);
    }
  }

  /** Over a sequence ordered by some key, a predicate that holds exactly on
      the members of `e`, which are taken from the sequence and ordered by
      the same key, keeps exactly `e`. */
  lemma {:induction false} FilterSelects<X(!new)>(s: seq<X>, p: X -> bool, e: seq<X>, key: X -> int)
    requires IncreasingBy(s, key) && IncreasingBy(e, key)
    requires forall x :: x in e ==> x in s
    requires forall x :: x in s ==> p(x) == (x in e)
    ensures Filter(s, p) == e
    decreases |s|
  {
    if s != [] {
      var x, rest := s[0], s[1..];
      assert s == [x] + rest;
      IncreasingTail(s, key);
      if p(x) {
        IncreasingHead(e, key, x);
        assert e[0] in e && e[0] in s;
        assert e[0] == x;
        IncreasingTail(e, key);
        assert e == [x] + e[1..];
        assert forall y :: y in e[1..] ==> y in rest by {
          forall y | y in e[1..] ensures y in rest {
            assert y in e && key(x) < key(y);
          }
        }
        FilterSelects(rest, p, e[1..], key);
      } else {
        FilterSelects(rest, p, e, key);
      }
    }
  }

  // ---------------------------------------------------------------------
  // ForEach

  lemma {:induction false} FoldAppend<S, X>(action: (S, X) -> S, s0: S, a: seq<X>, b: seq<X>)
    ensures Fold(action, s0, a + b) == Fold(action, Fold(action, s0, a), b)
    decreases |a|
  {
    if a == [] {
      assert a + b == b;
    } else {
      assert (a + b)[0] == a[0];
      assert (a + b)[1..] == a[1..] + b;
      FoldAppend(action, action(s0, a[0]), a[1..], b);
    }
  }

  /** One more call of the action. */
  lemma FoldSnoc<S, X>(action: (S, X) -> S, s0: S, xs: seq<X>, x: X)
    ensures Fold(action, s0, xs + [x]) == action(Fold(action, s0, xs), x)
  {
    FoldAppend(action, s0, xs, [x]);
  }

  /** Recording every call gives back the sequence itself: the action is
      invoked exactly once per element, in sequence order. */
  lemma {:induction false} FoldRecord<X>(trace: seq<X>, xs: seq<X>)
    ensures Fold(Record(), trace, xs) == trace + xs
    decreases |xs|
  {
    if xs != [] {
      FoldRecord(trace + [xs[0]], xs[1..]);
      assert trace + xs == (trace + [xs[0]]) + xs[1..];
    }
  }

  // ---------------------------------------------------------------------
  // SelectMany

  lemma {:induction false} SelectManyAppend<X(!new), Y(!new)>(a: seq<X>, b: seq<X>, f: X -> seq<Y>)
    ensures SelectMany(a + b, f) == SelectMany(a, f) + SelectMany(b, f)
    decreases |a|
  {
    if a == [] {
      assert a + b == b;
    } else {
      assert (a + b)[0] == a[0];
      assert (a + b)[1..] == a[1..] + b;
      SelectManyAppend(a[1..], b, f);
    }
  }

  /** One more element expanded by `SelectMany`. */
  lemma SelectManySnoc<X(!new), Y(!new)>(xs: seq<X>, k: nat, f: X -> seq<Y>)
    requires k < |xs|
    ensures SelectMany(xs[..k + 1], f) == SelectMany(xs[..k], f) + f(xs[k])
  {
    assert xs[..k + 1] == xs[..k] + [xs[k]];
    SelectManyAppend(xs[..k], [xs[k]], f);
    assert [xs[k]][1..] == [];
  }

  lemma {:induction false} SelectManyLength<X(!new), Y(!new)>(xs: seq<X>, f: X -> seq<Y>)
    ensures |SelectMany(xs, f)| == TotalLength(xs, f)
    decreases |xs|
  {
    if xs != [] {
      SelectManyLength(xs[1..], f);
    }
  }
}
