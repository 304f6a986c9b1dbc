/** Sequence primitives the modelled code is built from: JavaScript's
    `Array.prototype.filter` and `map`, Swift's `filter` and `first(where:)`. */
module Seqs {
  import opened Wrappers

  /** `a` is obtained from `b` by deleting zero or more elements, keeping the order of the rest. */
  ghost predicate SubsequenceOf<T>(a: seq<T>, b: seq<T>)
    decreases |b|
  {
    if a == [] then true
    else if b == [] then false
    else (a[0] == b[0] && SubsequenceOf(a[1..], b[1..])) || SubsequenceOf(a, b[1..])
  }

  /** No two elements of `s` share a key. */
  ghost predicate DistinctBy<T, K>(s: seq<T>, key: T -> K) {
    forall i, j :: 0 <= i < j < |s| ==> key(s[i]) != key(s[j])
  }

  /** The elements of `s` that satisfy `p`, in their original order. */
  function Filter<T>(s: seq<T>, p: T -> bool): (r: seq<T>)
    ensures |r| <= |s|
    ensures forall x | x in r :: x in s && p(x)
    ensures forall x | x in s && p(x) :: x in r
  {
    if s == [] then []
    else if p(s[0]) then [s[0]] + Filter(s[1..], p)
    else Filter(s[1..], p)
  }

  /** `f` applied to every element of `s`, position by position. */
  function Map<T, U>(s: seq<T>, f: T -> U): (r: seq<U>)
    ensures |r| == |s|
    ensures forall i :: 0 <= i < |s| ==> r[i] == f(s[i])
  {
    if s == [] then [] else [f(s[0])] + Map(s[1..], f)
  }

  /** The first element of `s` that satisfies `p`, or `None` when none does. */
  function First<T>(s: seq<T>, p: T -> bool): (r: Option<T>)
    ensures r.None? <==> forall x | x in s :: !p(x)
    ensures r.Some? ==> r.value in s && p(r.value)
  {
    if s == [] then None
    else if p(s[0]) then Some(s[0])
    else First(s[1..], p)
  }

  /** `First` picks the earliest element that satisfies `p`. */
  lemma {:induction false} FirstIsEarliest<T>(s: seq<T>, p: T -> bool, k: nat)
    requires k < |s| && p(s[k])
    requires forall j :: 0 <= j < k ==> !p(s[j])
    ensures First(s, p) == Some(s[k])
  {
    if k > 0 {
      FirstIsEarliest(s[1..], p, k - 1);
    }
  }

  lemma {:induction false} FilterIsSubsequence<T>(s: seq<T>, p: T -> bool)
    ensures SubsequenceOf(Filter(s, p), s)
  {
    if s != [] {
      FilterIsSubsequence(s[1..], p);
      var rest := Filter(s[1..], p);
      if p(s[0]) {
        assert ([s[0]] + rest)[1..] == rest;
      } else if rest != [] {
        assert SubsequenceOf(rest, s[1..]);
      }
    }
  }

  /** `Filter` keeps every copy of a kept element and no copy of a dropped one. */
  lemma {:induction false} FilterCounts<T>(s: seq<T>, p: T -> bool)
    ensures forall x :: multiset(Filter(s, p))[x] == if p(x) then multiset(s)[x] else 0
  {
    if s != [] {
      FilterCounts(s[1..], p);
      assert s == [s[0]] + s[1..];
    }
  }

  lemma {:induction false} FilterIdempotent<T>(s: seq<T>, p: T -> bool)
    ensures Filter(Filter(s, p), p) == Filter(s, p)
  {
    if s != [] {
      FilterIdempotent(s[1..], p);
      if p(s[0]) {
        var rest := Filter(s[1..], p);
        assert ([s[0]] + rest)[1..] == rest;
      }
    }
  }

  lemma {:induction false} FilterKeepsAll<T>(s: seq<T>, p: T -> bool)
    requires forall x :: x in s ==> p(x)
    ensures Filter(s, p) == s
  {
    if s != [] {
      FilterKeepsAll(s[1..], p);
      assert [s[0]] + s[1..] == s;
    }
  }

  lemma {:induction false} FilterKeepsDistinct<T, K>(s: seq<T>, p: T -> bool, key: T -> K)
    requires DistinctBy(s, key)
    ensures DistinctBy(Filter(s, p), key)
  {
    if s != [] {
      FilterKeepsDistinct(s[1..], p, key);
      var rest := Filter(s[1..], p);
      if p(s[0]) {
        var r := [s[0]] + rest;
        forall i, j | 0 <= i < j < |r| ensures key(r[i]) != key(r[j]) {
          if i == 0 {
            assert r[j] in s[1..];
            var k :| 0 <= k < |s[1..]| && s[1..][k] == r[j];
            assert s[k + 1] == r[j];
          } else {
            assert r[i] == rest[i - 1] && r[j] == rest[j - 1];
          }
        }
      }
    }
  }

  /** Filtering after a map equals filtering alone when the map changes only
      elements the filter drops and never turns a dropped element into a kept one. */
  lemma {:induction false} FilterAfterMap<T>(s: seq<T>, f: T -> T, p: T -> bool)
    requires forall x :: p(x) ==> f(x) == x
    requires forall x :: !p(x) ==> !p(f(x))
    ensures Filter(Map(s, f), p) == Filter(s, p)
  {
    if s != [] {
      FilterAfterMap(s[1..], f, p);
      assert Map(s, f) == [f(s[0])] + Map(s[1..], f);
      assert ([f(s[0])] + Map(s[1..], f))[1..] == Map(s[1..], f);
    }
  }
}
