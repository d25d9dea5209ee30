/** Values shared by every part of the model: optional values (a JavaScript
    `null`, `undefined` or empty string), the `|| 0` default, and the
    order-preserving selection done by `Array.prototype.filter`. */
module Basics {

  datatype Option<+T> = None | Some(value: T)

  /** `x || 0` on a number that may be absent (0 stays 0). */
  function OrZero(x: Option<int>): int
  {
    if x.Some? then x.value else 0
  }

  /** `x || 0` on a price that may be absent. */
  function OrZeroReal(x: Option<real>): real
  {
    if x.Some? then x.value else 0.0
  }

  function Min(a: int, b: int): int { if a <= b then a else b }

  function Max(a: int, b: int): int { if a >= b then a else b }

  /** `s.filter(p)`: the elements of `s` that satisfy `p`, in their order. */
  function Filter<T>(s: seq<T>, p: T -> bool): (r: seq<T>)
    ensures |r| <= |s|
  {
    if s == [] then []
    else Filter(s[..|s| - 1], p) + (if p(s[|s| - 1]) then [s[|s| - 1]] else [])
  }

  /** `a` can be obtained from `b` by deleting elements, keeping the order. */
  ghost predicate IsSubsequence<T>(a: seq<T>, b: seq<T>)
    decreases |b|
  {
    if a == [] then true
    else if b == [] then false
    else (a[|a| - 1] == b[|b| - 1] && IsSubsequence(a[..|a| - 1], b[..|b| - 1]))
         || IsSubsequence(a, b[..|b| - 1])
  }

  lemma {:induction false} FilterMembership<T>(s: seq<T>, p: T -> bool, x: T)
    ensures x in Filter(s, p) <==> x in s && p(x)
  {
    if s != [] {
      var init := s[..|s| - 1];
      assert s == init + [s[|s| - 1]];
      FilterMembership(init, p, x);
    }
  }

  lemma {:induction false} FilterIsSubsequence<T>(s: seq<T>, p: T -> bool)
    ensures IsSubsequence(Filter(s, p), s)
  {
    if s != [] {
      var init := s[..|s| - 1];
      FilterIsSubsequence(init, p);
      if p(s[|s| - 1]) {
        var r := Filter(s, p);
        assert r[..|r| - 1] == Filter(init, p);
      } else {
        assert Filter(s, p) == Filter(init, p);
        assert s[..|s| - 1] == init;
      }
    }
  }

  lemma {:induction false} FilterAppend<T>(a: seq<T>, b: seq<T>, p: T -> bool)
    ensures Filter(a + b, p) == Filter(a, p) + Filter(b, p)
    decreases |b|
  {
    if b == [] {
      assert a + b == a;
    } else {
      var initB := b[..|b| - 1];
      assert (a + b)[..|a + b| - 1] == a + initB;
      FilterAppend(a, initB, p);
    }
  }

  /** Two filters over the same list commute. */
  lemma {:induction false} FilterCommute<T>(s: seq<T>, p: T -> bool, q: T -> bool)
    ensures Filter(Filter(s, p), q) == Filter(Filter(s, q), p)
  {
    if s != [] {
      var init := s[..|s| - 1];
      var x := s[|s| - 1];
      FilterCommute(init, p, q);
      FilterAppend(Filter(init, p), if p(x) then [x] else [], q);
      FilterAppend(Filter(init, q), if q(x) then [x] else [], p);
      assert Filter([x], q) == if q(x) then [x] else [] by { assert [x][..0] == []; }
      assert Filter([x], p) == if p(x) then [x] else [] by { assert [x][..0] == []; }
    }
  }

  /** Filters agreeing on the elements of `s` select the same elements. */
  lemma {:induction false} FilterCongruence<T>(s: seq<T>, p: T -> bool, q: T -> bool)
    requires forall i :: 0 <= i < |s| ==> p(s[i]) == q(s[i])
    ensures Filter(s, p) == Filter(s, q)
  {
    if s != [] {
      FilterCongruence(s[..|s| - 1], p, q);
    }
  }

  /** Filtering by a stronger predicate is filtering the weaker result again. */
  lemma {:induction false} FilterStronger<T>(s: seq<T>, p: T -> bool, q: T -> bool)
    requires forall i :: 0 <= i < |s| ==> p(s[i]) ==> q(s[i])
    ensures Filter(s, p) == Filter(Filter(s, q), p)
  {
    if s != [] {
      var init := s[..|s| - 1];
      var x := s[|s| - 1];
      FilterStronger(init, p, q);
      FilterAppend(Filter(init, q), if q(x) then [x] else [], p);
      assert Filter([x], p) == if p(x) then [x] else [] by { assert [x][..0] == []; }
    }
  }

  /** Filtering with no element selected yields nothing. */
  lemma {:induction false} FilterNone<T>(s: seq<T>, p: T -> bool)
    requires forall i :: 0 <= i < |s| ==> !p(s[i])
    ensures Filter(s, p) == []
  {
    if s != [] {
      FilterNone(s[..|s| - 1], p);
    }
  }
}
