/**
 * Order-preserving filters over sequences, the shape of the source's list
 * comprehensions and of its append-if loops, with the facts the rest of the
 * model needs about them: what they keep, that they distribute over
 * concatenation (so kept elements stay in their relative order), and how a
 * filter and its complement split a sequence.
 */
module Seqs {
  import opened Wrappers

  /** The elements of `s` that satisfy `p`, in order. */
  function Filter<T>(s: seq<T>, p: T -> bool): (r: seq<T>)
    ensures |r| <= |s|
  {
    if s == [] then [] else Filter(s[..|s| - 1], p) + (if p(s[|s| - 1]) then [s[|s| - 1]] else [])
  }

  /** The values `f` gives for the elements of `s`, skipping None, in order. */
  function FilterMap<A, B>(s: seq<A>, f: A -> Option<B>): (r: seq<B>)
    ensures |r| <= |s|
  {
    if s == [] then []
    else FilterMap(s[..|s| - 1], f) + (match f(s[|s| - 1]) case Some(y) => [y] case None => [])
  }

  lemma {:induction false} FilterConcat<T>(a: seq<T>, b: seq<T>, p: T -> bool)
    ensures Filter(a + b, p) == Filter(a, p) + Filter(b, p)
    decreases |b|
  {
    if b == [] {
      assert a + b == a;
    } else {
      assert (a + b)[..|a + b| - 1] == a + b[..|b| - 1];
      FilterConcat(a, b[..|b| - 1], p);
    }
  }

  lemma {:induction false} FilterMembers<T>(s: seq<T>, p: T -> bool, x: T)
    ensures x in Filter(s, p) <==> x in s && p(x)
  {
    if s != [] {
      FilterMembers(s[..|s| - 1], p, x);
      assert s == s[..|s| - 1] + [s[|s| - 1]];
    }
  }

  /** A filter and its complement split a sequence: as multisets, and so in length. */
  lemma {:induction false} FilterSplit<T>(s: seq<T>, p: T -> bool, q: T -> bool)
    requires forall x :: q(x) == !p(x)
    ensures multiset(Filter(s, p)) + multiset(Filter(s, q)) == multiset(s)
    ensures |Filter(s, p)| + |Filter(s, q)| == |s|
  {
    if s != [] {
      var init, x := s[..|s| - 1], s[|s| - 1];
      FilterSplit(init, p, q);
      assert s == init + [x];
      assert multiset(s) == multiset(init) + multiset{x};
      if p(x) {
        assert Filter(s, p) == Filter(init, p) + [x];
        assert Filter(s, q) == Filter(init, q);
      } else {
        assert Filter(s, p) == Filter(init, p);
        assert Filter(s, q) == Filter(init, q) + [x];
      }
    }
  }

  /** Nothing satisfies `p`: the filter is empty. */
  lemma {:induction false} FilterNone<T>(s: seq<T>, p: T -> bool)
    requires forall i :: 0 <= i < |s| ==> !p(s[i])
    ensures Filter(s, p) == []
  {
    if s != [] {
      FilterNone(s[..|s| - 1], p);
    }
  }

  lemma {:induction false} FilterMapConcat<A, B>(a: seq<A>, b: seq<A>, f: A -> Option<B>)
    ensures FilterMap(a + b, f) == FilterMap(a, f) + FilterMap(b, f)
    decreases |b|
  {
    if b == [] {
      assert a + b == a;
    } else {
      assert (a + b)[..|a + b| - 1] == a + b[..|b| - 1];
      FilterMapConcat(a, b[..|b| - 1], f);
    }
  }

  lemma {:induction false} FilterMapMembers<A, B>(s: seq<A>, f: A -> Option<B>, y: B)
    ensures y in FilterMap(s, f) <==> exists i :: 0 <= i < |s| && f(s[i]) == Some(y)
  {
    if s != [] {
      var init, last := s[..|s| - 1], s[|s| - 1];
      FilterMapMembers(init, f, y);
      var tail := match f(last) case Some(z) => [z] case None => [];
      assert FilterMap(s, f) == FilterMap(init, f) + tail;
      assert y in tail <==> f(last) == Some(y);
      if y in FilterMap(init, f) {
        var i :| 0 <= i < |init| && f(init[i]) == Some(y);
        assert s[i] == init[i];
      }
      if exists i :: 0 <= i < |s| && f(s[i]) == Some(y) {
        var i :| 0 <= i < |s| && f(s[i]) == Some(y);
        if i < |init| {
          assert init[i] == s[i];
        }
      }
    }
  }

  /** FilterMap yields nothing exactly when `f` gives None everywhere. */
  lemma {:induction false} FilterMapEmpty<A, B>(s: seq<A>, f: A -> Option<B>)
    ensures FilterMap(s, f) == [] <==> forall i :: 0 <= i < |s| ==> f(s[i]).None?
  {
    if s != [] {
      var init := s[..|s| - 1];
      FilterMapEmpty(init, f);
      if forall i :: 0 <= i < |init| ==> f(init[i]).None? {
        assert forall i :: 0 <= i < |init| ==> f(s[i]).None? by {
          forall i | 0 <= i < |init| ensures f(s[i]).None? { assert s[i] == init[i]; }
        }
      }
    }
  }
}
