/**
  `Array.prototype.filter` on sequences: keep, in order, the elements that
  satisfy a predicate.
 */
module Sequences {

  /** The elements of `s` that satisfy `p`, in their original order.
      Written from the back so that the positions that are kept need no
      re-numbering; it visits the same elements as a front-to-back pass. */
  function Filter<T>(s: seq<T>, p: T -> bool): (r: seq<T>)
    ensures |r| <= |s|
    ensures forall x :: x in r ==> x in s && p(x)
    ensures forall x :: x in s && p(x) ==> x in r
  {
    if s == [] then []
    else
      var init := Filter(s[..|s| - 1], p);
      assert s == s[..|s| - 1] + [s[|s| - 1]];
      if p(s[|s| - 1]) then init + [s[|s| - 1]] else init
  }

  /** The conjunction of two predicates. */
  function Both<T>(p: T -> bool, q: T -> bool): T -> bool {
    x => p(x) && q(x)
  }

  /** The negation of a predicate. */
  function Not<T>(p: T -> bool): T -> bool {
    x => !p(x)
  }

  /** The positions of `s` whose elements satisfy `p`, in increasing order. */
  function KeptPositions<T>(s: seq<T>, p: T -> bool): seq<nat>
  {
    if s == [] then []
    else
      var init := KeptPositions(s[..|s| - 1], p);
      if p(s[|s| - 1]) then init + [|s| - 1] else init
  }

  predicate StrictlyIncreasing(ix: seq<nat>) {
    forall k, l :: 0 <= k < l < |ix| ==> ix[k] < ix[l]
  }

  /** `Filter(s, p)` is the order-preserving subsequence of `s` made of the
      elements at exactly the positions where `p` holds. */
  lemma FilterIsSubsequence<T>(s: seq<T>, p: T -> bool)
    ensures var r, ix := Filter(s, p), KeptPositions(s, p);
            && |ix| == |r|
            && (forall k :: 0 <= k < |ix| ==> ix[k] < |s| && r[k] == s[ix[k]])
            && StrictlyIncreasing(ix)
            && (forall i :: 0 <= i < |s| ==> (i in ix <==> p(s[i])))
  {
    KeptPositionsPick(s, p);
    KeptPositionsIncrease(s, p);
    KeptPositionsExact(s, p);
  }

  lemma {:induction false} KeptPositionsPick<T>(s: seq<T>, p: T -> bool)
    ensures var r, ix := Filter(s, p), KeptPositions(s, p);
            && |ix| == |r|
            && (forall k :: 0 <= k < |ix| ==> ix[k] < |s| && r[k] == s[ix[k]])
  {
    if s != [] {
      var n := |s| - 1;
      KeptPositionsPick(s[..n], p);
      var r0, ix0 := Filter(s[..n], p), KeptPositions(s[..n], p);
      assert forall k :: 0 <= k < |ix0| ==> ix0[k] < n && r0[k] == s[ix0[k]];
    }
  }

  lemma {:induction false} KeptPositionsIncrease<T>(s: seq<T>, p: T -> bool)
    ensures forall k :: 0 <= k < |KeptPositions(s, p)| ==> KeptPositions(s, p)[k] < |s|
    ensures StrictlyIncreasing(KeptPositions(s, p))
  {
    if s != [] {
      var n := |s| - 1;
      KeptPositionsIncrease(s[..n], p);
      var ix0 := KeptPositions(s[..n], p);
      assert StrictlyIncreasing(ix0);
      if p(s[n]) {
        var ix := ix0 + [n];
        assert KeptPositions(s, p) == ix;
        forall k, l | 0 <= k < l < |ix| ensures ix[k] < ix[l] {
          if l < |ix0| {
            assert ix[k] == ix0[k] && ix[l] == ix0[l];
            assert ix0[k] < ix0[l];
          } else {
            assert ix[k] == ix0[k] < |s[..n]| == n == ix[l];
          }
        }
      }
    }
  }

  lemma {:induction false} KeptPositionsExact<T>(s: seq<T>, p: T -> bool)
    ensures forall i :: 0 <= i < |s| ==> (i in KeptPositions(s, p) <==> p(s[i]))
  {
    if s != [] {
      var n := |s| - 1;
      KeptPositionsExact(s[..n], p);
      KeptPositionsIncrease(s[..n], p);
      forall i | 0 <= i < |s| ensures i in KeptPositions(s, p) <==> p(s[i]) {
        if i < n {
          assert s[..n][i] == s[i];
        }
      }
    }
  }

  /** Filtering by `p` and then by `q` is filtering by their conjunction. */
  lemma {:induction false} FilterConjunction<T>(s: seq<T>, p: T -> bool, q: T -> bool)
    ensures Filter(Filter(s, p), q) == Filter(s, Both(p, q))
  {
    if s != [] {
      var n := |s| - 1;
      FilterConjunction(s[..n], p, q);
      var init := Filter(s[..n], p);
      if p(s[n]) {
        var t := init + [s[n]];
        assert t[..|t| - 1] == init;
        assert Filter(t, q) == Filter(init, q) + (if q(s[n]) then [s[n]] else []);
      }
    }
  }

  /** Filtering by two predicates that agree on every element of `s` gives
      the same result. */
  lemma {:induction false} FilterAgreeing<T>(s: seq<T>, p: T -> bool, q: T -> bool)
    requires forall x :: x in s ==> p(x) == q(x)
    ensures Filter(s, p) == Filter(s, q)
  {
    if s != [] {
      FilterAgreeing(s[..|s| - 1], p, q);
    }
  }

  /** Two filters commute. */
  lemma FilterCommutes<T>(s: seq<T>, p: T -> bool, q: T -> bool)
    ensures Filter(Filter(s, p), q) == Filter(Filter(s, q), p)
  {
    FilterConjunction(s, p, q);
    FilterConjunction(s, q, p);
    FilterAgreeing(s, Both(p, q), Both(q, p));
  }

  /** A predicate that holds of every element keeps the whole sequence. */
  lemma {:induction false} FilterKeepsAll<T>(s: seq<T>, p: T -> bool)
    requires forall x :: x in s ==> p(x)
    ensures Filter(s, p) == s
  {
    if s != [] {
      FilterKeepsAll(s[..|s| - 1], p);
    }
  }

  /** A predicate and its negation split `s` into two parts that together
      hold every element exactly as often as `s` does. */
  lemma {:induction false} FilterPartition<T>(s: seq<T>, p: T -> bool)
    ensures multiset(Filter(s, p)) + multiset(Filter(s, Not(p))) == multiset(s)
  {
    if s != [] {
      var n := |s| - 1;
      FilterPartition(s[..n], p);
      assert s == s[..n] + [s[n]];
    }
  }
}
