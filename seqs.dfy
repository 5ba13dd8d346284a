/**
 * Order-preserving selection from a sequence: the shape of every Go loop
 * in the package that appends the elements passing a test to a new slice.
 */
module Seqs {

  /** The elements of s that satisfy keep, in their original order. */
  function Filter<T>(s: seq<T>, keep: T -> bool): (r: seq<T>)
    ensures |r| <= |s|
  {
    if s == [] then []
    else Filter(s[..|s| - 1], keep) + (if keep(s[|s| - 1]) then [s[|s| - 1]] else [])
  }

  /** The positions of s whose elements satisfy keep, in increasing order. */
  function Positions<T>(s: seq<T>, keep: T -> bool): seq<nat>
  {
    if s == [] then []
    else Positions(s[..|s| - 1], keep) + (if keep(s[|s| - 1]) then [|s| - 1] else [])
  }

  predicate Increasing(idx: seq<nat>) {
    forall i, j | 0 <= i < j < |idx| :: idx[i] < idx[j]
  }

  /** Extending the input by one element extends the result by it exactly when it passes. */
  lemma FilterSnoc<T>(s: seq<T>, i: nat, keep: T -> bool)
    requires i < |s|
    ensures Filter(s[..i + 1], keep) == Filter(s[..i], keep) + (if keep(s[i]) then [s[i]] else [])
  {
    assert s[..i + 1][..i] == s[..i];
  }

  /**
   * Values that agree with f on all keys but the last, followed by f of the
   * last key, agree with f on every key.
   */
  lemma SnocPointwise<K, T>(keys: seq<K>, f: K --> T, prev: seq<T>)
    requires keys != [] && forall k | k in keys :: f.requires(k)
    requires |prev| == |keys| - 1 && forall i | 0 <= i < |prev| :: prev[i] == f(keys[i])
    ensures var r := prev + [f(keys[|keys| - 1])];
      |r| == |keys| && forall i | 0 <= i < |keys| :: r[i] == f(keys[i])
  {
  }

  /**
   * Filter keeps order: its k-th element is s at the k-th of an increasing
   * list of positions, so the result is a subsequence of s.
   */
  lemma {:induction false} FilterSubsequence<T>(s: seq<T>, keep: T -> bool)
    ensures var r, idx := Filter(s, keep), Positions(s, keep);
      && |r| == |idx|
      && Increasing(idx)
      && (forall k | 0 <= k < |idx| :: idx[k] < |s| && r[k] == s[idx[k]])
  {
    if s != [] {
      var s', x := s[..|s| - 1], s[|s| - 1];
      FilterSubsequence(s', keep);
      var r', idx' := Filter(s', keep), Positions(s', keep);
      if keep(x) {
        assert Filter(s, keep) == r' + [x];
        assert Positions(s, keep) == idx' + [|s'|];
      }
    }
  }

  /** The positions selected are exactly those whose elements pass the test. */
  lemma {:induction false} PositionsSelect<T>(s: seq<T>, keep: T -> bool)
    ensures forall i | 0 <= i < |s| :: keep(s[i]) <==> i in Positions(s, keep)
    ensures forall i | i in Positions(s, keep) :: i < |s|
  {
    if s != [] {
      var s' := s[..|s| - 1];
      PositionsSelect(s', keep);
      assert forall i | 0 <= i < |s'| :: s'[i] == s[i];
    }
  }

  /** An element is in the result exactly when it is in s and passes the test. */
  lemma {:induction false} FilterMembers<T>(s: seq<T>, keep: T -> bool, x: T)
    ensures x in Filter(s, keep) <==> x in s && keep(x)
  {
    if s != [] {
      var s' := s[..|s| - 1];
      FilterMembers(s', keep, x);
      assert s == s' + [s[|s| - 1]];
    }
  }

  /** Keeping the passing and the failing elements splits s in two. */
  lemma {:induction false} FilterPartition<T>(s: seq<T>, keep: T -> bool, drop: T -> bool)
    requires forall x :: drop(x) <==> !keep(x)
    ensures multiset(Filter(s, keep)) + multiset(Filter(s, drop)) == multiset(s)
    ensures |Filter(s, keep)| + |Filter(s, drop)| == |s|
  {
    if s != [] {
      var s', x := s[..|s| - 1], s[|s| - 1];
      FilterPartition(s', keep, drop);
      assert s == s' + [x];
      assert multiset(s) == multiset(s') + multiset{x};
      if keep(x) {
        assert Filter(s, drop) == Filter(s', drop);
        assert multiset(Filter(s, keep)) == multiset(Filter(s', keep)) + multiset{x};
      } else {
        assert Filter(s, keep) == Filter(s', keep);
        assert multiset(Filter(s, drop)) == multiset(Filter(s', drop)) + multiset{x};
      }
    }
  }
}
