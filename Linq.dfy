/**
 * The query shapes the services build with LINQ: the rows of a keyed store
 * in key order, `Where`, and the facts about them the services rely on.
 */
module Linq {

  /** The rows of `m` whose keys lie in [lo, hi), in ascending key order. */
  function Rows<V>(m: map<int, V>, lo: int, hi: int): (r: seq<V>)
    ensures |r| <= if lo < hi then hi - lo else 0
    decreases hi - lo
  {
    if hi <= lo then []
    else if lo in m then [m[lo]] + Rows(m, lo + 1, hi)
    else Rows(m, lo + 1, hi)
  }

  /** A row is listed exactly when its key lies in the range. */
  lemma {:induction false} RowsMembership<V>(m: map<int, V>, lo: int, hi: int, v: V)
    ensures v in Rows(m, lo, hi) <==> exists k :: lo <= k < hi && k in m && m[k] == v
    decreases hi - lo
  {
    if lo < hi {
      RowsMembership(m, lo + 1, hi, v);
      if lo in m && m[lo] == v {
        assert v == Rows(m, lo, hi)[0];
      }
    }
  }

  /** Rows whose key field equals their key come out in strictly increasing key order. */
  lemma {:induction false} RowsIncreasing<V>(m: map<int, V>, lo: int, hi: int, key: V -> int)
    requires forall k :: k in m ==> key(m[k]) == k
    ensures Increasing(Rows(m, lo, hi), key)
    ensures forall v :: v in Rows(m, lo, hi) ==> lo <= key(v) < hi
    decreases hi - lo
  {
    if lo < hi {
      RowsIncreasing(m, lo + 1, hi, key);
      forall v | v in Rows(m, lo, hi)
        ensures lo <= key(v) < hi
      {
        RowsMembership(m, lo, hi, v);
      }
    }
  }

  /** Strictly increasing in `key`. */
  ghost predicate Increasing<V>(s: seq<V>, key: V -> int)
  {
    forall i, j :: 0 <= i < j < |s| ==> key(s[i]) < key(s[j])
  }

  /** `Where(p)`: the elements satisfying `p`, in their original order. */
  function Where<V>(s: seq<V>, p: V -> bool): (r: seq<V>)
    ensures |r| <= |s|
    ensures forall x :: x in r ==> x in s && p(x)
  {
    if s == [] then []
    else if p(s[0]) then [s[0]] + Where(s[1..], p)
    else Where(s[1..], p)
  }

  /** Nothing satisfying `p` is dropped. */
  lemma {:induction false} WhereKeeps<V>(s: seq<V>, p: V -> bool, x: V)
    requires x in s && p(x)
    ensures x in Where(s, p)
  {
    if s[0] != x {
      WhereKeeps(s[1..], p, x);
    }
  }

  /** Membership in `Where(s, p)`, both directions. */
  lemma WhereMembership<V>(s: seq<V>, p: V -> bool, x: V)
    ensures x in Where(s, p) <==> x in s && p(x)
  {
    if x in s && p(x) {
      WhereKeeps(s, p, x);
    }
  }

  /** `a` is obtained from `b` by deleting elements, keeping the order of the rest. */
  ghost predicate Subsequence<V>(a: seq<V>, b: seq<V>)
    decreases |b|
  {
    if a == [] then true
    else if b == [] then false
    else (a[0] == b[0] && Subsequence(a[1..], b[1..])) || Subsequence(a, b[1..])
  }

  lemma {:induction false} WhereIsSubsequence<V>(s: seq<V>, p: V -> bool)
    ensures Subsequence(Where(s, p), s)
  {
    if s != [] {
      WhereIsSubsequence(s[1..], p);
      var r := Where(s, p);
      if p(s[0]) {
        assert r[0] == s[0] && r[1..] == Where(s[1..], p);
      }
    }
  }

  /** `Where` keeps an increasing list increasing. */
  lemma {:induction false} WhereIncreasing<V>(s: seq<V>, p: V -> bool, key: V -> int)
    requires Increasing(s, key)
    ensures Increasing(Where(s, p), key)
  {
    if s != [] {
      WhereIncreasing(s[1..], p, key);
      var rest := Where(s[1..], p);
      forall x | x in rest
        ensures key(s[0]) < key(x)
      {
        var j :| 0 <= j < |s[1..]| && s[1..][j] == x;
        assert s[j + 1] == x;
      }
    }
  }

  /** Two predicates that agree everywhere select the same rows. */
  lemma {:induction false} WhereExtensional<V>(s: seq<V>, p: V -> bool, q: V -> bool)
    requires forall x :: x in s ==> p(x) == q(x)
    ensures Where(s, p) == Where(s, q)
  {
    if s != [] {
      WhereExtensional(s[1..], p, q);
    }
  }
}
