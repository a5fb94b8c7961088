/**
 * The stable sort by key that `From` applies to its array before it builds
 * the tree: an insertion sort that places each pair after every pair whose
 * key is not greater, so pairs with equal keys keep their relative order.
 */
module KeySort {
  import opened Contents

  /** Keys never decrease along the sequence. */
  ghost predicate NonDecreasing<V>(s: seq<(int, V)>) {
    forall i, j :: 0 <= i < j < |s| ==> s[i].0 <= s[j].0
  }

  /** Places `p` after the last pair of `t` whose key is not greater than its own. */
  function InsertByKey<V>(t: seq<(int, V)>, p: (int, V)): (r: seq<(int, V)>)
    ensures multiset(r) == multiset(t) + multiset{p}
  {
    if |t| == 0 || t[|t| - 1].0 <= p.0 then t + [p]
    else
      var u := t[..|t| - 1];
      assert t == u + [t[|t| - 1]];
      InsertByKey(u, p) + [t[|t| - 1]]
  }

  /** Sorts by key, stably: each pair in turn is inserted into the sorted prefix. */
  function SortByKey<V>(s: seq<(int, V)>): (r: seq<(int, V)>)
    ensures multiset(r) == multiset(s)
  {
    if |s| == 0 then []
    else
      var u := s[..|s| - 1];
      assert s == u + [s[|s| - 1]];
      InsertByKey(SortByKey(u), s[|s| - 1])
  }

  /** Inserting into a sorted sequence keeps it sorted. */
  lemma {:induction false} InsertByKeySorted<V>(t: seq<(int, V)>, p: (int, V))
    requires NonDecreasing(t)
    ensures NonDecreasing(InsertByKey(t, p))
  {
    if |t| > 0 && p.0 < t[|t| - 1].0 {
      var u := t[..|t| - 1];
      var last := t[|t| - 1];
      InsertByKeySorted(u, p);
      var r' := InsertByKey(u, p);
      var r := r' + [last];
      assert InsertByKey(t, p) == r;
      forall i | 0 <= i < |u| ensures u[i].0 <= last.0 {
        assert u[i] == t[i];
      }
      InsertByKeyBound(u, p, last.0);
      forall i, j | 0 <= i < j < |r| ensures r[i].0 <= r[j].0 {
        if j == |r| - 1 {
          assert r[i] == r'[i];
        } else {
          assert r[i] == r'[i] && r[j] == r'[j];
        }
      }
    }
  }

  /** Inserting into a sorted sequence updates the denoted map with the new pair. */
  lemma {:induction false} InsertByKeyMap<V>(t: seq<(int, V)>, p: (int, V))
    requires NonDecreasing(t)
    ensures ToMap(InsertByKey(t, p)) == ToMap(t)[p.0 := p.1]
  {
    var r := InsertByKey(t, p);
    if |t| == 0 || t[|t| - 1].0 <= p.0 {
      assert r[..|r| - 1] == t;
    } else {
      var u := t[..|t| - 1];
      var last := t[|t| - 1];
      assert NonDecreasing(u) by {
        forall i, j | 0 <= i < j < |u| ensures u[i].0 <= u[j].0 {
          assert u[i] == t[i] && u[j] == t[j];
        }
      }
      InsertByKeyMap(u, p);
      var r' := InsertByKey(u, p);
      assert r == r' + [last] && r[..|r| - 1] == r';
      assert ToMap(r) == ToMap(u)[p.0 := p.1][last.0 := last.1];
      assert ToMap(t) == ToMap(u)[last.0 := last.1];
      UpdateSwap(ToMap(u), p.0, p.1, last.0, last.1);
    }
  }

  /** Updates of two different keys commute. */
  lemma UpdateSwap<V>(m: map<int, V>, k1: int, v1: V, k2: int, v2: V)
    requires k1 != k2
    ensures m[k1 := v1][k2 := v2] == m[k2 := v2][k1 := v1]
  {
  }

  /** A bound on every key of `t` and on `p` bounds every key after the insertion. */
  lemma {:induction false} InsertByKeyBound<V>(t: seq<(int, V)>, p: (int, V), b: int)
    requires forall i :: 0 <= i < |t| ==> t[i].0 <= b
    requires p.0 <= b
    ensures forall i :: 0 <= i < |InsertByKey(t, p)| ==> InsertByKey(t, p)[i].0 <= b
  {
    if |t| > 0 && p.0 < t[|t| - 1].0 {
      var u := t[..|t| - 1];
      InsertByKeyBound(u, p, b);
      assert InsertByKey(t, p) == InsertByKey(u, p) + [t[|t| - 1]];
    }
  }

  /** The sorted sequence is non-decreasing and denotes the same map: for equal keys the last pair still wins. */
  lemma {:induction false} SortByKeyMap<V>(s: seq<(int, V)>)
    ensures NonDecreasing(SortByKey(s))
    ensures ToMap(SortByKey(s)) == ToMap(s)
  {
    if |s| > 0 {
      var u := s[..|s| - 1];
      SortByKeyMap(u);
      InsertByKeySorted(SortByKey(u), s[|s| - 1]);
      InsertByKeyMap(SortByKey(u), s[|s| - 1]);
    }
  }
}
