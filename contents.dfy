/**
 * What a map holds, read off its arena: the in-order sequence of key-value
 * pairs along `order`, and the finite map from keys to values it denotes.
 */
module Contents {
  import opened Node

  /** The pairs along `order`, in key order for a sorted tree. */
  ghost function ItemsOf<V>(a: Arena, vals: map<nat, V>, order: seq<nat>): (s: seq<(int, V)>)
    requires forall k :: 0 <= k < |order| ==> order[k] in a && order[k] in vals
    ensures |s| == |order|
    ensures forall k :: 0 <= k < |order| ==> s[k] == (a[order[k]].key, vals[order[k]])
  {
    seq(|order|, k requires 0 <= k < |order| => (a[order[k]].key, vals[order[k]]))
  }

  /** Keys strictly increase along the sequence. */
  ghost predicate Increasing<V>(s: seq<(int, V)>) {
    forall i, j :: 0 <= i < j < |s| ==> s[i].0 < s[j].0
  }

  /** The map a sequence of pairs denotes; a later pair for the same key wins. */
  ghost function ToMap<V>(s: seq<(int, V)>): map<int, V> {
    if |s| == 0 then map[] else ToMap(s[..|s| - 1])[s[|s| - 1].0 := s[|s| - 1].1]
  }

  /** The keys of the denoted map are the keys of the pairs. */
  lemma {:induction false} ToMapKeys<V>(s: seq<(int, V)>)
    ensures forall key :: key in ToMap(s) <==> exists j :: 0 <= j < |s| && s[j].0 == key
  {
    if |s| > 0 {
      var t := s[..|s| - 1];
      ToMapKeys(t);
      forall key ensures key in ToMap(s) <==> exists j :: 0 <= j < |s| && s[j].0 == key {
        if key in ToMap(t) {
          var j :| 0 <= j < |t| && t[j].0 == key;
          assert s[j].0 == key;
        }
        if j :| 0 <= j < |s| && s[j].0 == key {
          if j < |s| - 1 {
            assert t[j].0 == key;
          }
        }
      }
    }
  }

  /** With increasing keys, each key maps to the value paired with it. */
  lemma {:induction false} ToMapAt<V>(s: seq<(int, V)>, j: nat)
    requires Increasing(s) && j < |s|
    ensures s[j].0 in ToMap(s) && ToMap(s)[s[j].0] == s[j].1
  {
    var t := s[..|s| - 1];
    if j < |s| - 1 {
      assert Increasing(t);
      ToMapAt(t, j);
      assert t[j] == s[j];
      assert s[j].0 < s[|s| - 1].0;
    }
  }

  /** A key that no pair carries is not in the map. */
  lemma ToMapMissing<V>(s: seq<(int, V)>, key: int)
    requires forall j :: 0 <= j < |s| ==> s[j].0 != key
    ensures key !in ToMap(s)
  {
    ToMapKeys(s);
  }

  /** An increasing sequence denotes `m` when it carries exactly the keys of `m`, each with its value there. */
  lemma ToMapEq<V>(s: seq<(int, V)>, m: map<int, V>)
    requires Increasing(s)
    requires forall j :: 0 <= j < |s| ==> s[j].0 in m && m[s[j].0] == s[j].1
    requires forall key :: key in m ==> exists j :: 0 <= j < |s| && s[j].0 == key
    ensures ToMap(s) == m
  {
    ToMapKeys(s);
    forall key | key in ToMap(s) ensures key in m {
      var j :| 0 <= j < |s| && s[j].0 == key;
    }
    forall key | key in m ensures key in ToMap(s) {
      var j :| 0 <= j < |s| && s[j].0 == key;
      ToMapAt(s, j);
    }
    assert ToMap(s).Keys == m.Keys;
    forall key | key in m ensures ToMap(s)[key] == m[key] {
      var j :| 0 <= j < |s| && s[j].0 == key;
      ToMapAt(s, j);
    }
  }
  /** With increasing keys the map has one entry per pair. */
  lemma {:induction false} ToMapSize<V>(s: seq<(int, V)>)
    requires Increasing(s)
    ensures |ToMap(s)| == |s|
  {
    if |s| > 0 {
      var t := s[..|s| - 1];
      assert Increasing(t);
      ToMapSize(t);
      forall j | 0 <= j < |t| ensures t[j].0 != s[|s| - 1].0 {
        assert t[j] == s[j];
      }
      ToMapMissing(t, s[|s| - 1].0);
    }
  }

  /** The first pair of an increasing sequence has the least key, the last pair the greatest. */
  lemma ToMapBounds<V>(s: seq<(int, V)>)
    requires Increasing(s) && |s| > 0
    ensures forall key :: key in ToMap(s) ==> s[0].0 <= key <= s[|s| - 1].0
  {
    ToMapKeys(s);
    forall key | key in ToMap(s) ensures s[0].0 <= key <= s[|s| - 1].0 {
      var j :| 0 <= j < |s| && s[j].0 == key;
    }
  }

  /** A pair inserted between smaller and larger keys adds its key to the map. */
  lemma ToMapInsert<V>(s: seq<(int, V)>, k: nat, key: int, v: V)
    requires Increasing(s) && k <= |s|
    requires forall j :: 0 <= j < k ==> s[j].0 < key
    requires forall j :: k <= j < |s| ==> key < s[j].0
    ensures Increasing(s[..k] + [(key, v)] + s[k..])
    ensures ToMap(s[..k] + [(key, v)] + s[k..]) == ToMap(s)[key := v]
  {
    var t := s[..k] + [(key, v)] + s[k..];
    forall j | 0 <= j < k ensures t[j] == s[j] {
      assert t[j] == s[..k][j];
    }
    forall j | k < j < |t| ensures t[j] == s[j - 1] {
      assert t[j] == s[k..][j - k - 1];
    }
    ToMapInserted(s, t, k, key, v);
  }

  /** `ToMapInsert` for a sequence described pointwise. */
  lemma ToMapInserted<V>(s: seq<(int, V)>, t: seq<(int, V)>, k: nat, key: int, v: V)
    requires Increasing(s) && k <= |s| && |t| == |s| + 1
    requires forall j :: 0 <= j < k ==> s[j].0 < key
    requires forall j :: k <= j < |s| ==> key < s[j].0
    requires forall j :: 0 <= j < k ==> t[j] == s[j]
    requires t[k] == (key, v)
    requires forall j :: k < j < |t| ==> t[j] == s[j - 1]
    ensures Increasing(t) && ToMap(t) == ToMap(s)[key := v]
  {
    var m := ToMap(s)[key := v];
    forall i, j | 0 <= i < j < |t| ensures t[i].0 < t[j].0 {
      if j < k {
        assert t[i] == s[i] && t[j] == s[j];
      } else if j == k {
        assert t[i] == s[i];
      } else if i < k {
        assert t[i] == s[i] && t[j] == s[j - 1];
      } else if i == k {
        assert t[j] == s[j - 1];
      } else {
        assert t[i] == s[i - 1] && t[j] == s[j - 1];
      }
    }
    forall j | 0 <= j < |t| ensures t[j].0 in m && m[t[j].0] == t[j].1 {
      if j < k {
        ToMapAt(s, j);
      } else if j > k {
        ToMapAt(s, j - 1);
      }
    }
    ToMapKeys(s);
    forall key' | key' in m ensures exists j :: 0 <= j < |t| && t[j].0 == key' {
      if key' == key {
        assert t[k].0 == key';
      } else {
        var j :| 0 <= j < |s| && s[j].0 == key';
        if j < k {
          assert t[j].0 == key';
        } else {
          assert t[j + 1].0 == key';
        }
      }
    }
    ToMapEq(t, m);
  }

  /** Replacing the value of one pair replaces it in the map. */
  lemma ToMapReplace<V>(s: seq<(int, V)>, k: nat, v: V)
    requires Increasing(s) && k < |s|
    ensures Increasing(s[k := (s[k].0, v)])
    ensures ToMap(s[k := (s[k].0, v)]) == ToMap(s)[s[k].0 := v]
  {
    var t := s[k := (s[k].0, v)];
    var m := ToMap(s)[s[k].0 := v];
    forall j | 0 <= j < |t| ensures t[j].0 in m && m[t[j].0] == t[j].1 {
      if j != k {
        ToMapAt(s, j);
      }
    }
    ToMapKeys(s);
    forall key' | key' in m ensures exists j :: 0 <= j < |t| && t[j].0 == key' {
      var j :| 0 <= j < |s| && s[j].0 == key';
      assert t[j].0 == key';
    }
    ToMapEq(t, m);
  }

  /** Dropping one pair removes its key from the map. */
  lemma ToMapRemove<V>(s: seq<(int, V)>, k: nat)
    requires Increasing(s) && k < |s|
    ensures Increasing(s[..k] + s[k + 1..])
    ensures ToMap(s[..k] + s[k + 1..]) == ToMap(s) - {s[k].0}
  {
    var t := s[..k] + s[k + 1..];
    forall j | 0 <= j < k ensures t[j] == s[j] {
      assert t[j] == s[..k][j];
    }
    forall j | k <= j < |t| ensures t[j] == s[j + 1] {
      assert t[j] == s[k + 1..][j - k];
    }
    ToMapRemoved(s, t, k);
  }

  /** `ToMapRemove` for a sequence described pointwise. */
  lemma ToMapRemoved<V>(s: seq<(int, V)>, t: seq<(int, V)>, k: nat)
    requires Increasing(s) && k < |s| && |t| == |s| - 1
    requires forall j :: 0 <= j < k ==> t[j] == s[j]
    requires forall j :: k <= j < |t| ==> t[j] == s[j + 1]
    ensures Increasing(t) && ToMap(t) == ToMap(s) - {s[k].0}
  {
    var m := ToMap(s) - {s[k].0};
    forall i, j | 0 <= i < j < |t| ensures t[i].0 < t[j].0 {
      if j < k {
        assert t[i] == s[i] && t[j] == s[j];
      } else if i < k {
        assert t[i] == s[i] && t[j] == s[j + 1];
      } else {
        assert t[i] == s[i + 1] && t[j] == s[j + 1];
      }
    }
    forall j | 0 <= j < |t| ensures t[j].0 in m && m[t[j].0] == t[j].1 {
      if j < k {
        ToMapAt(s, j);
      } else {
        ToMapAt(s, j + 1);
        assert s[j + 1].0 != s[k].0;
      }
    }
    ToMapKeys(s);
    forall key' | key' in m ensures exists j :: 0 <= j < |t| && t[j].0 == key' {
      var j :| 0 <= j < |s| && s[j].0 == key';
      if j < k {
        assert t[j].0 == key';
      } else {
        assert t[j - 1].0 == key';
      }
    }
    ToMapEq(t, m);
  }

  /** An increasing sequence of pairs is determined by the map it denotes. */
  lemma {:induction false} ToMapInjective<V>(s: seq<(int, V)>, t: seq<(int, V)>)
    requires Increasing(s) && Increasing(t) && ToMap(s) == ToMap(t)
    ensures s == t
  {
    ToMapSize(s);
    ToMapSize(t);
    if |s| > 0 {
      var n := |s| - 1;
      ToMapBounds(s);
      ToMapBounds(t);
      ToMapAt(s, n);
      ToMapAt(t, n);
      assert s[n] == t[n];
      ToMapRemove(s, n);
      ToMapRemove(t, n);
      assert s[..n] + s[n + 1..] == s[..n];
      assert t[..n] + t[n + 1..] == t[..n];
      ToMapInjective(s[..n], t[..n]);
      assert s == s[..n] + [s[n]];
      assert t == t[..n] + [t[n]];
    }
  }

  /** Two increasing sequences are equal exactly when they denote the same map. */
  lemma ToMapDetermines<V>(s: seq<(int, V)>, t: seq<(int, V)>)
    requires Increasing(s) && Increasing(t)
    ensures ToMap(s) == ToMap(t) <==> s == t
  {
    if ToMap(s) == ToMap(t) {
      ToMapInjective(s, t);
    }
  }

  /** The pairs of a sorted tree have increasing keys. */
  lemma ItemsIncreasing<V>(a: Arena, vals: map<nat, V>, order: seq<nat>)
    requires forall k :: 0 <= k < |order| ==> order[k] in a && order[k] in vals
    requires Sorted(a, order)
    ensures Increasing(ItemsOf(a, vals, order))
  {
    var s := ItemsOf(a, vals, order);
    forall i, j | 0 <= i < j < |s| ensures s[i].0 < s[j].0 {
      assert KeyAt(a, order, i) < KeyAt(a, order, j);
    }
  }

  /** A node of a sorted tree maps its key to its value. */
  lemma ModelAtNode<V>(a: Arena, vals: map<nat, V>, order: seq<nat>, info: map<nat, Info>, x: nat)
    requires Linked(a, order, info) && Sorted(a, order) && vals.Keys == a.Keys && x in a
    ensures a[x].key in ToMap(ItemsOf(a, vals, order)) && ToMap(ItemsOf(a, vals, order))[a[x].key] == vals[x]
  {
    assert LinkOk(a, order, info, x);
    ItemsIncreasing(a, vals, order);
    ToMapAt(ItemsOf(a, vals, order), info[x].pos);
  }

  /** A key that no node carries is not in the map. */
  lemma ModelMissing<V>(a: Arena, vals: map<nat, V>, order: seq<nat>, key: int)
    requires forall k :: 0 <= k < |order| ==> order[k] in a && order[k] in vals
    requires forall k :: 0 <= k < |order| ==> a[order[k]].key != key
    ensures key !in ToMap(ItemsOf(a, vals, order))
  {
    ToMapMissing(ItemsOf(a, vals, order), key);
  }
}
