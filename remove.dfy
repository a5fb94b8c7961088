/**
 * `raw_remove`, first half: `replace` overwrites the pair of the node to
 * remove with that of its in-order successor (or, without a right subtree,
 * of its left child) and repeats below, down to a node without children;
 * that node is freed and the link to it cleared. In the ghost bookkeeping the
 * freed handle leaves `order`, and every position and segment bound beyond
 * it moves down by one.
 */
module Removal {
  import opened Wrappers
  import opened Flag
  import opened Node
  import opened Frame
  import opened Rotation
  import opened Contents

  /** `s` without its element at position `k`. */
  ghost function Without<T>(s: seq<T>, k: nat): (t: seq<T>)
    requires k < |s|
    ensures |t| == |s| - 1
    ensures forall j {:trigger t[j]} :: 0 <= j < k ==> t[j] == s[j]
    ensures forall j {:trigger t[j]} :: k <= j < |t| ==> t[j] == s[j + 1]
  {
    seq(|s| - 1, j requires 0 <= j < |s| - 1 => if j < k then s[j] else s[j + 1])
  }

  /** Overwriting position `p` with its successor and dropping the successor is dropping position `p`. */
  lemma WithoutCopiedDown<T>(s: seq<T>, p: nat)
    requires p + 1 < |s|
    ensures Without(s[p := s[p + 1]], p + 1) == Without(s, p)
  {
    assert forall j :: 0 <= j < |s| - 1 ==> Without(s[p := s[p + 1]], p + 1)[j] == Without(s, p)[j];
  }

  /** Overwriting position `p` with its predecessor and dropping the predecessor is dropping position `p`. */
  lemma WithoutCopiedUp<T>(s: seq<T>, p: nat)
    requires 0 < p < |s|
    ensures Without(s[p := s[p - 1]], p - 1) == Without(s, p)
  {
    assert forall j :: 0 <= j < |s| - 1 ==> Without(s[p := s[p - 1]], p - 1)[j] == Without(s, p)[j];
  }

  /** `b` differs from `a` in keys at most: the copies `replace` makes change no link and no flag. */
  ghost predicate SameLinks(a: Arena, b: Arena) {
    a.Keys == b.Keys && forall i :: i in a ==> b[i] == a[i].(key := b[i].key)
  }

  lemma SameLinksTrans(a: Arena, b: Arena, c: Arena)
    requires SameLinks(a, b) && SameLinks(b, c)
    ensures SameLinks(a, c)
  {
    forall i | i in a ensures c[i] == a[i].(key := c[i].key) {
      assert b[i] == a[i].(key := b[i].key);
    }
  }

  /** Copying keys keeps the local link conditions of a node. */
  lemma SameLinksLinkOk(a: Arena, order: seq<nat>, info: map<nat, Info>, b: Arena, i: nat)
    requires SameLinks(a, b) && LinkOk(a, order, info, i)
    ensures LinkOk(b, order, info, i)
  {
    assert b[i] == a[i].(key := b[i].key);
    if a[i].left.Some? { assert b[a[i].left.value] == a[a[i].left.value].(key := b[a[i].left.value].key); }
    if a[i].right.Some? { assert b[a[i].right.value] == a[a[i].right.value].(key := b[a[i].right.value].key); }
    if a[i].parent.Some? { assert b[a[i].parent.value] == a[a[i].parent.value].(key := b[a[i].parent.value].key); }
  }

  /** Copying keys keeps the colour conditions of a node. */
  lemma SameLinksShade(a: Arena, bh: map<nat, nat>, b: Arena, i: nat)
    requires SameLinks(a, b) && i in a && i in bh
    ensures ColorOk(a, i) ==> ColorOk(b, i)
    ensures RedOk(a, i) ==> RedOk(b, i)
    ensures BhOk(a, bh, i) ==> BhOk(b, bh, i)
  {
    assert b[i] == a[i].(key := b[i].key);
    if a[i].left.Some? && a[i].left.value in a { assert b[a[i].left.value] == a[a[i].left.value].(key := b[a[i].left.value].key); }
    if a[i].right.Some? && a[i].right.value in a { assert b[a[i].right.value] == a[a[i].right.value].(key := b[a[i].right.value].key); }
    ShadeKeptLemma(a, bh, b, bh, i);
  }

  /** Copying keys keeps the tree linked and its red-black conditions. */
  lemma SameLinksKept(a: Arena, order: seq<nat>, info: map<nat, Info>, root: NodeRef, bh: map<nat, nat>, b: Arena)
    requires SameLinks(a, b) && Linked(a, order, info) && RedBlack(a, root, bh)
    ensures Linked(b, order, info) && RedBlack(b, root, bh)
  {
    forall i | i in b ensures LinkOk(b, order, info, i) && ColorOk(b, i) && RedOk(b, i) && BhOk(b, bh, i) {
      assert LinkOk(a, order, info, i) && ColorOk(a, i) && RedOk(a, i) && BhOk(a, bh, i);
      SameLinksLinkOk(a, order, info, b, i);
      SameLinksShade(a, bh, b, i);
    }
    if root.Some? {
      assert b[root.value] == a[root.value].(key := b[root.value].key);
    }
  }

  /** Copying keys keeps the root link right. */
  lemma SameLinksRootOk(a: Arena, order: seq<nat>, info: map<nat, Info>, root: NodeRef, b: Arena)
    requires SameLinks(a, b) && a.Keys == info.Keys && RootOk(a, root, order, info)
    ensures RootOk(b, root, order, info)
  {
    if root.Some? {
      assert b[root.value] == a[root.value].(key := b[root.value].key);
    }
    forall i | i in b && b[i].parent.None? ensures root == Some(i) {
      assert b[i] == a[i].(key := b[i].key);
    }
  }

  /** The pairs after the pair of `m` is copied into `n`: position `pos(n)` holds the pair at `pos(m)`. */
  lemma CopiedItems<V>(a: Arena, vals: map<nat, V>, order: seq<nat>, info: map<nat, Info>, n: nat, m: nat)
    requires Linked(a, order, info) && vals.Keys == a.Keys && n in a && m in a
    ensures LinkOk(a, order, info, n) && LinkOk(a, order, info, m)
    ensures var s := ItemsOf(a, vals, order);
      ItemsOf(a[n := a[n].(key := a[m].key)], vals[n := vals[m]], order) == s[info[n].pos := s[info[m].pos]]
  {
    assert LinkOk(a, order, info, n) && LinkOk(a, order, info, m);
    var s := ItemsOf(a, vals, order);
    var t := ItemsOf(a[n := a[n].(key := a[m].key)], vals[n := vals[m]], order);
    forall k | 0 <= k < |order| ensures t[k] == s[info[n].pos := s[info[m].pos]][k] {
      assert info[order[k]].pos == k;
    }
  }

  /** Copying the pair of the successor `m` into `n` and dropping `m`'s position drops `n`'s pair. */
  lemma CopiedDown<V>(a: Arena, vals: map<nat, V>, order: seq<nat>, info: map<nat, Info>, n: nat, m: nat)
    requires Linked(a, order, info) && vals.Keys == a.Keys && n in a && m in a
    requires m in info && n in info && info[m].pos == info[n].pos + 1 && info[m].pos < |order|
    ensures Without(ItemsOf(a[n := a[n].(key := a[m].key)], vals[n := vals[m]], order), info[m].pos)
      == Without(ItemsOf(a, vals, order), info[n].pos)
  {
    CopiedItems(a, vals, order, info, n, m);
    WithoutCopiedDown(ItemsOf(a, vals, order), info[n].pos);
  }

  /** Copying the pair of the predecessor `l` into `n` and dropping `l`'s position drops `n`'s pair. */
  lemma CopiedUp<V>(a: Arena, vals: map<nat, V>, order: seq<nat>, info: map<nat, Info>, n: nat, l: nat)
    requires Linked(a, order, info) && vals.Keys == a.Keys && n in a && l in a
    requires l in info && n in info && info[l].pos + 1 == info[n].pos && info[n].pos < |order|
    ensures var b := a[n := a[n].(key := a[l].key)];
      (forall k :: 0 <= k < |order| ==> order[k] in b) &&
      ItemsOf(b, vals[n := vals[l]], Without(order, info[l].pos)) == Without(ItemsOf(a, vals, order), info[n].pos)
  {
    var b := a[n := a[n].(key := a[l].key)];
    CopiedItems(a, vals, order, info, n, l);
    WithoutCopiedUp(ItemsOf(a, vals, order), info[n].pos);
    ItemsWithout(b, vals[n := vals[l]], order, info[l].pos);
  }

  /** The pairs along `order` without position `k` are the pairs along `order` without their `k`-th. */
  lemma ItemsWithout<V>(a: Arena, vals: map<nat, V>, order: seq<nat>, k: nat)
    requires forall j :: 0 <= j < |order| ==> order[j] in a && order[j] in vals
    requires k < |order|
    ensures ItemsOf(a, vals, Without(order, k)) == Without(ItemsOf(a, vals, order), k)
  {
  }

  /**
   * A node without a right child has black height 0, so its left child, if
   * any, is a red node without children, just before it in `order`.
   */
  lemma LeftLeaf(a: Arena, order: seq<nat>, info: map<nat, Info>, root: NodeRef, bh: map<nat, nat>, n: nat)
    requires Linked(a, order, info) && RedBlack(a, root, bh) && n in a && a[n].right.None? && a[n].left.Some?
    ensures var l := a[n].left.value;
      && l in a && a[l].left.None? && a[l].right.None? && LinkOk(a, order, info, l)
      && LinkOk(a, order, info, n) && info[l].pos + 1 == info[n].pos
  {
    var l := a[n].left.value;
    ChildOf(a, order, info, n, LEFT);
    assert BhOk(a, bh, n) && BhOk(a, bh, l) && RedOk(a, l) && ColorOk(a, l);
    assert LinkOk(a, order, info, n);
  }

  /**
   * `replace`: from `n`, the pair of the first node of the right subtree
   * (or, without one, of the left child) is copied up and `replace` goes on
   * from there; a node without children is the result. Only keys and values
   * change, and dropping the result's position from the copied pairs is
   * dropping `n`'s position from the original ones.
   */
  method Replace<V>(a: Arena, vals: map<nat, V>, n: nat, ghost order: seq<nat>, ghost info: map<nat, Info>,
                    ghost root: NodeRef, ghost bh: map<nat, nat>)
    returns (b: Arena, vs: map<nat, V>, leaf: nat)
    requires Linked(a, order, info) && RedBlack(a, root, bh) && vals.Keys == a.Keys && n in a
    ensures SameLinks(a, b) && vs.Keys == vals.Keys
    ensures leaf in a && a[leaf].left.None? && a[leaf].right.None? && LinkOk(a, order, info, leaf) && LinkOk(a, order, info, n)
    ensures ItemsOf(b, vs, Without(order, info[leaf].pos)) == Without(ItemsOf(a, vals, order), info[n].pos)
    decreases |order| - info[n].pos
  {
    assert LinkOk(a, order, info, n);
    if a[n].right.None? {
      if a[n].left.None? {
        return a, vals, n;
      }
      var l := a[n].left.value;
      LeftStep(a, vals, order, info, root, bh, n);
      return a[n := a[n].(key := a[l].key)], vals[n := vals[l]], l;
    }
    var m := Min(a, a[n].right.value, order, info);
    MinStep(a, vals, order, info, root, bh, n, m);
    var a1 := a[n := a[n].(key := a[m].key)];
    var vals1 := vals[n := vals[m]];
    b, vs, leaf := Replace(a1, vals1, m, order, info, root, bh);
    ReplacedKept(a, a1, b, order, info, leaf);
  }

  /** Without a right child, `n`'s left child is a leaf just before it; copying it into `n` leaves it to be freed in `n`'s place. */
  lemma LeftStep<V>(a: Arena, vals: map<nat, V>, order: seq<nat>, info: map<nat, Info>, root: NodeRef, bh: map<nat, nat>, n: nat)
    requires Linked(a, order, info) && RedBlack(a, root, bh) && vals.Keys == a.Keys && n in a
    requires a[n].right.None? && a[n].left.Some?
    ensures var l := a[n].left.value;
      && l in a && a[l].left.None? && a[l].right.None? && LinkOk(a, order, info, l) && LinkOk(a, order, info, n)
      && SameLinks(a, a[n := a[n].(key := a[l].key)])
      && ItemsOf(a[n := a[n].(key := a[l].key)], vals[n := vals[l]], Without(order, info[l].pos))
         == Without(ItemsOf(a, vals, order), info[n].pos)
  {
    var l := a[n].left.value;
    LeftLeaf(a, order, info, root, bh, n);
    CopiedUp(a, vals, order, info, n, l);
  }

  /** The successor `m` of `n` (the minimum of its right subtree) sits just after it, and copying it into `n` keeps the tree's links and colours. */
  lemma MinStep<V>(a: Arena, vals: map<nat, V>, order: seq<nat>, info: map<nat, Info>, root: NodeRef, bh: map<nat, nat>, n: nat, m: nat)
    requires Linked(a, order, info) && RedBlack(a, root, bh) && vals.Keys == a.Keys && n in a && a[n].right.Some?
    requires LinkOk(a, order, info, a[n].right.value) && LinkOk(a, order, info, n) && m in a && m == order[info[a[n].right.value].lo]
    ensures LinkOk(a, order, info, m) && info[m].pos == info[n].pos + 1
    ensures SameLinks(a, a[n := a[n].(key := a[m].key)])
    ensures Linked(a[n := a[n].(key := a[m].key)], order, info) && RedBlack(a[n := a[n].(key := a[m].key)], root, bh)
    ensures Without(ItemsOf(a[n := a[n].(key := a[m].key)], vals[n := vals[m]], order), info[m].pos)
      == Without(ItemsOf(a, vals, order), info[n].pos)
  {
    assert info[order[info[a[n].right.value].lo]].pos == info[a[n].right.value].lo;
    assert LinkOk(a, order, info, m);
    var a1 := a[n := a[n].(key := a[m].key)];
    CopiedDown(a, vals, order, info, n, m);
    assert SameLinks(a, a1);
    SameLinksKept(a, order, info, root, bh, a1);
  }

  /** After the recursive `replace` on the copied arena the links are still the original ones, and so are the leaf's. */
  lemma ReplacedKept(a: Arena, a1: Arena, b: Arena, order: seq<nat>, info: map<nat, Info>, leaf: nat)
    requires SameLinks(a, a1) && SameLinks(a1, b) && leaf in a1 && LinkOk(a1, order, info, leaf)
    requires a1[leaf].left.None? && a1[leaf].right.None?
    ensures SameLinks(a, b) && leaf in a && a[leaf].left.None? && a[leaf].right.None? && LinkOk(a, order, info, leaf)
  {
    SameLinksTrans(a, a1, b);
    assert a1[leaf] == a[leaf].(key := a1[leaf].key);
    assert SameLinks(a1, a) by {
      forall i | i in a1 ensures a[i] == a1[i].(key := a[i].key) {
        assert a1[i] == a[i].(key := a1[i].key);
      }
    }
    SameLinksLinkOk(a1, order, info, a, leaf);
  }

  /** A bound after the handle at position `q` leaves `order`: bounds beyond `q` move down by one. */
  ghost function Lower(v: nat, q: nat): nat {
    if v > q then v - 1 else v
  }

  /** The records after the handle `l` at position `q` leaves `order`. */
  ghost function RemovedInfo(info: map<nat, Info>, l: nat, q: nat): (m: map<nat, Info>)
    ensures m.Keys == info.Keys - {l}
  {
    map i | i in info && i != l :: Info(Lower(info[i].pos, q), Lower(info[i].lo, q), Lower(info[i].hi, q))
  }

  /** The arena after the childless node `l` is freed and the link to it from its parent, if any, cleared. */
  function Unlinked(a: Arena, l: nat): (b: Arena)
    requires l in a
    ensures b.Keys == a.Keys - {l}
  {
    match a[l].parent
    case None => a - {l}
    case Some(p) =>
      if p in a && p != l && a[l].rela != PARENT then (a - {l})[p := a[p].WithNext(a[l].rela, None)] else a - {l}
  }

  /** A node without children: its segment is its own position. */
  ghost predicate Leaf(a: Arena, order: seq<nat>, info: map<nat, Info>, l: nat) {
    LinkOk(a, order, info, l) && a[l].left.None? && a[l].right.None?
  }

  lemma LeafInfo(a: Arena, order: seq<nat>, info: map<nat, Info>, l: nat)
    requires Leaf(a, order, info, l)
    ensures info[l] == Info(info[l].pos, info[l].pos, info[l].pos + 1)
  {
  }

  /** A segment bound of a child slot of `i` moves down in step with `i`'s own position. */
  lemma LowerStep(pos: nat, q: nat)
    requires pos != q
    ensures Lower(pos + 1, q) == Lower(pos, q) + 1
  {
  }

  /** Every other node keeps its local link conditions, in the lowered records. */
  lemma UnlinkedLinkOk(a: Arena, order: seq<nat>, info: map<nat, Info>, l: nat, i: nat)
    requires Linked(a, order, info) && Leaf(a, order, info, l) && i in a && i != l
    ensures LinkOk(Unlinked(a, l), Without(order, info[l].pos), RemovedInfo(info, l, info[l].pos), i)
  {
    var q := info[l].pos;
    var b := Unlinked(a, l);
    var m := RemovedInfo(info, l, q);
    assert LinkOk(a, order, info, i);
    LeafInfo(a, order, info, l);
    var f := info[i];
    assert f.pos != q;
    LowerStep(f.pos, q);
    assert m[i] == Info(Lower(f.pos, q), Lower(f.lo, q), Lower(f.hi, q));
    assert b[i].left == a[i].left || (a[i].left == Some(l) && b[i].left.None?);
    assert b[i].right == a[i].right || (a[i].right == Some(l) && b[i].right.None?);
    assert b[i].parent == a[i].parent && b[i].rela == a[i].rela;
    UnlinkedChildOk(a, order, info, l, i, LEFT);
    UnlinkedChildOk(a, order, info, l, i, RIGHT);
    UnlinkedParentOk(a, order, info, l, i);
  }

  lemma UnlinkedChildOk(a: Arena, order: seq<nat>, info: map<nat, Info>, l: nat, i: nat, r: Rela)
    requires Linked(a, order, info) && Leaf(a, order, info, l) && i in a && i != l && r != PARENT
    requires LinkOk(a, order, info, i)
    ensures var b := Unlinked(a, l); i in b && ChildOk(b, RemovedInfo(info, l, info[l].pos), i, r)
  {
    var q := info[l].pos;
    var b := Unlinked(a, l);
    var m := RemovedInfo(info, l, q);
    LeafInfo(a, order, info, l);
    var f := info[i];
    LowerStep(f.pos, q);
    assert m[i] == Info(Lower(f.pos, q), Lower(f.lo, q), Lower(f.hi, q));
    match a[i].Next(r)
    case None =>
      assert b[i].Next(r).None?;
    case Some(c) =>
      if c == l {
        assert b[i].Next(r).None?;
      } else {
        assert b[i].Next(r) == Some(c);
        assert LinkOk(a, order, info, c);
        assert b[c].parent == a[c].parent && b[c].rela == a[c].rela;
        assert m[c] == Info(Lower(info[c].pos, q), Lower(info[c].lo, q), Lower(info[c].hi, q));
      }
  }

  lemma UnlinkedParentOk(a: Arena, order: seq<nat>, info: map<nat, Info>, l: nat, i: nat)
    requires Linked(a, order, info) && Leaf(a, order, info, l) && i in a && i != l
    requires LinkOk(a, order, info, i)
    ensures var b := Unlinked(a, l); i in b && ParentOk(b, i)
  {
    var b := Unlinked(a, l);
    match a[i].parent
    case None =>
    case Some(p) =>
      assert p != l;
      assert b[p].Next(a[i].rela) == a[p].Next(a[i].rela);
  }

  /** The freed leaf leaves `order`; every other node keeps its place, lowered past the leaf. */
  lemma UnlinkedPositions(a: Arena, order: seq<nat>, info: map<nat, Info>, l: nat)
    requires Linked(a, order, info) && Leaf(a, order, info, l)
    ensures var o := Without(order, info[l].pos);
      forall k :: 0 <= k < |o| ==> o[k] in Unlinked(a, l) && RemovedInfo(info, l, info[l].pos)[o[k]].pos == k
  {
    var q := info[l].pos;
    var o := Without(order, q);
    forall k | 0 <= k < |o| ensures o[k] in Unlinked(a, l) && RemovedInfo(info, l, q)[o[k]].pos == k {
      var k' := if k < q then k else k + 1;
      assert o[k] == order[k'] && info[order[k']].pos == k';
    }
  }

  /** Freeing a leaf keeps the rest of the tree linked, in the lowered records. */
  lemma UnlinkedLinked(a: Arena, order: seq<nat>, info: map<nat, Info>, l: nat)
    requires Linked(a, order, info) && Leaf(a, order, info, l)
    ensures Linked(Unlinked(a, l), Without(order, info[l].pos), RemovedInfo(info, l, info[l].pos))
  {
    var b := Unlinked(a, l);
    forall i | i in b ensures LinkOk(b, Without(order, info[l].pos), RemovedInfo(info, l, info[l].pos), i) {
      UnlinkedLinkOk(a, order, info, l, i);
    }
    UnlinkedPositions(a, order, info, l);
  }

  /** Freeing the root leaf empties the tree; freeing another leaf keeps the root. */
  lemma UnlinkedRootOk(a: Arena, order: seq<nat>, info: map<nat, Info>, root: NodeRef, l: nat)
    requires Linked(a, order, info) && RootOk(a, root, order, info) && Leaf(a, order, info, l)
    ensures var b := Unlinked(a, l);
      RootOk(b, if a[l].parent.None? then None else root, Without(order, info[l].pos), RemovedInfo(info, l, info[l].pos))
    ensures a[l].parent.None? ==> Unlinked(a, l) == map[]
  {
    var q := info[l].pos;
    var b := Unlinked(a, l);
    var m := RemovedInfo(info, l, q);
    LeafInfo(a, order, info, l);
    if a[l].parent.None? {
      assert root == Some(l) && |order| == 1;
      forall i | i in a ensures i == l {
        assert LinkOk(a, order, info, i);
      }
      assert b.Keys == {};
    } else {
      var t := root.value;
      assert t != l && b[t].parent.None?;
      assert m[t] == Info(Lower(info[t].pos, q), Lower(0, q), Lower(|order|, q));
    }
  }

  /**
   * The colour conditions of another node after a leaf is freed: they hold
   * as before, except the black count of the parent's emptied slot, which
   * the leaf carried unless it was red.
   */
  lemma UnlinkedShade(a: Arena, order: seq<nat>, info: map<nat, Info>, root: NodeRef, bh: map<nat, nat>, l: nat, i: nat)
    requires Linked(a, order, info) && RedBlack(a, root, bh) && Leaf(a, order, info, l) && i in a && i != l
    ensures var b := Unlinked(a, l);
      && i in b && ColorOk(b, i) && RedOk(b, i)
      && (a[l].parent != Some(i) || a[l].color == RED ==> BhOk(b, bh - {l}, i))
      && (a[l].parent == Some(i) ==>
            a[l].rela != PARENT && b[i].Next(a[l].rela).None? && b[i].Next(a[l].rela.Toggle()) == a[i].Next(a[l].rela.Toggle())
            && bh[i] == (if a[l].color == RED then 0 else 1))
  {
    assert LinkOk(a, order, info, i) && LinkOk(a, order, info, l);
    assert ColorOk(a, i) && RedOk(a, i) && BhOk(a, bh, i) && BhOk(a, bh, l);
    UnlinkedShadeAt(a, order, info, bh, l, i);
  }

  /** `UnlinkedShade` from the conditions of `i` and the leaf alone. */
  lemma UnlinkedShadeAt(a: Arena, order: seq<nat>, info: map<nat, Info>, bh: map<nat, nat>, l: nat, i: nat)
    requires a.Keys == bh.Keys && Leaf(a, order, info, l) && i in a && i != l && LinkOk(a, order, info, i)
    requires ColorOk(a, i) && RedOk(a, i) && BhOk(a, bh, i) && BhOk(a, bh, l)
    ensures var b := Unlinked(a, l);
      && i in b && ColorOk(b, i) && RedOk(b, i)
      && (a[l].parent != Some(i) || a[l].color == RED ==> BhOk(b, bh - {l}, i))
      && (a[l].parent == Some(i) ==>
            a[l].rela != PARENT && b[i].Next(a[l].rela).None? && b[i].Next(a[l].rela.Toggle()) == a[i].Next(a[l].rela.Toggle())
            && bh[i] == (if a[l].color == RED then 0 else 1))
  {
    var b := Unlinked(a, l);
    var bh2 := bh - {l};
    forall r | r == LEFT || r == RIGHT
      ensures a[i].Next(r) != Some(l) ==> Bhc(b, bh2, b[i].Next(r)) == Bhc(a, bh, a[i].Next(r)) && NotRed(b, b[i].Next(r)) == NotRed(a, a[i].Next(r))
      ensures a[i].Next(r) == Some(l) ==> b[i].Next(r).None? && Bhc(a, bh, a[i].Next(r)) == (if a[l].color == RED then 0 else 1)
    {
      if a[i].Next(r) == Some(l) {
        assert b[i].Next(r).None?;
      } else {
        assert b[i].Next(r) == a[i].Next(r);
        if a[i].Next(r).Some? {
          var c := a[i].Next(r).value;
          assert c in a && b[c].color == a[c].color;
        }
      }
    }
    if a[l].parent == Some(i) {
      var r := a[l].rela;
      assert a[i].Next(r) == Some(l) && a[i].Next(r.Toggle()) != Some(l);
    }
    assert b[i].color == a[i].color;
    if a[i].left == Some(l) {
      assert a[i].right != Some(l);
    }
  }

  /** A red leaf is not the root: freeing it keeps the red-black conditions. */
  lemma UnlinkedRedBlack(a: Arena, order: seq<nat>, info: map<nat, Info>, root: NodeRef, bh: map<nat, nat>, l: nat)
    requires Linked(a, order, info) && RedBlack(a, root, bh) && Leaf(a, order, info, l) && a[l].color == RED
    ensures RedBlack(Unlinked(a, l), root, bh - {l})
  {
    var b := Unlinked(a, l);
    forall i | i in b ensures ColorOk(b, i) && RedOk(b, i) && BhOk(b, bh - {l}, i) {
      UnlinkedShade(a, order, info, root, bh, l, i);
    }
    if root.Some? {
      assert root.value != l;
    }
  }

  /**
   * The state after a black node below `x` on side `r` has gone: a linked
   * tree whose red-black conditions hold, except that the links on side `r`
   * of `x` carry one black node fewer than the links on the other side.
   */
  ghost predicate Short(a: Arena, order: seq<nat>, info: map<nat, Info>, root: NodeRef, bh: map<nat, nat>, x: nat, r: Rela) {
    Linked(a, order, info) && RootOk(a, root, order, info) && ShortShade(a, root, bh, x, r)
  }

  /** The colour part of `Short`. */
  ghost predicate ShortShade(a: Arena, root: NodeRef, bh: map<nat, nat>, x: nat, r: Rela) {
    && a.Keys == bh.Keys && RootBlack(a, root) && AllColor(a) && AllRed(a)
    && x in a && r != PARENT
    && (forall i {:trigger BhOk(a, bh, i)} :: i in a && i != x ==> BhOk(a, bh, i))
    && NotRed(a, a[x].Next(r))
    && Bhc(a, bh, a[x].Next(r)) + 1 == bh[x]
    && Bhc(a, bh, a[x].Next(r.Toggle())) == bh[x]
  }

  /** Freeing a black leaf below `p` leaves `p` one black node short on the leaf's side, with black height 1. */
  lemma UnlinkedShort(a: Arena, order: seq<nat>, info: map<nat, Info>, root: NodeRef, bh: map<nat, nat>, l: nat, p: nat)
    requires Linked(a, order, info) && RootOk(a, root, order, info) && RedBlack(a, root, bh)
    requires Leaf(a, order, info, l) && a[l].color != RED && a[l].parent == Some(p)
    ensures var b := Unlinked(a, l);
      && Short(b, Without(order, info[l].pos), RemovedInfo(info, l, info[l].pos), root, bh - {l}, p, a[l].rela)
      && b[p].Next(a[l].rela).None? && bh[p] == 1
  {
    var b := Unlinked(a, l);
    var bh2 := bh - {l};
    UnlinkedLinked(a, order, info, l);
    UnlinkedRootOk(a, order, info, root, l);
    assert LinkOk(a, order, info, l);
    forall i | i in b ensures ColorOk(b, i) && RedOk(b, i) && (i != p ==> BhOk(b, bh2, i)) {
      UnlinkedShade(a, order, info, root, bh, l, i);
    }
    UnlinkedShade(a, order, info, root, bh, l, p);
    var r := a[l].rela;
    assert BhOk(a, bh, p);
    var w := a[p].Next(r.Toggle());
    if w.Some? {
      ChildOf(a, order, info, p, r.Toggle());
      assert w.value != l && b[w.value].color == a[w.value].color;
    }
    if root.Some? {
      assert root.value != l;
    }
  }
}
