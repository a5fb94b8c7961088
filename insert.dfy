/**
 * `raw_insert`: a new red leaf is hung into an empty child slot found by the
 * search (or becomes the black root of an empty tree), and the insertion
 * fix-up repairs a red parent. In the ghost bookkeeping the new handle enters
 * `order` at the insertion position `k`; positions from `k` on move up by one,
 * and so do the segment bounds that lie beyond the new node.
 */
module Insertion {
  import opened Wrappers
  import opened Flag
  import opened Node
  import opened Rotation
  import opened RedFix

  /** `NdNotFound`: where a missing key goes, the root of the empty tree or the empty slot `rela` of `node`. */
  datatype Vacancy = Root | Normal(node: nat, rela: Rela)

  /**
   * A vacancy the search can report for `key`: the empty tree's root, or an
   * empty child slot whose in-order position splits `order` into the keys
   * below `key` and the keys above it.
   */
  ghost predicate VacancyFor(a: Arena, root: NodeRef, order: seq<nat>, info: map<nat, Info>, at: Vacancy, key: int)
    requires Linked(a, order, info)
  {
    match at
    case Root => root.None?
    case Normal(p, r) =>
      && root.Some? && p in a && r != PARENT && a[p].Next(r).None?
      && var k := VacancyPos(info, at);
      && k <= |order|
      && (forall j :: 0 <= j < k ==> a[order[j]].key < key)
      && (forall j :: k <= j < |order| ==> key < a[order[j]].key)
  }

  /** The in-order position the new node takes. */
  ghost function VacancyPos(info: map<nat, Info>, at: Vacancy): nat
    requires at.Normal? ==> at.node in info
  {
    match at
    case Root => 0
    case Normal(p, r) => if r == LEFT then info[p].pos else info[p].pos + 1
  }

  /** A bound `v` after an insertion at `k`: it moves up past `k`, or from `k` on when `from` holds. */
  ghost function Lift(v: nat, k: nat, from: bool): nat {
    if v > k || (from && v == k) then v + 1 else v
  }

  /** `order` with the new handle `n` at position `k`. */
  ghost function InsertedOrder(order: seq<nat>, k: nat, n: nat): (o: seq<nat>)
    requires k <= |order|
    ensures |o| == |order| + 1 && o[k] == n
    ensures forall j {:trigger o[j]} :: 0 <= j < k ==> o[j] == order[j]
    ensures forall j {:trigger o[j]} :: k < j < |o| ==> o[j] == order[j - 1]
  {
    order[..k] + [n] + order[k..]
  }

  /**
   * The records after hanging `n` into slot `r`: positions from `k` on move
   * up; below a left slot the bounds beyond `k` move, below a right slot the
   * bounds from `k` on. The new leaf spans [k, k + 1).
   */
  ghost function InsertedInfo(info: map<nat, Info>, k: nat, r: Rela, n: nat): (m: map<nat, Info>)
    ensures m.Keys == info.Keys + {n}
  {
    (map i | i in info :: Info(Lift(info[i].pos, k, true), Lift(info[i].lo, k, r == RIGHT), Lift(info[i].hi, k, r == RIGHT)))
      [n := Info(k, k, k + 1)]
  }

  /** The arena after `n` is written as a childless red node under `p` in slot `r` and `p` points at it. */
  ghost function Attached(a: Arena, p: nat, r: Rela, n: nat, key: int): (b: Arena)
    requires p in a && r != PARENT
    ensures b.Keys == a.Keys + {n}
  {
    a[n := Node(key, None, None, Some(p), r, RED)][p := a[p].WithNext(r, Some(n))]
  }

  /** An old node keeps its local conditions in the shifted records. */
  lemma {:induction false} AttachedLinkOk(a: Arena, order: seq<nat>, info: map<nat, Info>, p: nat, r: Rela, n: nat, key: int, i: nat)
    requires LinkOk(a, order, info, p) && LinkOk(a, order, info, i) && n !in a
    requires r != PARENT && a[p].Next(r).None?
    requires forall c :: c in a ==> c in info
    ensures var k := if r == LEFT then info[p].pos else info[p].pos + 1;
      LinkOk(Attached(a, p, r, n, key), InsertedOrder(order, k, n), InsertedInfo(info, k, r, n), i)
  {
    var k := if r == LEFT then info[p].pos else info[p].pos + 1;
    var b := Attached(a, p, r, n, key);
    var o := InsertedOrder(order, k, n);
    var m := InsertedInfo(info, k, r, n);
    var f := info[i];
    assert m[i] == Info(Lift(f.pos, k, true), Lift(f.lo, k, r == RIGHT), Lift(f.hi, k, r == RIGHT));
    InsertedOrderAt(order, k, n, f.pos);
    AttachedChildOk(a, order, info, p, r, n, key, i, LEFT);
    AttachedChildOk(a, order, info, p, r, n, key, i, RIGHT);
    AttachedParentOk(a, p, r, n, key, i);
  }

  /** A handle keeps its place in `order`, moved up by one from `k` on. */
  lemma InsertedOrderAt(order: seq<nat>, k: nat, n: nat, j: nat)
    requires k <= |order| && j < |order|
    ensures InsertedOrder(order, k, n)[Lift(j, k, true)] == order[j]
  {
  }

  /** An old node's parent still points back at it. */
  lemma {:induction false} AttachedParentOk(a: Arena, p: nat, r: Rela, n: nat, key: int, i: nat)
    requires p in a && i in a && n !in a && r != PARENT && a[p].Next(r).None?
    requires ParentOk(a, i)
    ensures ParentOk(Attached(a, p, r, n, key), i)
  {
    var b := Attached(a, p, r, n, key);
    match a[i].parent
    case None =>
    case Some(q) =>
      assert q != n;
      assert b[q].Next(a[i].rela) == Some(i);
  }

  /** One child slot of an old node, in the shifted records. */
  lemma {:induction false} AttachedChildOk(a: Arena, order: seq<nat>, info: map<nat, Info>, p: nat, r: Rela, n: nat, key: int, i: nat, s: Rela)
    requires LinkOk(a, order, info, p) && LinkOk(a, order, info, i) && n !in a
    requires r != PARENT && a[p].Next(r).None? && s != PARENT
    requires forall c :: c in a ==> c in info
    ensures var k := if r == LEFT then info[p].pos else info[p].pos + 1;
      ChildOk(Attached(a, p, r, n, key), InsertedInfo(info, k, r, n), i, s)
  {
    var k := if r == LEFT then info[p].pos else info[p].pos + 1;
    var b := Attached(a, p, r, n, key);
    var m := InsertedInfo(info, k, r, n);
    var f := info[i];
    assert m[i] == Info(Lift(f.pos, k, true), Lift(f.lo, k, r == RIGHT), Lift(f.hi, k, r == RIGHT));
    if i == p && s == r {
      assert b[i].Next(s) == Some(n);
    } else {
      assert b[i].Next(s) == a[i].Next(s);
      assert ChildOk(a, info, i, s);
      assert r == LEFT && f.pos == k ==> i == p;
      assert r == RIGHT && f.pos + 1 == k ==> i == p;
      match a[i].Next(s)
      case None =>
      case Some(c) =>
        assert c != n && b[c].parent == a[c].parent && b[c].rela == a[c].rela;
        assert m[c] == Info(Lift(info[c].pos, k, true), Lift(info[c].lo, k, r == RIGHT), Lift(info[c].hi, k, r == RIGHT));
    }
  }

  /** The new leaf's local conditions. */
  lemma {:induction false} AttachedLeafOk(a: Arena, order: seq<nat>, info: map<nat, Info>, p: nat, r: Rela, n: nat, key: int)
    requires LinkOk(a, order, info, p) && n !in a
    requires r != PARENT && a[p].Next(r).None?
    ensures var k := if r == LEFT then info[p].pos else info[p].pos + 1;
      LinkOk(Attached(a, p, r, n, key), InsertedOrder(order, k, n), InsertedInfo(info, k, r, n), n)
  {
  }

  /** Hanging the new leaf keeps the tree linked, the root and its span (one longer). */
  lemma {:induction false} AttachedLinked(a: Arena, root: NodeRef, order: seq<nat>, info: map<nat, Info>, p: nat, r: Rela, n: nat, key: int)
    requires Linked(a, order, info) && RootOk(a, root, order, info) && n !in a
    requires p in a && r != PARENT && a[p].Next(r).None?
    ensures var k := if r == LEFT then info[p].pos else info[p].pos + 1;
      && k <= |order|
      && Linked(Attached(a, p, r, n, key), InsertedOrder(order, k, n), InsertedInfo(info, k, r, n))
      && RootOk(Attached(a, p, r, n, key), root, InsertedOrder(order, k, n), InsertedInfo(info, k, r, n))
  {
    assert LinkOk(a, order, info, p);
    var k := if r == LEFT then info[p].pos else info[p].pos + 1;
    var b := Attached(a, p, r, n, key);
    var o := InsertedOrder(order, k, n);
    var m := InsertedInfo(info, k, r, n);
    AttachedPositions(a, order, info, p, r, n, key);
    forall i | i in b ensures LinkOk(b, o, m, i) {
      if i == n {
        AttachedLeafOk(a, order, info, p, r, n, key);
      } else {
        assert LinkOk(a, order, info, i);
        AttachedLinkOk(a, order, info, p, r, n, key, i);
      }
    }
    AttachedRootOk(a, root, order, info, p, r, n, key);
  }

  /** Every handle of the longer `order` is live and records its new position. */
  lemma {:induction false} AttachedPositions(a: Arena, order: seq<nat>, info: map<nat, Info>, p: nat, r: Rela, n: nat, key: int)
    requires Linked(a, order, info) && n !in a
    requires p in a && r != PARENT && LinkOk(a, order, info, p)
    ensures var k := if r == LEFT then info[p].pos else info[p].pos + 1;
      var o := InsertedOrder(order, k, n);
      forall j :: 0 <= j < |o| ==> o[j] in Attached(a, p, r, n, key) && InsertedInfo(info, k, r, n)[o[j]].pos == j
  {
    var k := if r == LEFT then info[p].pos else info[p].pos + 1;
    var b := Attached(a, p, r, n, key);
    var o := InsertedOrder(order, k, n);
    var m := InsertedInfo(info, k, r, n);
    forall j | 0 <= j < |o| ensures o[j] in b && m[o[j]].pos == j {
      if j < k {
        assert order[j] in a && info[order[j]].pos == j;
      } else if j > k {
        assert order[j - 1] in a && info[order[j - 1]].pos == j - 1;
      }
    }
  }

  /** The root keeps its place and now spans the longer `order`; the new leaf has a parent. */
  lemma {:induction false} AttachedRootOk(a: Arena, root: NodeRef, order: seq<nat>, info: map<nat, Info>, p: nat, r: Rela, n: nat, key: int)
    requires Linked(a, order, info) && RootOk(a, root, order, info) && n !in a
    requires p in a && r != PARENT && LinkOk(a, order, info, p)
    ensures var k := if r == LEFT then info[p].pos else info[p].pos + 1;
      var b := Attached(a, p, r, n, key);
      var m := InsertedInfo(info, k, r, n);
      b.Keys == m.Keys && RootOk(b, root, InsertedOrder(order, k, n), m)
  {
    var k := if r == LEFT then info[p].pos else info[p].pos + 1;
    var b := Attached(a, p, r, n, key);
    var m := InsertedInfo(info, k, r, n);
    var t := root.value;
    assert a[t].parent.None? && info[t].lo == 0 && info[t].hi == |order|;
    assert t != n && b[t].parent.None?;
    assert m[t] == Info(Lift(info[t].pos, k, true), Lift(0, k, r == RIGHT), Lift(|order|, k, r == RIGHT));
    assert forall i :: i in b && b[i].parent.None? ==> i in a && a[i].parent.None?;
  }

  /** The new key sits strictly between its in-order neighbours, so the keys stay sorted. */
  lemma {:induction false} AttachedSorted(a: Arena, root: NodeRef, order: seq<nat>, info: map<nat, Info>, p: nat, r: Rela, n: nat, key: int)
    requires Linked(a, order, info) && Sorted(a, order) && n !in a
    requires VacancyFor(a, root, order, info, Normal(p, r), key)
    ensures var k := VacancyPos(info, Normal(p, r));
      && (forall j :: 0 <= j < |InsertedOrder(order, k, n)| ==> InsertedOrder(order, k, n)[j] in Attached(a, p, r, n, key))
      && Sorted(Attached(a, p, r, n, key), InsertedOrder(order, k, n))
  {
    var k := VacancyPos(info, Normal(p, r));
    var b := Attached(a, p, r, n, key);
    var o := InsertedOrder(order, k, n);
    assert forall j :: 0 <= j < |order| ==> b[order[j]].key == a[order[j]].key;
    forall i, j | 0 <= i < j < |o| ensures KeyAt(b, o, i) < KeyAt(b, o, j) {
      if i < k && j > k {
        assert a[order[i]].key < key < a[order[j - 1]].key;
      } else if i < k && j < k {
        assert KeyAt(a, order, i) < KeyAt(a, order, j);
      } else if i > k {
        assert KeyAt(a, order, i - 1) < KeyAt(a, order, j - 1);
      }
    }
  }

  /** The colour conditions of one node after the new red leaf is hung under `p`. */
  lemma {:induction false} AttachedShadeOk(a: Arena, bh: map<nat, nat>, p: nat, r: Rela, n: nat, key: int, i: nat)
    requires p in a && i in a && n !in a && r != PARENT && a[p].Next(r).None?
    requires a.Keys == bh.Keys && a[i].left != Some(n) && a[i].right != Some(n)
    requires ColorOk(a, i) && BhOk(a, bh, i) && RedOk(a, i)
    ensures var b := Attached(a, p, r, n, key);
      && ColorOk(b, i) && BhOk(b, bh[n := 0], i) && ColorOk(b, n) && BhOk(b, bh[n := 0], n) && RedOk(b, n)
      && (i != p ==> RedOk(b, i))
      && (i == p ==> NotRed(b, b[p].Next(r.Toggle())) || a[p].color != RED)
  {
    var b := Attached(a, p, r, n, key);
    var bh2 := bh[n := 0];
    forall s | s == LEFT || s == RIGHT
      ensures Bhc(b, bh2, b[i].Next(s)) == bh2[i]
      ensures b[i].Next(s) != Some(n) ==> NotRed(b, b[i].Next(s)) == NotRed(a, a[i].Next(s))
    {
      if i == p && s == r {
        assert b[i].Next(s) == Some(n);
      } else {
        assert b[i].Next(s) == a[i].Next(s);
        match a[i].Next(s)
        case None =>
        case Some(c) =>
          assert c != n && (c in a ==> b[c].color == a[c].color);
      }
    }
  }

  /**
   * Colours after hanging the new red leaf: every condition but the red one
   * at `p` holds, and the leaf's sibling slot is not red under a red `p`.
   */
  lemma {:induction false} AttachedShade(a: Arena, order: seq<nat>, info: map<nat, Info>, root: NodeRef, bh: map<nat, nat>,
                                         p: nat, r: Rela, n: nat, key: int)
    requires Linked(a, order, info) && RootOk(a, root, order, info) && RedBlack(a, root, bh) && n !in a
    requires p in a && r != PARENT && a[p].Next(r).None?
    ensures var b := Attached(a, p, r, n, key);
      && b.Keys == bh[n := 0].Keys && RootBlack(b, root) && AllColor(b) && AllBh(b, bh[n := 0])
      && (forall i {:trigger RedOk(b, i)} :: i in b && i != p ==> RedOk(b, i))
      && RedOk(b, n) && b[p].color == a[p].color && b[n].color == RED && b[n].rela == r && b[n].parent == Some(p)
      && (a[p].color == RED ==> NotRed(b, b[p].Next(r.Toggle())))
  {
    var b := Attached(a, p, r, n, key);
    var bh2 := bh[n := 0];
    forall i | i in a
      ensures ColorOk(b, i) && BhOk(b, bh2, i) && (i != p ==> RedOk(b, i))
      ensures i == p ==> NotRed(b, b[p].Next(r.Toggle())) || a[p].color != RED
      ensures ColorOk(b, n) && BhOk(b, bh2, n) && RedOk(b, n)
    {
      assert LinkOk(a, order, info, i) && ColorOk(a, i) && BhOk(a, bh, i) && RedOk(a, i);
      AttachedShadeOk(a, bh, p, r, n, key, i);
    }
    assert forall i :: i in b ==> i in a || i == n;
    if root.Some? {
      assert root.value != n && b[root.value].color == a[root.value].color;
    }
  }

  /**
   * The new leaf hung into an empty slot: linked and sorted with `n` at the
   * vacancy's position; red-black under a black parent, and a double red at
   * `n` under a red one.
   */
  method AttachLeaf(a: Arena, root: NodeRef, p: nat, r: Rela, n: nat, key: int,
                    ghost order: seq<nat>, ghost info: map<nat, Info>, ghost bh: map<nat, nat>)
    returns (b: Arena, ghost order2: seq<nat>, ghost info2: map<nat, Info>, ghost bh2: map<nat, nat>)
    requires Shaped(a, root, order, info) && RedBlack(a, root, bh) && n !in a
    requires VacancyFor(a, root, order, info, Normal(p, r), key)
    ensures VacancyPos(info, Normal(p, r)) <= |order| && order2 == InsertedOrder(order, VacancyPos(info, Normal(p, r)), n)
    ensures Shaped(b, root, order2, info2) && KeysOf(b) == KeysOf(a)[n := key]
    ensures n in b && b[n].parent == Some(p) && p in b && b[p].color == a[p].color
    ensures a[p].color != RED ==> RedBlack(b, root, bh2)
    ensures a[p].color == RED ==> DoubleRed(b, order2, info2, root, bh2, n)
  {
    var leaf := Node(key, None, None, Some(p), r, RED);
    b := a[n := leaf];
    b := b[p := b[p].WithNext(r, Some(n))];
    ghost var k := VacancyPos(info, Normal(p, r));
    order2 := InsertedOrder(order, k, n);
    info2 := InsertedInfo(info, k, r, n);
    bh2 := bh[n := 0];
    AttachedAll(a, root, order, info, bh, p, r, n, key);
  }

  /** The facts `AttachLeaf` promises, about the arena it writes. */
  lemma {:induction false} AttachedAll(a: Arena, root: NodeRef, order: seq<nat>, info: map<nat, Info>, bh: map<nat, nat>,
                                       p: nat, r: Rela, n: nat, key: int)
    requires Shaped(a, root, order, info) && RedBlack(a, root, bh) && n !in a
    requires VacancyFor(a, root, order, info, Normal(p, r), key)
    ensures var k := VacancyPos(info, Normal(p, r));
      var b := Attached(a, p, r, n, key);
      var order2 := InsertedOrder(order, k, n);
      var info2 := InsertedInfo(info, k, r, n);
      && Shaped(b, root, order2, info2) && KeysOf(b) == KeysOf(a)[n := key]
      && n in b && b[n].parent == Some(p) && p in b && b[p].color == a[p].color
      && (a[p].color != RED ==> RedBlack(b, root, bh[n := 0]))
      && (a[p].color == RED ==> DoubleRed(b, order2, info2, root, bh[n := 0], n))
  {
    assert VacancyPos(info, Normal(p, r)) == if r == LEFT then info[p].pos else info[p].pos + 1;
    AttachedLinked(a, root, order, info, p, r, n, key);
    AttachedSorted(a, root, order, info, p, r, n, key);
    AttachedKeys(a, p, r, n, key);
    AttachedColour(a, root, order, info, bh, p, r, n, key);
  }

  /** The colours after hanging the new leaf, given its shape: red-black under a black parent, a double red under a red one. */
  lemma AttachedColour(a: Arena, root: NodeRef, order: seq<nat>, info: map<nat, Info>, bh: map<nat, nat>,
                       p: nat, r: Rela, n: nat, key: int)
    requires Linked(a, order, info) && RootOk(a, root, order, info) && RedBlack(a, root, bh) && n !in a
    requires VacancyFor(a, root, order, info, Normal(p, r), key)
    requires var k := VacancyPos(info, Normal(p, r));
      Linked(Attached(a, p, r, n, key), InsertedOrder(order, k, n), InsertedInfo(info, k, r, n))
      && RootOk(Attached(a, p, r, n, key), root, InsertedOrder(order, k, n), InsertedInfo(info, k, r, n))
    ensures var k := VacancyPos(info, Normal(p, r));
      var b := Attached(a, p, r, n, key);
      && n in b && b[n].parent == Some(p) && p in b && b[p].color == a[p].color
      && (a[p].color != RED ==> RedBlack(b, root, bh[n := 0]))
      && (a[p].color == RED ==> DoubleRed(b, InsertedOrder(order, k, n), InsertedInfo(info, k, r, n), root, bh[n := 0], n))
  {
    var b := Attached(a, p, r, n, key);
    var k := VacancyPos(info, Normal(p, r));
    AttachedShade(a, order, info, root, bh, p, r, n, key);
    OneRedOk(b, root, InsertedOrder(order, k, n), InsertedInfo(info, k, r, n), bh[n := 0], p, n);
  }

  lemma AttachedKeys(a: Arena, p: nat, r: Rela, n: nat, key: int)
    requires p in a && r != PARENT && n !in a
    ensures KeysOf(Attached(a, p, r, n, key)) == KeysOf(a)[n := key]
  {
    assert KeysOf(Attached(a, p, r, n, key)) == KeysOf(a)[n := key];
  }

  /**
   * A linked tree whose colour conditions hold except possibly the red one at
   * `p`, the parent of the red `n` whose sibling is not red, is red-black when
   * `p` is black and a double red at `n` when `p` is red.
   */
  lemma OneRedOk(b: Arena, root: NodeRef, order: seq<nat>, info: map<nat, Info>, bh: map<nat, nat>, p: nat, n: nat)
    requires Linked(b, order, info) && RootOk(b, root, order, info)
    requires b.Keys == bh.Keys && RootBlack(b, root) && AllColor(b) && AllBh(b, bh)
    requires forall i {:trigger RedOk(b, i)} :: i in b && i != p ==> RedOk(b, i)
    requires n in b && p in b && b[n].parent == Some(p) && b[n].color == RED && b[p].Next(b[n].rela) == Some(n)
    requires b[p].color == RED ==> NotRed(b, b[p].Next(b[n].rela.Toggle()))
    ensures b[p].color != RED ==> RedBlack(b, root, bh)
    ensures b[p].color == RED ==> DoubleRed(b, order, info, root, bh, n)
  {
    if b[p].color != RED {
      assert RedOk(b, p);
    }
  }

  /**
   * `raw_insert(node, rela, (key, value))` on the structure: handle `n`
   * becomes a red leaf in the vacancy (the black root of an empty tree), and
   * a red parent is repaired by `double_red_adjust`. The in-order sequence
   * gains `n` at the vacancy's position, and the tree stays a red-black
   * search tree over the old keys and `key`.
   */
  method RawInsert(a: Arena, root: NodeRef, at: Vacancy, n: nat, key: int,
                   ghost order: seq<nat>, ghost info: map<nat, Info>, ghost bh: map<nat, nat>)
    returns (b: Arena, root2: NodeRef, ghost order2: seq<nat>, ghost info2: map<nat, Info>, ghost bh2: map<nat, nat>)
    requires Shaped(a, root, order, info) && RedBlack(a, root, bh) && n !in a
    requires VacancyFor(a, root, order, info, at, key)
    ensures VacancyPos(info, at) <= |order| && order2 == InsertedOrder(order, VacancyPos(info, at), n)
    ensures Shaped(b, root2, order2, info2) && RedBlack(b, root2, bh2)
    ensures KeysOf(b) == KeysOf(a)[n := key]
  {
    match at
    case Root =>
      assert forall i :: i in a ==> LinkOk(a, order, info, i);
      assert a == map[];
      b := a[n := Node(key, None, None, None, PARENT, BLACK)];
      root2 := Some(n);
      order2 := [n];
      info2 := map[n := Info(0, 0, 1)];
      bh2 := map[n := 0];
      assert LinkOk(b, order2, info2, n);
      assert BhOk(b, bh2, n) && RedOk(b, n) && ColorOk(b, n);
      assert KeysOf(b) == KeysOf(a)[n := key];
    case Normal(p, r) =>
      b, order2, info2, bh2 := AttachLeaf(a, root, p, r, n, key, order, info, bh);
      root2 := root;
      if b[p].color == RED {
        ghost var mid := b;
        b, root2, info2, bh2 := DoubleRedAdjust(b, root, n, order2, info2, bh2);
        SortedKept(mid, b, order2);
      }
  }
}
