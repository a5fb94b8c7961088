/**
 * `Node::single_rotate`: the one structural primitive of the tree. The node
 * `c` moves into the slot of its parent `p`, `p` becomes the child of `c` on
 * the side away from `p`'s old slot of `c`, and the inner grandchild `g`
 * moves from `c` to `p`. The arena is threaded through as a value; a rotation
 * at the root updates the root link.
 */
module Rotation {
  import opened Wrappers
  import opened Flag
  import opened Node
  import opened Frame

  /** Subtree segments nest strictly: a child's segment lies inside its parent's and is shorter. */
  lemma ChildSegment(a: Arena, order: seq<nat>, info: map<nat, Info>, i: nat, r: Rela)
    requires LinkOk(a, order, info, i) && r != PARENT && a[i].Next(r).Some?
    requires LinkOk(a, order, info, a[i].Next(r).value)
    ensures a[i].Next(r).value in a && a[i].Next(r).value != i
    ensures info[a[i].Next(r).value].hi - info[a[i].Next(r).value].lo < info[i].hi - info[i].lo
    ensures info[i].lo <= info[a[i].Next(r).value].lo && info[a[i].Next(r).value].hi <= info[i].hi
  {
  }

  /** The length of the segment of `i`. */
  ghost function Size(info: map<nat, Info>, i: nat): int
    requires i in info
  {
    info[i].hi - info[i].lo
  }

  /** The child in slot `r` of a node of a linked arena is linked, points back and has a shorter segment. */
  lemma ChildOf(a: Arena, order: seq<nat>, info: map<nat, Info>, n: nat, r: Rela)
    requires Linked(a, order, info) && n in a && r != PARENT && a[n].Next(r).Some?
    ensures var c := a[n].Next(r).value;
      c in a && LinkOk(a, order, info, c) && a[c].parent == Some(n) && a[c].rela == r && Size(info, c) < Size(info, n)
  {
    assert LinkOk(a, order, info, n);
    assert LinkOk(a, order, info, a[n].Next(r).value);
    ChildSegment(a, order, info, n, r);
  }

  /** The parent of a node of a linked arena is linked, holds the node in its slot and has a longer segment. */
  lemma ParentOf(a: Arena, order: seq<nat>, info: map<nat, Info>, n: nat)
    requires Linked(a, order, info) && n in a && a[n].parent.Some?
    ensures var q := a[n].parent.value;
      q in a && LinkOk(a, order, info, q) && a[n].rela != PARENT && a[q].Next(a[n].rela) == Some(n) && Size(info, n) < Size(info, q)
  {
    assert LinkOk(a, order, info, n);
    assert LinkOk(a, order, info, a[n].parent.value);
    ChildSegment(a, order, info, a[n].parent.value, a[n].rela);
  }

  /** The neighbourhood of a rotation of `c`: its parent `p`, inner child `g` and grandparent `gp`, all linked. */
  ghost predicate Around(a: Arena, order: seq<nat>, info: map<nat, Info>, c: nat, p: nat, g: NodeRef, gp: NodeRef) {
    && LinkOk(a, order, info, c) && LinkOk(a, order, info, p)
    && a[c].parent == Some(p) && a[c].rela != PARENT
    && g == a[c].Next(a[c].rela.Toggle()) && gp == a[p].parent
    && (g.Some? ==> LinkOk(a, order, info, g.value))
    && (gp.Some? ==> LinkOk(a, order, info, gp.value))
    && Size(info, c) < Size(info, p)
    && (g.Some? ==> Size(info, g.value) < Size(info, c))
    && (gp.Some? ==> Size(info, p) < Size(info, gp.value))
  }

  /** The four records a rotation of `c` rewrites, as they are afterwards. */
  ghost predicate Rotated(a: Arena, b: Arena, c: nat, p: nat, g: NodeRef, gp: NodeRef)
    requires c in a && p in a && (g.Some? ==> g.value in a) && (gp.Some? ==> gp.value in a)
    requires a[c].rela != PARENT && (gp.Some? ==> a[p].rela != PARENT)
  {
    var cr := a[c].rela;
    && c in b && p in b && (g.Some? ==> g.value in b) && (gp.Some? ==> gp.value in b)
    && b[c] == a[c].WithNext(cr.Toggle(), Some(p)).SetParent(gp, a[p].rela)
    && b[p] == a[p].WithNext(cr, g).SetParent(Some(c), cr.Toggle())
    && (g.Some? ==> b[g.value] == a[g.value].SetParent(Some(p), cr))
    && (gp.Some? ==> b[gp.value] == a[gp.value].WithNext(a[p].rela, Some(c)))
  }

  /** The segments after a rotation of `c`: `c` takes over `p`'s, `p` keeps the part on its far side. */
  ghost function RotatedInfo(info: map<nat, Info>, c: nat, p: nat, cr: Rela): map<nat, Info>
    requires c in info && p in info
  {
    var fc := info[c];
    var fp := info[p];
    info[c := fc.(lo := fp.lo, hi := fp.hi)]
        [p := if cr == LEFT then fp.(lo := fc.pos + 1) else fp.(hi := fc.pos)]
  }

  /** Every node other than `c`, `p`, `g` and `gp` keeps its record. */
  ghost predicate OthersKept(a: Arena, b: Arena, c: nat, p: nat, g: NodeRef, gp: NodeRef) {
    forall i :: i in a && i != c && i != p && (g.None? || i != g.value) && (gp.None? || i != gp.value) ==> i in b && b[i] == a[i]
  }

  lemma RotatedLinkOkC(a: Arena, order: seq<nat>, info: map<nat, Info>, b: Arena, c: nat, p: nat, g: NodeRef, gp: NodeRef)
    requires Around(a, order, info, c, p, g, gp) && Rotated(a, b, c, p, g, gp) && OthersKept(a, b, c, p, g, gp)
    ensures LinkOk(b, order, RotatedInfo(info, c, p, a[c].rela), c)
  {
    var cr := a[c].rela;
    var o := a[c].Next(cr);
    if o.Some? {
      assert o.value in a && o.value != c && o.value != p;
      if g.Some? { assert a[g.value].rela != a[o.value].rela; }
      if gp.Some? { assert o.value != gp.value; }
      assert b[o.value] == a[o.value];
    }
    var info2 := RotatedInfo(info, c, p, cr);
    assert info2[c] == info[c].(lo := info[p].lo, hi := info[p].hi);
    assert info2[p].pos == info[p].pos;
    if cr == LEFT {
      assert ChildOk(b, info2, c, LEFT);
      assert ChildOk(b, info2, c, RIGHT);
    } else {
      assert ChildOk(b, info2, c, LEFT);
      assert ChildOk(b, info2, c, RIGHT);
    }
  }

  lemma RotatedLinkOkP(a: Arena, order: seq<nat>, info: map<nat, Info>, b: Arena, c: nat, p: nat, g: NodeRef, gp: NodeRef)
    requires Around(a, order, info, c, p, g, gp) && Rotated(a, b, c, p, g, gp) && OthersKept(a, b, c, p, g, gp)
    ensures LinkOk(b, order, RotatedInfo(info, c, p, a[c].rela), p)
  {
    var info2 := RotatedInfo(info, c, p, a[c].rela);
    PInnerOk(a, order, info, b, c, p, g, gp);
    POuterOk(a, order, info, b, c, p, g, gp);
    if a[c].rela == LEFT {
      assert ChildOk(b, info2, p, LEFT) && ChildOk(b, info2, p, RIGHT);
    } else {
      assert ChildOk(b, info2, p, LEFT) && ChildOk(b, info2, p, RIGHT);
    }
  }

  /** `p`'s new child on the side `c` left is the inner grandchild. */
  lemma PInnerOk(a: Arena, order: seq<nat>, info: map<nat, Info>, b: Arena, c: nat, p: nat, g: NodeRef, gp: NodeRef)
    requires Around(a, order, info, c, p, g, gp) && Rotated(a, b, c, p, g, gp)
    ensures ChildOk(b, RotatedInfo(info, c, p, a[c].rela), p, a[c].rela)
  {
    var info2 := RotatedInfo(info, c, p, a[c].rela);
    assert info2[p].pos == info[p].pos;
    if g.Some? {
      assert info2[g.value] == info[g.value];
    }
  }

  /** `p` keeps its child on the far side. */
  lemma POuterOk(a: Arena, order: seq<nat>, info: map<nat, Info>, b: Arena, c: nat, p: nat, g: NodeRef, gp: NodeRef)
    requires Around(a, order, info, c, p, g, gp) && Rotated(a, b, c, p, g, gp) && OthersKept(a, b, c, p, g, gp)
    ensures ChildOk(b, RotatedInfo(info, c, p, a[c].rela), p, a[c].rela.Toggle())
  {
    var cr := a[c].rela;
    var info2 := RotatedInfo(info, c, p, cr);
    assert info2[p].pos == info[p].pos;
    var s := a[p].Next(cr.Toggle());
    if s.Some? {
      assert s.value in a && a[s.value].rela != cr && a[s.value].parent == Some(p);
      if g.Some? { assert a[g.value].parent == Some(c); }
      if gp.Some? { assert Size(info, s.value) < Size(info, gp.value); }
      assert b[s.value] == a[s.value] && info2[s.value] == info[s.value];
    }
  }

  lemma RotatedLinkOkG(a: Arena, order: seq<nat>, info: map<nat, Info>, b: Arena, c: nat, p: nat, g: NodeRef, gp: NodeRef)
    requires Around(a, order, info, c, p, g, gp) && Rotated(a, b, c, p, g, gp) && OthersKept(a, b, c, p, g, gp)
    requires g.Some?
    ensures LinkOk(b, order, RotatedInfo(info, c, p, a[c].rela), g.value)
  {
    var x := g.value;
    var info2 := RotatedInfo(info, c, p, a[c].rela);
    assert info2[x] == info[x];
    var l := a[x].left;
    var r := a[x].right;
    if l.Some? {
      assert Size(info, l.value) < Size(info, x);
      assert b[l.value] == a[l.value] && info2[l.value] == info[l.value];
    }
    if r.Some? {
      assert Size(info, r.value) < Size(info, x);
      assert b[r.value] == a[r.value] && info2[r.value] == info[r.value];
    }
  }

  lemma RotatedLinkOkGp(a: Arena, order: seq<nat>, info: map<nat, Info>, b: Arena, c: nat, p: nat, g: NodeRef, gp: NodeRef)
    requires Around(a, order, info, c, p, g, gp) && Rotated(a, b, c, p, g, gp) && OthersKept(a, b, c, p, g, gp)
    requires gp.Some?
    ensures LinkOk(b, order, RotatedInfo(info, c, p, a[c].rela), gp.value)
  {
    var info2 := RotatedInfo(info, c, p, a[c].rela);
    GpChildOk(a, order, info, b, c, p, g, gp);
    GpSiblingOk(a, order, info, b, c, p, g, gp);
    GpParentOk(a, order, info, b, c, p, g, gp);
    if a[p].rela == LEFT {
      assert ChildOk(b, info2, gp.value, LEFT) && ChildOk(b, info2, gp.value, RIGHT);
    } else {
      assert ChildOk(b, info2, gp.value, LEFT) && ChildOk(b, info2, gp.value, RIGHT);
    }
  }

  lemma GpChildOk(a: Arena, order: seq<nat>, info: map<nat, Info>, b: Arena, c: nat, p: nat, g: NodeRef, gp: NodeRef)
    requires Around(a, order, info, c, p, g, gp) && Rotated(a, b, c, p, g, gp)
    requires gp.Some?
    ensures ChildOk(b, RotatedInfo(info, c, p, a[c].rela), gp.value, a[p].rela)
  {
    var info2 := RotatedInfo(info, c, p, a[c].rela);
    assert info2[gp.value] == info[gp.value];
  }

  lemma GpSiblingOk(a: Arena, order: seq<nat>, info: map<nat, Info>, b: Arena, c: nat, p: nat, g: NodeRef, gp: NodeRef)
    requires Around(a, order, info, c, p, g, gp) && Rotated(a, b, c, p, g, gp) && OthersKept(a, b, c, p, g, gp)
    requires gp.Some?
    ensures ChildOk(b, RotatedInfo(info, c, p, a[c].rela), gp.value, a[p].rela.Toggle())
  {
    var x := gp.value;
    var info2 := RotatedInfo(info, c, p, a[c].rela);
    assert info2[x] == info[x];
    var s := a[x].Next(a[p].rela.Toggle());
    if s.Some? {
      assert s.value in a && a[s.value].rela != a[p].rela && a[s.value].parent == Some(x);
      if g.Some? { assert a[g.value].parent == Some(c); }
      assert b[s.value] == a[s.value] && info2[s.value] == info[s.value];
    }
  }

  lemma GpParentOk(a: Arena, order: seq<nat>, info: map<nat, Info>, b: Arena, c: nat, p: nat, g: NodeRef, gp: NodeRef)
    requires Around(a, order, info, c, p, g, gp) && Rotated(a, b, c, p, g, gp) && OthersKept(a, b, c, p, g, gp)
    requires gp.Some?
    ensures ParentOk(b, gp.value)
  {
    var x := gp.value;
    var q := a[x].parent;
    if q.Some? {
      assert q.value in a && a[q.value].Next(a[x].rela) == Some(x);
      assert q.value != c && q.value != p;
      if g.Some? { assert a[g.value].parent == Some(c); assert q.value != g.value; }
      assert b[q.value] == a[q.value];
    }
  }

  /** The neighbourhood of `c` in a linked arena. */
  lemma AroundOf(a: Arena, order: seq<nat>, info: map<nat, Info>, c: nat)
    requires Linked(a, order, info) && c in a && a[c].parent.Some?
    ensures a[c].parent.value in a
    ensures Around(a, order, info, c, a[c].parent.value, a[c].Next(a[c].rela.Toggle()), a[a[c].parent.value].parent)
  {
    assert LinkOk(a, order, info, c);
    var p := a[c].parent.value;
    assert LinkOk(a, order, info, p);
    ChildSegment(a, order, info, p, a[c].rela);
    var g := a[c].Next(a[c].rela.Toggle());
    if g.Some? {
      assert LinkOk(a, order, info, g.value);
      ChildSegment(a, order, info, c, a[c].rela.Toggle());
    }
    var gp := a[p].parent;
    if gp.Some? {
      assert LinkOk(a, order, info, gp.value);
      ChildSegment(a, order, info, gp.value, a[p].rela);
    }
  }

  /** The nodes a rotation of `c` rewrites. */
  ghost function Touched(c: nat, p: nat, g: NodeRef, gp: NodeRef): set<nat> {
    {c, p} + (if g.Some? then {g.value} else {}) + (if gp.Some? then {gp.value} else {})
  }

  lemma RotatedTouched(a: Arena, order: seq<nat>, info: map<nat, Info>, b: Arena, c: nat, p: nat, g: NodeRef, gp: NodeRef)
    requires Around(a, order, info, c, p, g, gp) && Rotated(a, b, c, p, g, gp) && OthersKept(a, b, c, p, g, gp)
    ensures forall i :: i in Touched(c, p, g, gp) ==> LinkOk(b, order, RotatedInfo(info, c, p, a[c].rela), i)
  {
    RotatedLinkOkC(a, order, info, b, c, p, g, gp);
    RotatedLinkOkP(a, order, info, b, c, p, g, gp);
    if g.Some? {
      RotatedLinkOkG(a, order, info, b, c, p, g, gp);
    }
    if gp.Some? {
      RotatedLinkOkGp(a, order, info, b, c, p, g, gp);
    }
  }

  lemma RotatedBoundary(a: Arena, order: seq<nat>, info: map<nat, Info>, b: Arena, c: nat, p: nat, g: NodeRef, gp: NodeRef)
    requires a.Keys == info.Keys && b.Keys == a.Keys
    requires Around(a, order, info, c, p, g, gp) && Rotated(a, b, c, p, g, gp) && OthersKept(a, b, c, p, g, gp)
    ensures Boundary(a, info, b, RotatedInfo(info, c, p, a[c].rela), Touched(c, p, g, gp))
    ensures var info2 := RotatedInfo(info, c, p, a[c].rela); forall i :: i in info2 ==> info2[i].pos == info[i].pos
  {
    RotatedOutside(a, order, info, b, c, p, g, gp);
    RotatedTop(a, order, info, b, c, p, g, gp);
    RotatedSlots(a, order, info, b, c, p, g, gp);
    RotatedPos(a, order, info, b, c, p, g, gp);
  }

  lemma RotatedOutside(a: Arena, order: seq<nat>, info: map<nat, Info>, b: Arena, c: nat, p: nat, g: NodeRef, gp: NodeRef)
    requires a.Keys == info.Keys && b.Keys == a.Keys
    requires Around(a, order, info, c, p, g, gp) && Rotated(a, b, c, p, g, gp) && OthersKept(a, b, c, p, g, gp)
    ensures OutsideKept(a, info, b, RotatedInfo(info, c, p, a[c].rela), Touched(c, p, g, gp))
  {
  }

  lemma RotatedTop(a: Arena, order: seq<nat>, info: map<nat, Info>, b: Arena, c: nat, p: nat, g: NodeRef, gp: NodeRef)
    requires a.Keys == info.Keys && b.Keys == a.Keys
    requires Around(a, order, info, c, p, g, gp) && Rotated(a, b, c, p, g, gp) && OthersKept(a, b, c, p, g, gp)
    ensures TopKept(a, info, b, RotatedInfo(info, c, p, a[c].rela), Touched(c, p, g, gp))
  {
    var t := Touched(c, p, g, gp);
    var info2 := RotatedInfo(info, c, p, a[c].rela);
    forall n | n in t && n in a && n in b && n in info && n in info2 && a[n].parent.Some? && a[n].parent.value !in t
      ensures b[n].parent == a[n].parent && b[n].rela == a[n].rela && info2[n].lo == info[n].lo && info2[n].hi == info[n].hi
    {
      assert n != c && n != p && (g.None? || n != g.value);
      assert n == gp.value && b[n] == a[n].WithNext(a[p].rela, Some(c));
    }
  }

  lemma RotatedSlots(a: Arena, order: seq<nat>, info: map<nat, Info>, b: Arena, c: nat, p: nat, g: NodeRef, gp: NodeRef)
    requires a.Keys == info.Keys && b.Keys == a.Keys
    requires Around(a, order, info, c, p, g, gp) && Rotated(a, b, c, p, g, gp) && OthersKept(a, b, c, p, g, gp)
    ensures SlotsKept(a, b, Touched(c, p, g, gp))
  {
  }

  lemma RotatedPos(a: Arena, order: seq<nat>, info: map<nat, Info>, b: Arena, c: nat, p: nat, g: NodeRef, gp: NodeRef)
    requires a.Keys == info.Keys && b.Keys == a.Keys
    requires Around(a, order, info, c, p, g, gp) && Rotated(a, b, c, p, g, gp) && OthersKept(a, b, c, p, g, gp)
    ensures var info2 := RotatedInfo(info, c, p, a[c].rela); forall i :: i in info2 ==> info2[i].pos == info[i].pos
  {
  }

  /** A rotation keeps the arena linked, with the segments of `RotatedInfo`. */
  lemma RotatedLinked(a: Arena, order: seq<nat>, info: map<nat, Info>, b: Arena, c: nat, p: nat, g: NodeRef, gp: NodeRef)
    requires Linked(a, order, info) && b.Keys == a.Keys
    requires Around(a, order, info, c, p, g, gp) && Rotated(a, b, c, p, g, gp) && OthersKept(a, b, c, p, g, gp)
    ensures Linked(b, order, RotatedInfo(info, c, p, a[c].rela))
  {
    RotatedTouched(a, order, info, b, c, p, g, gp);
    RotatedBoundary(a, order, info, b, c, p, g, gp);
    LinkedKept(a, order, info, b, RotatedInfo(info, c, p, a[c].rela), Touched(c, p, g, gp));
  }

  /** A rotation keeps the root link right: `c` becomes the root exactly when `p` was. */
  lemma RotatedRootOk(a: Arena, order: seq<nat>, info: map<nat, Info>, root: NodeRef, b: Arena, c: nat, p: nat, g: NodeRef, gp: NodeRef)
    requires Linked(a, order, info) && RootOk(a, root, order, info) && b.Keys == a.Keys
    requires Around(a, order, info, c, p, g, gp) && Rotated(a, b, c, p, g, gp) && OthersKept(a, b, c, p, g, gp)
    ensures RootOk(b, if gp.None? then Some(c) else root, order, RotatedInfo(info, c, p, a[c].rela))
  {
  }

  /** A rotation changes links only: every node keeps its key. */
  lemma RotatedSameKeys(a: Arena, b: Arena, c: nat, p: nat, g: NodeRef, gp: NodeRef)
    requires c in a && p in a && (g.Some? ==> g.value in a) && (gp.Some? ==> gp.value in a)
    requires a[c].rela != PARENT && (gp.Some? ==> a[p].rela != PARENT)
    requires b.Keys == a.Keys && Rotated(a, b, c, p, g, gp) && OthersKept(a, b, c, p, g, gp)
    ensures SameKeys(a, b)
  {
  }

  /**
   * `single_rotate` on `c`, whose parent is `p`: the writes of the source in
   * its order. The result is the rotated arena; it stays linked with the
   * segments of `RotatedInfo`, every node keeps its key, and `c` becomes the
   * root exactly when `p` was. The ghost parameters name the neighbourhood.
   */
  method SingleRotate(a: Arena, root: NodeRef, c: nat, ghost order: seq<nat>, ghost info: map<nat, Info>,
                      ghost p: nat, ghost g: NodeRef, ghost gp: NodeRef)
    returns (b: Arena, root2: NodeRef)
    requires Linked(a, order, info) && RootOk(a, root, order, info)
    requires c in a && a[c].parent == Some(p) && p in a
    requires g == a[c].Next(a[c].rela.Toggle()) && gp == a[p].parent
    ensures Around(a, order, info, c, p, g, gp)
    ensures b.Keys == a.Keys && SameKeys(a, b)
    ensures Rotated(a, b, c, p, g, gp)
    ensures OthersKept(a, b, c, p, g, gp)
    ensures root2 == if gp.None? then Some(c) else root
    ensures Linked(b, order, RotatedInfo(info, c, p, a[c].rela))
    ensures RootOk(b, root2, order, RotatedInfo(info, c, p, a[c].rela))
  {
    AroundOf(a, order, info, c);
    b, root2 := Relink(a, root, c, order, info, p, g, gp);
    RotatedLinked(a, order, info, b, c, p, g, gp);
    RotatedRootOk(a, order, info, root, b, c, p, g, gp);
    RotatedSameKeys(a, b, c, p, g, gp);
  }

  /** The link rewriting of `single_rotate`: `g` moves under `p`, `c` takes `p`'s slot under `gp`, `p` goes under `c`. */
  method Relink(a: Arena, root: NodeRef, c: nat, ghost order: seq<nat>, ghost info: map<nat, Info>,
                ghost p: nat, ghost g: NodeRef, ghost gp: NodeRef)
    returns (b: Arena, root2: NodeRef)
    requires Around(a, order, info, c, p, g, gp)
    ensures b.Keys == a.Keys && Rotated(a, b, c, p, g, gp) && OthersKept(a, b, c, p, g, gp)
    ensures root2 == if gp.None? then Some(c) else root
  {
    var crela := a[c].rela;
    b := a;
    var pn := a[c].parent.value;
    if a[c].Next(crela.Toggle()).Some? {
      var gn := a[c].Next(crela.Toggle()).value;
      b := b[gn := b[gn].SetParent(Some(pn), crela)];
    }
    b := b[pn := b[pn].WithNext(crela, a[c].Next(crela.Toggle()))];
    var prela := b[pn].rela;
    var up := b[pn].parent;
    if up.Some? {
      b := b[up.value := b[up.value].WithNext(prela, Some(c))];
      root2 := root;
    } else {
      root2 := Some(c);
    }
    b := b[pn := b[pn].SetParent(Some(c), crela.Toggle())];
    b := b[c := b[c].WithNext(crela.Toggle(), Some(pn))];
    b := b[c := b[c].SetParent(up, prela)];
  }
}
