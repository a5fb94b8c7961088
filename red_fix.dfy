/**
 * `Node::double_red_adjust`: the insertion fix-up. A red node whose parent is
 * red is repaired by rotations when its uncle is black or missing, and by
 * recolouring its parent, uncle and grandparent otherwise, which may move the
 * violation two levels up.
 */
module RedFix {
  import opened Wrappers
  import opened Flag
  import opened Node
  import opened Frame
  import opened Rotation

  /**
   * The state the fix-up starts from: a linked tree whose red-black
   * conditions hold except that the red node `x` has a red parent; the
   * parent's other child is not red.
   */
  ghost predicate DoubleRed(a: Arena, order: seq<nat>, info: map<nat, Info>, root: NodeRef, bh: map<nat, nat>, x: nat) {
    && Linked(a, order, info) && RootOk(a, root, order, info)
    && a.Keys == bh.Keys && RootBlack(a, root) && AllColor(a) && AllBh(a, bh)
    && x in a && a[x].color == RED && a[x].parent.Some? && a[x].parent.value in a
    && a[a[x].parent.value].color == RED
    && (forall i {:trigger RedOk(a, i)} :: i in a && i != a[x].parent.value ==> RedOk(a, i))
    && NotRed(a, a[a[x].parent.value].Next(a[x].rela.Toggle()))
  }

  /** The red node `x`, its red parent `p` and its black grandparent `gp`, with equal black heights. */
  ghost predicate Family(a: Arena, order: seq<nat>, info: map<nat, Info>, bh: map<nat, nat>, x: nat, p: nat, gp: nat) {
    && LinkOk(a, order, info, x) && LinkOk(a, order, info, p) && LinkOk(a, order, info, gp)
    && x in bh && p in bh && gp in bh
    && a[x].parent == Some(p) && a[p].parent == Some(gp)
    && a[x].rela != PARENT && a[p].rela != PARENT
    && a[x].color == RED && a[p].color == RED && a[gp].color == BLACK
    && bh[x] == bh[p] && bh[gp] == bh[p]
    && Size(info, x) < Size(info, p) < Size(info, gp)
  }

  /** A red parent is never the root, so the grandparent exists; it is black. */
  lemma FamilyOf(a: Arena, order: seq<nat>, info: map<nat, Info>, root: NodeRef, bh: map<nat, nat>, x: nat)
    requires DoubleRed(a, order, info, root, bh, x)
    ensures a[a[x].parent.value].parent.Some?
    ensures Family(a, order, info, bh, x, a[x].parent.value, a[a[x].parent.value].parent.value)
  {
    var p := a[x].parent.value;
    assert LinkOk(a, order, info, x) && LinkOk(a, order, info, p);
    ChildSegment(a, order, info, p, a[x].rela);
    var gp := a[p].parent.value;
    assert LinkOk(a, order, info, gp);
    ChildSegment(a, order, info, gp, a[p].rela);
    assert RedOk(a, gp) && ColorOk(a, gp);
    assert BhOk(a, bh, p) && BhOk(a, bh, gp);
    assert a[p].Next(a[x].rela) == Some(x);
    assert a[gp].Next(a[p].rela) == Some(p);
  }

  /** Black counts of the links below the family: every one of them is the black height of `p`. */
  lemma FamilyCounts(a: Arena, order: seq<nat>, info: map<nat, Info>, root: NodeRef, bh: map<nat, nat>, x: nat, p: nat, gp: nat)
    requires DoubleRed(a, order, info, root, bh, x) && Family(a, order, info, bh, x, p, gp)
    ensures Bhc(a, bh, a[x].left) == bh[p] && Bhc(a, bh, a[x].right) == bh[p]
    ensures Bhc(a, bh, a[p].left) == bh[p] && Bhc(a, bh, a[p].right) == bh[p]
    ensures Bhc(a, bh, a[gp].left) == bh[p] && Bhc(a, bh, a[gp].right) == bh[p]
    ensures NotRed(a, a[x].left) && NotRed(a, a[x].right)
  {
    assert BhOk(a, bh, x) && BhOk(a, bh, p) && BhOk(a, bh, gp) && RedOk(a, x);
  }

  /**
   * The records after the outer case, as far as the colour conditions read
   * them: `p` is black over `x` and `gp`, `gp` is red over `s` and the uncle,
   * the parent of `gp` holds `p` instead, and no other node changes its colour or children.
   */
  ghost predicate OuterSeen(a: Arena, b: Arena, x: nat, p: nat, gp: nat, s: NodeRef) {
    && x in a && p in a && gp in a && b.Keys == a.Keys && a[p].rela != PARENT
    && var pr := a[p].rela;
    && var q := a[gp].parent;
    && b[p].color == BLACK && b[p].Next(pr) == Some(x) && b[p].Next(pr.Toggle()) == Some(gp)
    && b[gp].color == RED && b[gp].Next(pr) == s && b[gp].Next(pr.Toggle()) == a[gp].Next(pr.Toggle())
    && (q.Some? ==> (q.value in a && a[gp].rela != PARENT && b[q.value].color == a[q.value].color
      && b[q.value].Next(a[gp].rela) == Some(p) && b[q.value].Next(a[gp].rela.Toggle()) == a[q.value].Next(a[gp].rela.Toggle())))
    && (forall i :: i in a && i != p && i != gp && (q.None? || i != q.value) ==>
      b[i].color == a[i].color && b[i].left == a[i].left && b[i].right == a[i].right)
  }

  /**
   * The outer case, uncle black or missing and `x` on the same side of `p` as
   * `p` of `gp`: after `gp` is painted red, `p` rotates over `gp` and is
   * painted black. The records afterwards, as far as the colour conditions read them.
   */
  lemma OuterView(a: Arena, order: seq<nat>, info: map<nat, Info>, bh: map<nat, nat>, x: nat, p: nat, gp: nat,
                  s: NodeRef, q: NodeRef, a1: Arena, b1: Arena, b: Arena)
    requires Family(a, order, info, bh, x, p, gp) && a.Keys == info.Keys
    requires a[x].rela == a[p].rela && s == a[p].Next(a[p].rela.Toggle()) && q == a[gp].parent
    requires a1 == a[gp := a[gp].Paint(RED)]
    requires Around(a1, order, info, p, gp, s, q) && Rotated(a1, b1, p, gp, s, q) && OthersKept(a1, b1, p, gp, s, q)
    requires b1.Keys == a.Keys && b == b1[p := b1[p].Paint(BLACK)]
    ensures OuterSeen(a, b, x, p, gp, s)
  {
    assert a[p].Next(a[x].rela) == Some(x);
    OuterRecords(a, order, info, x, p, gp, s, q, a1, b1, b);
  }

  /** `OuterSeen` from the rotation's records alone. */
  lemma OuterRecords(a: Arena, order: seq<nat>, info: map<nat, Info>, x: nat, p: nat, gp: nat,
                     s: NodeRef, q: NodeRef, a1: Arena, b1: Arena, b: Arena)
    requires x in a && p in a && gp in a && a[p].rela != PARENT && a[p].Next(a[p].rela) == Some(x)
    requires s == a[p].Next(a[p].rela.Toggle()) && q == a[gp].parent
    requires a1 == a[gp := a[gp].Paint(RED)]
    requires Around(a1, order, info, p, gp, s, q) && Rotated(a1, b1, p, gp, s, q) && OthersKept(a1, b1, p, gp, s, q)
    requires b1.Keys == a.Keys && b == b1[p := b1[p].Paint(BLACK)]
    ensures OuterSeen(a, b, x, p, gp, s)
  {
    OuterKept(a, order, info, p, gp, s, q, a1, b1, b);
  }

  /** The rotation of the outer case leaves the colour and children of every node but `p`, `gp` and the parent of `gp` as they were. */
  lemma OuterKept(a: Arena, order: seq<nat>, info: map<nat, Info>, p: nat, gp: nat, s: NodeRef, q: NodeRef, a1: Arena, b1: Arena, b: Arena)
    requires gp in a && a1 == a[gp := a[gp].Paint(RED)]
    requires Around(a1, order, info, p, gp, s, q) && Rotated(a1, b1, p, gp, s, q) && OthersKept(a1, b1, p, gp, s, q)
    requires b == b1[p := b1[p].Paint(BLACK)]
    ensures forall i :: i in a && i != p && i != gp && (q.None? || i != q.value) ==>
      b[i].color == a[i].color && b[i].left == a[i].left && b[i].right == a[i].right
  {
    forall i | i in a && i != p && i != gp && (q.None? || i != q.value)
      ensures b[i].color == a[i].color && b[i].left == a[i].left && b[i].right == a[i].right
    {
      if s.Some? && i == s.value {
        assert b[i] == a[i].SetParent(Some(gp), a1[p].rela);
      } else {
        assert b[i] == a1[i];
      }
    }
  }

  /** Outer case: `p`, now black, has the red `x` and the red `gp` below it, both of black height `bh[p]`. */
  lemma OuterP(a: Arena, order: seq<nat>, info: map<nat, Info>, root: NodeRef, bh: map<nat, nat>, x: nat, p: nat, gp: nat, b: Arena)
    requires DoubleRed(a, order, info, root, bh, x) && Family(a, order, info, bh, x, p, gp)
    requires b.Keys == a.Keys && p != gp && x != gp && x != p
    requires b[p].color == BLACK && b[p].Next(a[p].rela) == Some(x) && b[p].Next(a[p].rela.Toggle()) == Some(gp)
    requires b[gp].color == RED && b[x].color == RED
    ensures ColorOk(b, p) && RedOk(b, p) && BhOk(b, bh[gp := bh[p]], p)
  {
    var bh2 := bh[gp := bh[p]];
    assert Bhc(b, bh2, Some(x)) == bh[p] && Bhc(b, bh2, Some(gp)) == bh[p];
    if a[p].rela == LEFT {
      assert b[p].left == Some(x) && b[p].right == Some(gp);
    } else {
      assert b[p].right == Some(x) && b[p].left == Some(gp);
    }
  }

  /** A link whose target keeps its colour and black height keeps its black count and its redness. */
  lemma LinkShade(a: Arena, bh: map<nat, nat>, b: Arena, bh2: map<nat, nat>, l: NodeRef)
    requires l.Some? ==> l.value in a && l.value in b && l.value in bh && l.value in bh2
    requires l.Some? ==> b[l.value].color == a[l.value].color && bh2[l.value] == bh[l.value]
    ensures Bhc(b, bh2, l) == Bhc(a, bh, l) && NotRed(b, l) == NotRed(a, l)
  {
  }

  /** Outer case: `gp`, now red, holds the old sibling `s` of `x` and the uncle `u`, both not red and of black height `bh[p]`. */
  lemma OuterGp(a: Arena, order: seq<nat>, info: map<nat, Info>, root: NodeRef, bh: map<nat, nat>, x: nat, p: nat, gp: nat,
                s: NodeRef, u: NodeRef, b: Arena)
    requires DoubleRed(a, order, info, root, bh, x) && Family(a, order, info, bh, x, p, gp)
    requires a[x].rela == a[p].rela && s == a[p].Next(a[p].rela.Toggle()) && u == a[gp].Next(a[p].rela.Toggle())
    requires NotRed(a, u) && b.Keys == a.Keys
    requires b[gp].color == RED && b[gp].Next(a[p].rela) == s && b[gp].Next(a[p].rela.Toggle()) == u
    requires s.Some? ==> s.value in a && s.value != gp && b[s.value].color == a[s.value].color
    requires u.Some? ==> u.value in a && u.value != gp && b[u.value].color == a[u.value].color
    ensures ColorOk(b, gp) && RedOk(b, gp) && BhOk(b, bh[gp := bh[p]], gp)
  {
    var bh2 := bh[gp := bh[p]];
    FamilyCounts(a, order, info, root, bh, x, p, gp);
    LinkShade(a, bh, b, bh2, s);
    LinkShade(a, bh, b, bh2, u);
    if a[p].rela == LEFT {
      assert b[gp].left == s && b[gp].right == u;
    } else {
      assert b[gp].right == s && b[gp].left == u;
    }
  }

  /**
   * The parent `q` of `gp` now holds `n` in `gp`'s slot, and `n` carries the
   * black count `gp` carried; `q`'s colour conditions hold again (its red
   * condition as far as it held before and `n` is not red).
   */
  lemma SlotSwapped(a: Arena, order: seq<nat>, info: map<nat, Info>, root: NodeRef, bh: map<nat, nat>, x: nat, p: nat, gp: nat,
                    n: nat, b: Arena, bh2: map<nat, nat>)
    requires DoubleRed(a, order, info, root, bh, x) && Family(a, order, info, bh, x, p, gp) && a[gp].parent.Some?
    requires b.Keys == a.Keys && bh2.Keys == a.Keys && n in b
    requires
      var q := a[gp].parent.value;
      && q in a && q != gp && a[gp].rela != PARENT
      && b[q].color == a[q].color && bh2[q] == bh[q]
      && b[q].Next(a[gp].rela) == Some(n) && b[q].Next(a[gp].rela.Toggle()) == a[q].Next(a[gp].rela.Toggle())
    requires Bhc(b, bh2, Some(n)) == Bhc(a, bh, Some(gp))
    requires var w := a[a[gp].parent.value].Next(a[gp].rela.Toggle());
      w.Some? ==> w.value in a && b[w.value].color == a[w.value].color && bh2[w.value] == bh[w.value]
    ensures var q := a[gp].parent.value; ColorOk(b, q) && BhOk(b, bh2, q) && (RedOk(a, q) && NotRed(b, Some(n)) ==> RedOk(b, q))
  {
    var q := a[gp].parent.value;
    var gr := a[gp].rela;
    ParentOf(a, order, info, gp);
    assert ColorOk(a, q) && BhOk(a, bh, q);
    LinkShade(a, bh, b, bh2, a[q].Next(gr.Toggle()));
    if gr == LEFT {
      assert b[q].left == Some(n) && b[q].right == a[q].right;
    } else {
      assert b[q].right == Some(n) && b[q].left == a[q].left;
    }
  }

  /** The sibling of `gp` is neither `x`, `p` nor `gp`. */
  lemma UncleOfGp(a: Arena, order: seq<nat>, info: map<nat, Info>, root: NodeRef, bh: map<nat, nat>, x: nat, p: nat, gp: nat)
    requires DoubleRed(a, order, info, root, bh, x) && Family(a, order, info, bh, x, p, gp) && a[gp].parent.Some?
    ensures var q := a[gp].parent.value; q in a && q != gp && q != p && q != x && a[gp].rela != PARENT
    ensures var w := a[a[gp].parent.value].Next(a[gp].rela.Toggle());
      w.Some? ==> w.value in a && w.value != gp && w.value != p && w.value != x && w.value != a[gp].parent.value
  {
    ParentOf(a, order, info, gp);
    var q := a[gp].parent.value;
    var w := a[q].Next(a[gp].rela.Toggle());
    if w.Some? {
      ChildOf(a, order, info, q, a[gp].rela.Toggle());
    }
  }

  /** The handles of `t` plus the parent of `gp`, if any. */
  ghost function WithParent(a: Arena, gp: nat, t: set<nat>): set<nat>
    requires gp in a
  {
    t + (if a[gp].parent.Some? then {a[gp].parent.value} else {})
  }

  /** Outer case: after rotating `p` over `gp` and repainting, the tree is red-black again. */
  lemma OuterRb(a: Arena, order: seq<nat>, info: map<nat, Info>, root: NodeRef, bh: map<nat, nat>, x: nat, p: nat, gp: nat,
                s: NodeRef, q: NodeRef, a1: Arena, b1: Arena, b: Arena, root2: NodeRef)
    requires DoubleRed(a, order, info, root, bh, x) && Family(a, order, info, bh, x, p, gp)
    requires a[x].rela == a[p].rela && s == a[p].Next(a[p].rela.Toggle()) && q == a[gp].parent
    requires NotRed(a, a[gp].Next(a[p].rela.Toggle()))
    requires a1 == a[gp := a[gp].Paint(RED)]
    requires Around(a1, order, info, p, gp, s, q) && Rotated(a1, b1, p, gp, s, q) && OthersKept(a1, b1, p, gp, s, q)
    requires b1.Keys == a.Keys && b == b1[p := b1[p].Paint(BLACK)]
    requires root2 == if q.None? then Some(p) else root
    ensures RedBlack(b, root2, bh[gp := bh[p]])
  {
    OuterView(a, order, info, bh, x, p, gp, s, q, a1, b1, b);
    OuterSeenRb(a, order, info, root, bh, x, p, gp, s, b, root2);
  }

  lemma OuterSeenRb(a: Arena, order: seq<nat>, info: map<nat, Info>, root: NodeRef, bh: map<nat, nat>, x: nat, p: nat, gp: nat,
                    s: NodeRef, b: Arena, root2: NodeRef)
    requires DoubleRed(a, order, info, root, bh, x) && Family(a, order, info, bh, x, p, gp)
    requires a[x].rela == a[p].rela && s == a[p].Next(a[p].rela.Toggle())
    requires NotRed(a, a[gp].Next(a[p].rela.Toggle()))
    requires OuterSeen(a, b, x, p, gp, s)
    requires root2 == if a[gp].parent.None? then Some(p) else root
    ensures RedBlack(b, root2, bh[gp := bh[p]])
  {
    var bh2 := bh[gp := bh[p]];
    var t := WithParent(a, gp, {p, gp});
    OuterPSeen(a, order, info, root, bh, x, p, gp, s, b);
    OuterGpSeen(a, order, info, root, bh, x, p, gp, s, b);
    if a[gp].parent.Some? {
      OuterQ(a, order, info, root, bh, x, p, gp, s, b);
    }
    OuterEdge(a, order, info, root, bh, x, p, gp, s, b);
    assert RootBlack(b, root2) by {
      if a[gp].parent.Some? && root.Some? {
        assert root.value != p && root.value != gp;
      }
    }
    RedBlackFrom(a, order, info, bh, b, bh2, root2, t);
  }

  lemma OuterPSeen(a: Arena, order: seq<nat>, info: map<nat, Info>, root: NodeRef, bh: map<nat, nat>, x: nat, p: nat, gp: nat,
                   s: NodeRef, b: Arena)
    requires DoubleRed(a, order, info, root, bh, x) && Family(a, order, info, bh, x, p, gp)
    requires a[x].rela == a[p].rela && OuterSeen(a, b, x, p, gp, s)
    ensures p in b && ColorOk(b, p) && RedOk(b, p) && BhOk(b, bh[gp := bh[p]], p)
  {
    assert b[x].color == RED by {
      if a[gp].parent.Some? {
        UncleOfGp(a, order, info, root, bh, x, p, gp);
      }
    }
    OuterP(a, order, info, root, bh, x, p, gp, b);
  }

  lemma OuterGpSeen(a: Arena, order: seq<nat>, info: map<nat, Info>, root: NodeRef, bh: map<nat, nat>, x: nat, p: nat, gp: nat,
                    s: NodeRef, b: Arena)
    requires DoubleRed(a, order, info, root, bh, x) && Family(a, order, info, bh, x, p, gp)
    requires a[x].rela == a[p].rela && s == a[p].Next(a[p].rela.Toggle())
    requires NotRed(a, a[gp].Next(a[p].rela.Toggle()))
    requires OuterSeen(a, b, x, p, gp, s)
    ensures gp in b && ColorOk(b, gp) && RedOk(b, gp) && BhOk(b, bh[gp := bh[p]], gp)
  {
    var pr := a[p].rela;
    var u := a[gp].Next(pr.Toggle());
    if s.Some? { ChildOf(a, order, info, p, pr.Toggle()); }
    if u.Some? { ChildOf(a, order, info, gp, pr.Toggle()); }
    if a[gp].parent.Some? {
      ParentOf(a, order, info, gp);
    }
    OuterGp(a, order, info, root, bh, x, p, gp, s, u, b);
  }

  /** Outer case: the parent of `gp` now holds the black `p`, which carries the black count `gp` carried. */
  lemma OuterQ(a: Arena, order: seq<nat>, info: map<nat, Info>, root: NodeRef, bh: map<nat, nat>, x: nat, p: nat, gp: nat,
               s: NodeRef, b: Arena)
    requires DoubleRed(a, order, info, root, bh, x) && Family(a, order, info, bh, x, p, gp)
    requires OuterSeen(a, b, x, p, gp, s) && a[gp].parent.Some?
    ensures var q := a[gp].parent.value;
      q in b && q in bh[gp := bh[p]] && ColorOk(b, q) && RedOk(b, q) && BhOk(b, bh[gp := bh[p]], q)
  {
    var bh2 := bh[gp := bh[p]];
    UncleOfGp(a, order, info, root, bh, x, p, gp);
    SlotSwapped(a, order, info, root, bh, x, p, gp, p, b, bh2);
    assert RedOk(a, a[gp].parent.value);
  }

  /** Outer case: the nodes outside `p`, `gp` and its parent keep their shades, and the parent of `gp` its colour. */
  lemma OuterEdge(a: Arena, order: seq<nat>, info: map<nat, Info>, root: NodeRef, bh: map<nat, nat>, x: nat, p: nat, gp: nat,
                  s: NodeRef, b: Arena)
    requires DoubleRed(a, order, info, root, bh, x) && Family(a, order, info, bh, x, p, gp)
    requires OuterSeen(a, b, x, p, gp, s)
    ensures forall i :: i in a && i !in WithParent(a, gp, {p, gp}) ==> ShadeSame(a, bh, b, bh[gp := bh[p]], i)
    ensures forall c :: c in WithParent(a, gp, {p, gp}) && c in a && a[c].parent.Some? && a[c].parent.value !in WithParent(a, gp, {p, gp}) ==>
      b[c].color == a[c].color && bh[gp := bh[p]][c] == bh[c]
  {
    if a[gp].parent.Some? {
      UncleOfGp(a, order, info, root, bh, x, p, gp);
    }
  }

  /**
   * The records after the first rotation of the inner case: `x` has moved
   * into `p`'s slot under `gp` with `p` below it, and `p` has taken over the
   * inner child `g1` of `x`.
   */
  ghost predicate InnerFirst(a: Arena, b1: Arena, x: nat, p: nat, gp: nat) {
    && x in a && p in a && gp in a && b1.Keys == a.Keys && a[p].rela != PARENT
    && var pr := a[p].rela;
    && b1[x].color == RED && b1[x].Next(pr) == Some(p) && b1[x].Next(pr.Toggle()) == a[x].Next(pr.Toggle())
    && b1[x].parent == Some(gp) && b1[x].rela == pr
    && b1[p].color == RED && b1[p].Next(pr) == a[p].Next(pr) && b1[p].Next(pr.Toggle()) == a[x].Next(pr)
    && b1[gp].color == RED && b1[gp].Next(pr) == Some(x) && b1[gp].Next(pr.Toggle()) == a[gp].Next(pr.Toggle())
    && b1[gp].parent == a[gp].parent && b1[gp].rela == a[gp].rela
    && (forall i :: i in a && i != x && i != p && i != gp ==>
      b1[i].color == a[i].color && b1[i].left == a[i].left && b1[i].right == a[i].right)
    && (a[gp].parent.Some? ==> a[gp].parent.value in a && b1[a[gp].parent.value] == a[a[gp].parent.value])
  }

  lemma InnerFirstView(a: Arena, order: seq<nat>, info: map<nat, Info>, root: NodeRef, bh: map<nat, nat>, x: nat, p: nat, gp: nat,
                       g1: NodeRef, a1: Arena, b1: Arena)
    requires DoubleRed(a, order, info, root, bh, x) && Family(a, order, info, bh, x, p, gp)
    requires a[x].rela != a[p].rela && g1 == a[x].Next(a[x].rela.Toggle())
    requires a1 == a[gp := a[gp].Paint(RED)]
    requires Around(a1, order, info, x, p, g1, Some(gp)) && Rotated(a1, b1, x, p, g1, Some(gp)) && OthersKept(a1, b1, x, p, g1, Some(gp))
    requires b1.Keys == a.Keys
    ensures InnerFirst(a, b1, x, p, gp)
  {
    var pr := a[p].rela;
    assert a[x].rela == pr.Toggle();
    assert a[p].Next(pr.Toggle()) == Some(x);
    if a[gp].parent.Some? {
      UncleOfGp(a, order, info, root, bh, x, p, gp);
      if g1.Some? { ChildOf(a, order, info, x, pr); }
    }
    InnerFirstRecords(a, order, info, x, p, gp, g1, a1, b1);
  }

  /** `InnerFirst` from the rotation's records, given that the parent of `gp` is none of the rotated nodes. */
  lemma InnerFirstRecords(a: Arena, order: seq<nat>, info: map<nat, Info>, x: nat, p: nat, gp: nat, g1: NodeRef, a1: Arena, b1: Arena)
    requires x in a && p in a && gp in a && a[x].parent == Some(p) && a[p].parent == Some(gp)
    requires a[x].rela != PARENT && a[p].rela != PARENT && a[x].rela != a[p].rela && a[p].Next(a[x].rela) == Some(x)
    requires a[x].color == RED && a[p].color == RED && g1 == a[x].Next(a[x].rela.Toggle())
    requires a1 == a[gp := a[gp].Paint(RED)] && b1.Keys == a.Keys
    requires Around(a1, order, info, x, p, g1, Some(gp)) && Rotated(a1, b1, x, p, g1, Some(gp)) && OthersKept(a1, b1, x, p, g1, Some(gp))
    requires a[gp].parent.Some? ==>
      var q := a[gp].parent.value; q in a && q != x && q != p && q != gp && (g1.Some? ==> q != g1.value)
    ensures InnerFirst(a, b1, x, p, gp)
  {
    InnerFirstKept(a, order, info, x, p, gp, g1, a1, b1);
  }

  /** The first rotation of the inner case leaves the colour and children of every other node as they were. */
  lemma InnerFirstKept(a: Arena, order: seq<nat>, info: map<nat, Info>, x: nat, p: nat, gp: nat, g1: NodeRef, a1: Arena, b1: Arena)
    requires gp in a && a1 == a[gp := a[gp].Paint(RED)]
    requires Around(a1, order, info, x, p, g1, Some(gp)) && Rotated(a1, b1, x, p, g1, Some(gp)) && OthersKept(a1, b1, x, p, g1, Some(gp))
    ensures forall i :: i in a && i != x && i != p && i != gp ==>
      b1[i].color == a[i].color && b1[i].left == a[i].left && b1[i].right == a[i].right
  {
    forall i | i in a && i != x && i != p && i != gp
      ensures b1[i].color == a[i].color && b1[i].left == a[i].left && b1[i].right == a[i].right
    {
      if g1.Some? && i == g1.value {
        assert b1[i] == a[i].SetParent(Some(p), a1[x].rela);
      } else {
        assert b1[i] == a1[i];
      }
    }
  }

  /**
   * The records after the inner case, as far as the colour conditions read
   * them: `x` is black over `p` and `gp`, `p` is red over its old outer child
   * and `g1`, `gp` is red over the other child of `x` and the uncle, and the
   * parent of `gp` holds `x` instead.
   */
  ghost predicate InnerSeen(a: Arena, b: Arena, x: nat, p: nat, gp: nat) {
    && x in a && p in a && gp in a && b.Keys == a.Keys && a[p].rela != PARENT
    && var pr := a[p].rela;
    && var q := a[gp].parent;
    && b[x].color == BLACK && b[x].Next(pr) == Some(p) && b[x].Next(pr.Toggle()) == Some(gp)
    && b[p].color == RED && b[p].Next(pr) == a[p].Next(pr) && b[p].Next(pr.Toggle()) == a[x].Next(pr)
    && b[gp].color == RED && b[gp].Next(pr) == a[x].Next(pr.Toggle()) && b[gp].Next(pr.Toggle()) == a[gp].Next(pr.Toggle())
    && (q.Some? ==> (q.value in a && a[gp].rela != PARENT && b[q.value].color == a[q.value].color
      && b[q.value].Next(a[gp].rela) == Some(x) && b[q.value].Next(a[gp].rela.Toggle()) == a[q.value].Next(a[gp].rela.Toggle())))
    && (forall i :: i in a && i != x && i != p && i != gp && (q.None? || i != q.value) ==>
      b[i].color == a[i].color && b[i].left == a[i].left && b[i].right == a[i].right)
  }

  lemma InnerSecondView(a: Arena, order: seq<nat>, info: map<nat, Info>, root: NodeRef, bh: map<nat, nat>, x: nat, p: nat, gp: nat,
                        xo: NodeRef, q: NodeRef, b1: Arena, info1: map<nat, Info>, b2: Arena, b: Arena)
    requires DoubleRed(a, order, info, root, bh, x) && Family(a, order, info, bh, x, p, gp)
    requires InnerFirst(a, b1, x, p, gp) && xo == a[x].Next(a[p].rela.Toggle()) && q == a[gp].parent
    requires Around(b1, order, info1, x, gp, xo, q) && Rotated(b1, b2, x, gp, xo, q) && OthersKept(b1, b2, x, gp, xo, q)
    requires b2.Keys == a.Keys && b == b2[x := b2[x].Paint(BLACK)]
    ensures InnerSeen(a, b, x, p, gp)
  {
    if q.Some? {
      UncleOfGp(a, order, info, root, bh, x, p, gp);
    }
    if xo.Some? { ChildOf(a, order, info, x, a[p].rela.Toggle()); }
    InnerSecondSeen(a, x, p, gp, xo, q, b1, b2, b);
  }

  /** Inner case, second rotation, on the records alone: the rotation and the paint give the view of the colour conditions. */
  lemma InnerSecondSeen(a: Arena, x: nat, p: nat, gp: nat, xo: NodeRef, q: NodeRef, b1: Arena, b2: Arena, b: Arena)
    requires InnerFirst(a, b1, x, p, gp) && xo == a[x].Next(a[p].rela.Toggle()) && q == a[gp].parent
    requires x != p && x != gp && p != gp && (q.Some? ==> q.value in a && q.value != x && q.value != p && q.value != gp)
    requires xo.Some? ==> xo.value in a && xo.value != x && xo.value != p && xo.value != gp
    requires b1[x].rela != PARENT && b1[gp].parent == q
    requires b1[x].parent == Some(gp) && (q.Some? ==> q.value in b1 && b1[gp].rela != PARENT)
    requires Rotated(b1, b2, x, gp, xo, q) && OthersKept(b1, b2, x, gp, xo, q)
    requires b2.Keys == a.Keys && b == b2[x := b2[x].Paint(BLACK)]
    ensures InnerSeen(a, b, x, p, gp)
  {
    InnerSecondOthers(a, x, p, gp, xo, q, b1, b2, b);
  }

  /** Inner case, second rotation: the nodes other than the family and the parent of `gp` keep their colours and children. */
  lemma InnerSecondOthers(a: Arena, x: nat, p: nat, gp: nat, xo: NodeRef, q: NodeRef, b1: Arena, b2: Arena, b: Arena)
    requires InnerFirst(a, b1, x, p, gp) && xo == a[x].Next(a[p].rela.Toggle()) && q == a[gp].parent
    requires x != p && x != gp && p != gp && (q.Some? ==> q.value != x && q.value != p && q.value != gp)
    requires xo.Some? ==> xo.value in a && xo.value != x && xo.value != p && xo.value != gp
    requires b1[x].rela != PARENT && b1[gp].parent == q
    requires b1[x].parent == Some(gp) && (q.Some? ==> q.value in b1 && b1[gp].rela != PARENT)
    requires Rotated(b1, b2, x, gp, xo, q) && OthersKept(b1, b2, x, gp, xo, q)
    requires b2.Keys == a.Keys && b == b2[x := b2[x].Paint(BLACK)]
    ensures forall i :: i in a && i != x && i != p && i != gp && (q.None? || i != q.value) ==>
      b[i].color == a[i].color && b[i].left == a[i].left && b[i].right == a[i].right
    ensures b[p] == b1[p]
  {
    forall i | i in a && i != x && i != p && i != gp && (q.None? || i != q.value)
      ensures b[i].color == a[i].color && b[i].left == a[i].left && b[i].right == a[i].right
    {
      if xo.Some? && i == xo.value {
        assert b[i] == b1[i].SetParent(Some(gp), b1[x].rela);
      } else {
        assert b[i] == b1[i];
      }
    }
  }

  /** Inner case: `x`, now black, has the red `p` and the red `gp` below it, both of black height `bh[p]`. */
  lemma InnerX(a: Arena, order: seq<nat>, info: map<nat, Info>, root: NodeRef, bh: map<nat, nat>, x: nat, p: nat, gp: nat, b: Arena)
    requires DoubleRed(a, order, info, root, bh, x) && Family(a, order, info, bh, x, p, gp)
    requires InnerSeen(a, b, x, p, gp)
    ensures x in b && ColorOk(b, x) && RedOk(b, x) && BhOk(b, bh[gp := bh[p]], x)
  {
    var bh2 := bh[gp := bh[p]];
    assert p != gp && x != gp;
    assert Bhc(b, bh2, Some(p)) == bh[p] && Bhc(b, bh2, Some(gp)) == bh[p];
    if a[p].rela == LEFT {
      assert b[x].left == Some(p) && b[x].right == Some(gp);
    } else {
      assert b[x].right == Some(p) && b[x].left == Some(gp);
    }
  }

  /** A red node over two links that are not red and carry black count `k`, recorded with black height `k`, is fine. */
  lemma RedOver(b: Arena, bh2: map<nat, nat>, n: nat, r: Rela, l1: NodeRef, l2: NodeRef, k: nat)
    requires n in b && n in bh2 && r != PARENT && b[n].color == RED && bh2[n] == k
    requires b[n].Next(r) == l1 && b[n].Next(r.Toggle()) == l2
    requires NotRed(b, l1) && NotRed(b, l2) && Bhc(b, bh2, l1) == k && Bhc(b, bh2, l2) == k
    ensures ColorOk(b, n) && RedOk(b, n) && BhOk(b, bh2, n)
  {
    if r == LEFT {
      assert b[n].left == l1 && b[n].right == l2;
    } else {
      assert b[n].right == l1 && b[n].left == l2;
    }
  }

  /** Inner case: `p` stays red over its outer child and the old inner child of `x`. */
  lemma InnerP(a: Arena, order: seq<nat>, info: map<nat, Info>, root: NodeRef, bh: map<nat, nat>, x: nat, p: nat, gp: nat, b: Arena)
    requires DoubleRed(a, order, info, root, bh, x) && Family(a, order, info, bh, x, p, gp)
    requires a[x].rela != a[p].rela && InnerSeen(a, b, x, p, gp)
    ensures p in b && ColorOk(b, p) && RedOk(b, p) && BhOk(b, bh[gp := bh[p]], p)
  {
    var bh2 := bh[gp := bh[p]];
    var pr := a[p].rela;
    var s := a[p].Next(pr);
    var g1 := a[x].Next(pr);
    assert a[x].rela.Toggle() == pr;
    FamilyCounts(a, order, info, root, bh, x, p, gp);
    if a[gp].parent.Some? { UncleOfGp(a, order, info, root, bh, x, p, gp); }
    if s.Some? { ChildOf(a, order, info, p, pr); }
    if g1.Some? { ChildOf(a, order, info, x, pr); }
    LinkShade(a, bh, b, bh2, s);
    LinkShade(a, bh, b, bh2, g1);
    assert Bhc(a, bh, s) == bh[p] && Bhc(a, bh, g1) == bh[p];
    RedOver(b, bh2, p, pr, s, g1, bh[p]);
  }

  /** Inner case: `gp`, now red, holds the outer child of `x` and the uncle. */
  lemma InnerGp(a: Arena, order: seq<nat>, info: map<nat, Info>, root: NodeRef, bh: map<nat, nat>, x: nat, p: nat, gp: nat, b: Arena)
    requires DoubleRed(a, order, info, root, bh, x) && Family(a, order, info, bh, x, p, gp)
    requires a[x].rela != a[p].rela && InnerSeen(a, b, x, p, gp)
    requires NotRed(a, a[gp].Next(a[p].rela.Toggle()))
    ensures gp in b && ColorOk(b, gp) && RedOk(b, gp) && BhOk(b, bh[gp := bh[p]], gp)
  {
    var bh2 := bh[gp := bh[p]];
    var pr := a[p].rela;
    var xo := a[x].Next(pr.Toggle());
    var u := a[gp].Next(pr.Toggle());
    FamilyCounts(a, order, info, root, bh, x, p, gp);
    if a[gp].parent.Some? { UncleOfGp(a, order, info, root, bh, x, p, gp); ParentOf(a, order, info, gp); }
    if xo.Some? { ChildOf(a, order, info, x, pr.Toggle()); }
    if u.Some? { ChildOf(a, order, info, gp, pr.Toggle()); }
    LinkShade(a, bh, b, bh2, xo);
    LinkShade(a, bh, b, bh2, u);
    assert Bhc(a, bh, xo) == bh[p] && Bhc(a, bh, u) == bh[p];
    RedOver(b, bh2, gp, pr, xo, u, bh[p]);
  }

  /** Inner case: the parent of `gp` now holds the black `x`, which carries the black count `gp` carried. */
  lemma InnerQ(a: Arena, order: seq<nat>, info: map<nat, Info>, root: NodeRef, bh: map<nat, nat>, x: nat, p: nat, gp: nat, b: Arena)
    requires DoubleRed(a, order, info, root, bh, x) && Family(a, order, info, bh, x, p, gp)
    requires InnerSeen(a, b, x, p, gp) && a[gp].parent.Some?
    ensures var q := a[gp].parent.value;
      q in b && q in bh[gp := bh[p]] && ColorOk(b, q) && RedOk(b, q) && BhOk(b, bh[gp := bh[p]], q)
  {
    var bh2 := bh[gp := bh[p]];
    UncleOfGp(a, order, info, root, bh, x, p, gp);
    SlotSwapped(a, order, info, root, bh, x, p, gp, x, b, bh2);
    assert RedOk(a, a[gp].parent.value);
  }

  /** Inner case: the nodes outside the family and the parent of `gp` keep their shades, and that parent its colour. */
  lemma InnerEdge(a: Arena, order: seq<nat>, info: map<nat, Info>, root: NodeRef, bh: map<nat, nat>, x: nat, p: nat, gp: nat, b: Arena)
    requires DoubleRed(a, order, info, root, bh, x) && Family(a, order, info, bh, x, p, gp)
    requires InnerSeen(a, b, x, p, gp)
    ensures forall i :: i in a && i !in WithParent(a, gp, {x, p, gp}) ==> ShadeSame(a, bh, b, bh[gp := bh[p]], i)
    ensures forall c :: c in WithParent(a, gp, {x, p, gp}) && c in a && a[c].parent.Some? && a[c].parent.value !in WithParent(a, gp, {x, p, gp}) ==>
      b[c].color == a[c].color && bh[gp := bh[p]][c] == bh[c]
  {
    if a[gp].parent.Some? {
      UncleOfGp(a, order, info, root, bh, x, p, gp);
    }
  }

  lemma InnerSeenRb(a: Arena, order: seq<nat>, info: map<nat, Info>, root: NodeRef, bh: map<nat, nat>, x: nat, p: nat, gp: nat,
                    b: Arena, root2: NodeRef)
    requires DoubleRed(a, order, info, root, bh, x) && Family(a, order, info, bh, x, p, gp)
    requires a[x].rela != a[p].rela && NotRed(a, a[gp].Next(a[p].rela.Toggle()))
    requires InnerSeen(a, b, x, p, gp)
    requires root2 == if a[gp].parent.None? then Some(x) else root
    ensures RedBlack(b, root2, bh[gp := bh[p]])
  {
    var bh2 := bh[gp := bh[p]];
    var t := WithParent(a, gp, {x, p, gp});
    InnerX(a, order, info, root, bh, x, p, gp, b);
    InnerP(a, order, info, root, bh, x, p, gp, b);
    InnerGp(a, order, info, root, bh, x, p, gp, b);
    if a[gp].parent.Some? {
      InnerQ(a, order, info, root, bh, x, p, gp, b);
    }
    InnerEdge(a, order, info, root, bh, x, p, gp, b);
    assert RootBlack(b, root2) by {
      if a[gp].parent.Some? && root.Some? {
        assert root.value != x && root.value != p && root.value != gp;
      }
    }
    RedBlackFrom(a, order, info, bh, b, bh2, root2, t);
  }

  /** Inner case, from the arena after the first rotation: the second rotation and the repainting of `x` give a red-black tree. */
  lemma InnerRb(a: Arena, order: seq<nat>, info: map<nat, Info>, root: NodeRef, bh: map<nat, nat>, x: nat, p: nat, gp: nat,
                b1: Arena, info1: map<nat, Info>, b2: Arena, b: Arena, root2: NodeRef)
    requires DoubleRed(a, order, info, root, bh, x) && Family(a, order, info, bh, x, p, gp)
    requires a[x].rela != a[p].rela && NotRed(a, a[gp].Next(a[p].rela.Toggle()))
    requires InnerFirst(a, b1, x, p, gp)
    requires Around(b1, order, info1, x, gp, a[x].Next(a[p].rela.Toggle()), a[gp].parent)
    requires Rotated(b1, b2, x, gp, a[x].Next(a[p].rela.Toggle()), a[gp].parent)
    requires OthersKept(b1, b2, x, gp, a[x].Next(a[p].rela.Toggle()), a[gp].parent)
    requires b2.Keys == b1.Keys && b == b2[x := b2[x].Paint(BLACK)]
    requires root2 == if a[gp].parent.None? then Some(x) else root
    ensures RedBlack(b, root2, bh[gp := bh[p]])
  {
    InnerSecondView(a, order, info, root, bh, x, p, gp, a[x].Next(a[p].rela.Toggle()), a[gp].parent, b1, info1, b2, b);
    InnerSeenRb(a, order, info, root, bh, x, p, gp, b, root2);
  }

  /**
   * The records after the recolouring case: `gp` painted `cg`, the red uncle
   * `u` and `p` painted black, every other record kept.
   */
  ghost predicate Recoloured(a: Arena, b: Arena, p: nat, gp: nat, u: nat, cg: Color) {
    && p in a && gp in a && u in a && b.Keys == a.Keys
    && b[gp] == a[gp].Paint(cg) && b[u] == a[u].Paint(BLACK) && b[p] == a[p].Paint(BLACK)
    && forall i :: i in a && i != gp && i != u && i != p ==> b[i] == a[i]
  }

  /** The red uncle: the other child of `gp`, distinct from the family and from the parent of `gp`. */
  ghost predicate RedUncle(a: Arena, p: nat, gp: nat, u: nat) {
    && p in a && gp in a && a[p].rela != PARENT
    && a[gp].Next(a[p].rela.Toggle()) == Some(u) && u in a && a[u].color == RED
  }

  lemma UncleFacts(a: Arena, order: seq<nat>, info: map<nat, Info>, root: NodeRef, bh: map<nat, nat>, x: nat, p: nat, gp: nat, u: nat)
    requires DoubleRed(a, order, info, root, bh, x) && Family(a, order, info, bh, x, p, gp) && RedUncle(a, p, gp, u)
    ensures u != x && u != p && u != gp && (a[gp].parent.Some? ==> u != a[gp].parent.value)
    ensures a[u].parent == Some(gp) && u in bh && bh[u] == bh[p]
  {
    ChildOf(a, order, info, gp, a[p].rela.Toggle());
    if a[gp].parent.Some? { ParentOf(a, order, info, gp); }
    assert BhOk(a, bh, gp);
  }

  /** The children of the uncle are outside the family. */
  lemma UncleChildren(a: Arena, order: seq<nat>, info: map<nat, Info>, root: NodeRef, bh: map<nat, nat>, x: nat, p: nat, gp: nat, u: nat)
    requires DoubleRed(a, order, info, root, bh, x) && Family(a, order, info, bh, x, p, gp) && RedUncle(a, p, gp, u)
    ensures a[u].left.Some? ==> a[u].left.value in a && a[u].left.value !in {x, p, gp, u}
    ensures a[u].right.Some? ==> a[u].right.value in a && a[u].right.value !in {x, p, gp, u}
  {
    UncleFacts(a, order, info, root, bh, x, p, gp, u);
    ChildOf(a, order, info, gp, a[p].rela.Toggle());
    if a[u].left.Some? { ChildOf(a, order, info, u, LEFT); }
    if a[u].right.Some? { ChildOf(a, order, info, u, RIGHT); }
  }

  /** A black node over two links of black count `k`, recorded with black height `k`, is fine. */
  lemma BlackOver(b: Arena, bh2: map<nat, nat>, n: nat, r: Rela, l1: NodeRef, l2: NodeRef, k: nat)
    requires n in b && n in bh2 && r != PARENT && b[n].color == BLACK && bh2[n] == k
    requires b[n].Next(r) == l1 && b[n].Next(r.Toggle()) == l2
    requires Bhc(b, bh2, l1) == k && Bhc(b, bh2, l2) == k
    ensures ColorOk(b, n) && RedOk(b, n) && BhOk(b, bh2, n)
  {
    if r == LEFT {
      assert b[n].left == l1 && b[n].right == l2;
    } else {
      assert b[n].right == l1 && b[n].left == l2;
    }
  }

  /** Recolouring: `p`, now black, keeps the red `x` and its other child, both of count `bh[p]`. */
  lemma RecolourP(a: Arena, order: seq<nat>, info: map<nat, Info>, root: NodeRef, bh: map<nat, nat>, x: nat, p: nat, gp: nat,
                  u: nat, cg: Color, b: Arena)
    requires DoubleRed(a, order, info, root, bh, x) && Family(a, order, info, bh, x, p, gp) && RedUncle(a, p, gp, u)
    requires Recoloured(a, b, p, gp, u, cg)
    ensures p in b && ColorOk(b, p) && RedOk(b, p) && BhOk(b, bh[gp := bh[p] + 1], p)
  {
    var bh1 := bh[gp := bh[p] + 1];
    var xr := a[x].rela;
    var s := a[p].Next(xr.Toggle());
    UncleFacts(a, order, info, root, bh, x, p, gp, u);
    FamilyCounts(a, order, info, root, bh, x, p, gp);
    if s.Some? {
      ChildOf(a, order, info, p, xr.Toggle());
      if a[gp].parent.Some? { ParentOf(a, order, info, gp); }
    }
    assert a[p].Next(xr) == Some(x);
    LinkShade(a, bh, b, bh1, Some(x));
    LinkShade(a, bh, b, bh1, s);
    assert Bhc(a, bh, s) == bh[p];
    BlackOver(b, bh1, p, xr, Some(x), s, bh[p]);
  }

  /** Recolouring: the uncle, now black, keeps its children. */
  lemma RecolourU(a: Arena, order: seq<nat>, info: map<nat, Info>, root: NodeRef, bh: map<nat, nat>, x: nat, p: nat, gp: nat,
                  u: nat, cg: Color, b: Arena)
    requires DoubleRed(a, order, info, root, bh, x) && Family(a, order, info, bh, x, p, gp) && RedUncle(a, p, gp, u)
    requires Recoloured(a, b, p, gp, u, cg)
    ensures u in b && ColorOk(b, u) && RedOk(b, u) && BhOk(b, bh[gp := bh[p] + 1], u)
  {
    var bh1 := bh[gp := bh[p] + 1];
    UncleFacts(a, order, info, root, bh, x, p, gp, u);
    UncleChildren(a, order, info, root, bh, x, p, gp, u);
    assert BhOk(a, bh, u);
    LinkShade(a, bh, b, bh1, a[u].left);
    LinkShade(a, bh, b, bh1, a[u].right);
    BlackOver(b, bh1, u, LEFT, a[u].left, a[u].right, bh[u]);
  }

  /** Recolouring: `gp`, painted red or black, has the black `p` and `u` below it, of count `bh[p] + 1`. */
  lemma RecolourGp(a: Arena, order: seq<nat>, info: map<nat, Info>, root: NodeRef, bh: map<nat, nat>, x: nat, p: nat, gp: nat,
                   u: nat, cg: Color, b: Arena)
    requires DoubleRed(a, order, info, root, bh, x) && Family(a, order, info, bh, x, p, gp) && RedUncle(a, p, gp, u)
    requires Recoloured(a, b, p, gp, u, cg) && (cg == RED || cg == BLACK)
    ensures gp in b && ColorOk(b, gp) && RedOk(b, gp) && BhOk(b, bh[gp := bh[p] + 1], gp)
  {
    var bh1 := bh[gp := bh[p] + 1];
    UncleFacts(a, order, info, root, bh, x, p, gp, u);
    var pr := a[p].rela;
    assert a[gp].Next(pr) == Some(p);
    assert Bhc(b, bh1, Some(p)) == bh[p] + 1 && Bhc(b, bh1, Some(u)) == bh[p] + 1;
    if cg == RED {
      RedOver(b, bh1, gp, pr, Some(p), Some(u), bh[p] + 1);
    } else {
      BlackOver(b, bh1, gp, pr, Some(p), Some(u), bh[p] + 1);
    }
  }

  /** Recolouring: the parent of `gp` still holds `gp`, now red with the black count it had. */
  lemma RecolourQ(a: Arena, order: seq<nat>, info: map<nat, Info>, root: NodeRef, bh: map<nat, nat>, x: nat, p: nat, gp: nat,
                  u: nat, b: Arena)
    requires DoubleRed(a, order, info, root, bh, x) && Family(a, order, info, bh, x, p, gp) && RedUncle(a, p, gp, u)
    requires Recoloured(a, b, p, gp, u, RED) && a[gp].parent.Some?
    ensures var q := a[gp].parent.value;
      q in b && ColorOk(b, q) && BhOk(b, bh[gp := bh[p] + 1], q) && (b[q].color != RED ==> RedOk(b, q))
  {
    var bh1 := bh[gp := bh[p] + 1];
    UncleFacts(a, order, info, root, bh, x, p, gp, u);
    UncleOfGp(a, order, info, root, bh, x, p, gp);
    ParentOf(a, order, info, gp);
    var w := a[a[gp].parent.value].Next(a[gp].rela.Toggle());
    if w.Some? {
      ChildOf(a, order, info, a[gp].parent.value, a[gp].rela.Toggle());
    }
    SlotSwapped(a, order, info, root, bh, x, p, gp, gp, b, bh1);
  }

  /** Recolouring: the nodes outside `gp`, `p`, `u` and the parent of `gp` keep their shades, and that parent its colour. */
  lemma RecolourEdge(a: Arena, order: seq<nat>, info: map<nat, Info>, root: NodeRef, bh: map<nat, nat>, x: nat, p: nat, gp: nat,
                     u: nat, cg: Color, b: Arena)
    requires DoubleRed(a, order, info, root, bh, x) && Family(a, order, info, bh, x, p, gp) && RedUncle(a, p, gp, u)
    requires Recoloured(a, b, p, gp, u, cg)
    ensures forall i :: i in a && i !in WithParent(a, gp, {gp, p, u}) ==> ShadeSame(a, bh, b, bh[gp := bh[p] + 1], i)
    ensures forall c :: c in WithParent(a, gp, {gp, p, u}) && c in a && a[c].parent.Some? && a[c].parent.value !in WithParent(a, gp, {gp, p, u}) ==>
      b[c].color == a[c].color && bh[gp := bh[p] + 1][c] == bh[c]
  {
    UncleFacts(a, order, info, root, bh, x, p, gp, u);
    if a[gp].parent.Some? {
      UncleOfGp(a, order, info, root, bh, x, p, gp);
    }
  }

  /**
   * Recolouring: the colour and black-height conditions of the rewritten
   * nodes; their red conditions too, except at the parent of `gp` when that
   * parent is red.
   */
  lemma RecolourInside(a: Arena, order: seq<nat>, info: map<nat, Info>, root: NodeRef, bh: map<nat, nat>, x: nat, p: nat, gp: nat,
                       u: nat, cg: Color, b: Arena)
    requires DoubleRed(a, order, info, root, bh, x) && Family(a, order, info, bh, x, p, gp) && RedUncle(a, p, gp, u)
    requires Recoloured(a, b, p, gp, u, cg) && (cg == RED || cg == BLACK) && (a[gp].parent.Some? ==> cg == RED)
    ensures forall i :: i in WithParent(a, gp, {gp, p, u}) ==>
      i in b && i in bh[gp := bh[p] + 1] && ColorOk(b, i) && BhOk(b, bh[gp := bh[p] + 1], i)
    ensures forall i :: i in {gp, p, u} ==> i in b && RedOk(b, i)
    ensures a[gp].parent.None? || a[a[gp].parent.value].color != RED ==>
      forall i :: i in WithParent(a, gp, {gp, p, u}) ==> i in b && RedOk(b, i)
  {
    var bh1 := bh[gp := bh[p] + 1];
    RecolourP(a, order, info, root, bh, x, p, gp, u, cg, b);
    RecolourU(a, order, info, root, bh, x, p, gp, u, cg, b);
    RecolourGp(a, order, info, root, bh, x, p, gp, u, cg, b);
    if a[gp].parent.Some? {
      RecolourQ(a, order, info, root, bh, x, p, gp, u, b);
      UncleFacts(a, order, info, root, bh, x, p, gp, u);
      UncleOfGp(a, order, info, root, bh, x, p, gp);
      assert b[a[gp].parent.value] == a[a[gp].parent.value];
    }
    var t := WithParent(a, gp, {gp, p, u});
    forall i | i in t
      ensures i in b && i in bh1 && ColorOk(b, i) && BhOk(b, bh1, i)
      ensures a[gp].parent.None? || a[a[gp].parent.value].color != RED ==> RedOk(b, i)
    {
      if i !in {gp, p, u} {
        assert i == a[gp].parent.value;
      }
    }
  }

  /** Recolouring at the root: with `gp` painted black again the tree is red-black, one black level higher. */
  lemma RecolourRootRb(a: Arena, order: seq<nat>, info: map<nat, Info>, root: NodeRef, bh: map<nat, nat>, x: nat, p: nat, gp: nat,
                       u: nat, b: Arena)
    requires DoubleRed(a, order, info, root, bh, x) && Family(a, order, info, bh, x, p, gp) && RedUncle(a, p, gp, u)
    requires Recoloured(a, b, p, gp, u, BLACK) && a[gp].parent.None?
    ensures RedBlack(b, root, bh[gp := bh[p] + 1])
  {
    var bh1 := bh[gp := bh[p] + 1];
    RecolourInside(a, order, info, root, bh, x, p, gp, u, BLACK, b);
    RecolourEdge(a, order, info, root, bh, x, p, gp, u, BLACK, b);
    assert root == Some(gp);
    RedBlackFrom(a, order, info, bh, b, bh1, root, WithParent(a, gp, {gp, p, u}));
  }

  /** Recolouring below a black node: the tree is red-black. */
  lemma RecolourBlackRb(a: Arena, order: seq<nat>, info: map<nat, Info>, root: NodeRef, bh: map<nat, nat>, x: nat, p: nat, gp: nat,
                        u: nat, b: Arena)
    requires DoubleRed(a, order, info, root, bh, x) && Family(a, order, info, bh, x, p, gp) && RedUncle(a, p, gp, u)
    requires Recoloured(a, b, p, gp, u, RED) && a[gp].parent.Some? && a[a[gp].parent.value].color != RED
    ensures RedBlack(b, root, bh[gp := bh[p] + 1])
  {
    var bh1 := bh[gp := bh[p] + 1];
    RecolourInside(a, order, info, root, bh, x, p, gp, u, RED, b);
    RecolourEdge(a, order, info, root, bh, x, p, gp, u, RED, b);
    RecolourRootBlack(a, order, info, root, bh, x, p, gp, u, b);
    RedBlackFrom(a, order, info, bh, b, bh1, root, WithParent(a, gp, {gp, p, u}));
  }

  /** Recolouring below a red node: the violation has moved up to `gp` and its parent. */
  lemma RecolourRedUp(a: Arena, order: seq<nat>, info: map<nat, Info>, root: NodeRef, bh: map<nat, nat>, x: nat, p: nat, gp: nat,
                      u: nat, b: Arena)
    requires DoubleRed(a, order, info, root, bh, x) && Family(a, order, info, bh, x, p, gp) && RedUncle(a, p, gp, u)
    requires Recoloured(a, b, p, gp, u, RED) && a[gp].parent.Some? && a[a[gp].parent.value].color == RED
    requires Linked(b, order, info) && RootOk(b, root, order, info)
    ensures DoubleRed(b, order, info, root, bh[gp := bh[p] + 1], gp)
  {
    RecolourUpShade(a, order, info, root, bh, x, p, gp, u, b);
    RecolourUpEdge(a, order, info, root, bh, x, p, gp, u, b);
    RecolourRootBlack(a, order, info, root, bh, x, p, gp, u, b);
  }

  /** Recolouring below a red node: every colour condition holds except the red condition at the parent of `gp`. */
  lemma RecolourUpShade(a: Arena, order: seq<nat>, info: map<nat, Info>, root: NodeRef, bh: map<nat, nat>, x: nat, p: nat, gp: nat,
                        u: nat, b: Arena)
    requires DoubleRed(a, order, info, root, bh, x) && Family(a, order, info, bh, x, p, gp) && RedUncle(a, p, gp, u)
    requires Recoloured(a, b, p, gp, u, RED) && a[gp].parent.Some?
    ensures AllColor(b) && AllBh(b, bh[gp := bh[p] + 1])
    ensures forall i {:trigger RedOk(b, i)} :: i in b && i != a[gp].parent.value ==> RedOk(b, i)
  {
    var bh1 := bh[gp := bh[p] + 1];
    var q := a[gp].parent.value;
    var t := WithParent(a, gp, {gp, p, u});
    RecolourInside(a, order, info, root, bh, x, p, gp, u, RED, b);
    RecolourUpFrame(a, order, info, root, bh, x, p, gp, u, b);
    forall i | i in b && i != q ensures RedOk(b, i) {
      if i !in {gp, p, u} {
        assert i !in t;
      }
    }
  }

  lemma RecolourUpFrame(a: Arena, order: seq<nat>, info: map<nat, Info>, root: NodeRef, bh: map<nat, nat>, x: nat, p: nat, gp: nat,
                        u: nat, b: Arena)
    requires DoubleRed(a, order, info, root, bh, x) && Family(a, order, info, bh, x, p, gp) && RedUncle(a, p, gp, u)
    requires Recoloured(a, b, p, gp, u, RED) && a[gp].parent.Some?
    ensures AllColor(b) && AllBh(b, bh[gp := bh[p] + 1])
    ensures forall i {:trigger RedOk(b, i)} :: i in b && i !in WithParent(a, gp, {gp, p, u}) ==> RedOk(b, i)
  {
    RecolourInside(a, order, info, root, bh, x, p, gp, u, RED, b);
    RecolourEdge(a, order, info, root, bh, x, p, gp, u, RED, b);
    ShadeFrom(a, order, info, bh, b, bh[gp := bh[p] + 1], WithParent(a, gp, {gp, p, u}));
  }

  /** Recolouring below a red node: the sibling of `gp` is not red, and the root is still black. */
  lemma RecolourUpEdge(a: Arena, order: seq<nat>, info: map<nat, Info>, root: NodeRef, bh: map<nat, nat>, x: nat, p: nat, gp: nat,
                       u: nat, b: Arena)
    requires DoubleRed(a, order, info, root, bh, x) && Family(a, order, info, bh, x, p, gp) && RedUncle(a, p, gp, u)
    requires Recoloured(a, b, p, gp, u, RED) && a[gp].parent.Some? && a[a[gp].parent.value].color == RED
    ensures b[a[gp].parent.value].color == RED
    ensures NotRed(b, b[a[gp].parent.value].Next(b[gp].rela.Toggle()))
  {
    var q := a[gp].parent.value;
    UncleFacts(a, order, info, root, bh, x, p, gp, u);
    UncleOfGp(a, order, info, root, bh, x, p, gp);
    assert RedOk(a, q);
    var w := a[q].Next(a[gp].rela.Toggle());
    if w.Some? {
      ChildOf(a, order, info, q, a[gp].rela.Toggle());
    }
  }

  /** Recolouring below the root: the root is none of the repainted nodes and stays black. */
  lemma RecolourRootBlack(a: Arena, order: seq<nat>, info: map<nat, Info>, root: NodeRef, bh: map<nat, nat>, x: nat, p: nat, gp: nat,
                          u: nat, b: Arena)
    requires DoubleRed(a, order, info, root, bh, x) && Family(a, order, info, bh, x, p, gp) && RedUncle(a, p, gp, u)
    requires Recoloured(a, b, p, gp, u, RED) && a[gp].parent.Some?
    ensures RootBlack(b, root)
  {
    UncleFacts(a, order, info, root, bh, x, p, gp, u);
    assert root.value != gp && root.value != p && root.value != u;
  }

  /**
   * `double_red_adjust` on the red node `x` whose parent is red. The
   * grandparent is painted red; a black or missing uncle is handled by
   * rotations, a red uncle by recolouring. The result is a red-black tree
   * over the same handles, the same keys and the same in-order sequence of
   * handles.
   */
  method DoubleRedAdjust(a: Arena, root: NodeRef, x: nat, ghost order: seq<nat>, ghost info: map<nat, Info>, ghost bh: map<nat, nat>)
    returns (b: Arena, root2: NodeRef, ghost info2: map<nat, Info>, ghost bh2: map<nat, nat>)
    requires DoubleRed(a, order, info, root, bh, x)
    ensures SameKeys(a, b)
    ensures Linked(b, order, info2) && RootOk(b, root2, order, info2) && RedBlack(b, root2, bh2)
    decreases |order| - Size(info, x), 1
  {
    var p := a[x].parent.value;
    FamilyOf(a, order, info, root, bh, x);
    var gp := a[p].parent.value;
    var uncle := a[gp].Next(a[p].rela.Toggle());
    if uncle.Some? {
      ChildOf(a, order, info, gp, a[p].rela.Toggle());
    }
    b := a[gp := a[gp].Paint(RED)];
    if uncle.None? || b[uncle.value].color == BLACK {
      assert NotRed(a, uncle);
      if a[x].rela != a[p].rela {
        b, root2, info2, bh2 := AdjustInner(a, b, root, x, p, gp, order, info, bh);
      } else {
        b, root2, info2, bh2 := AdjustOuter(a, b, root, x, p, gp, order, info, bh);
      }
    } else {
      assert uncle.value != gp && ColorOk(a, uncle.value);
      b, root2, info2, bh2 := AdjustRecolour(a, b, root, x, p, gp, uncle.value, order, info, bh);
    }
  }

  /**
   * Black or missing uncle, `x` on the inner side: `child_node.single_rotate()`,
   * the swap, then `parent_node.single_rotate()` on what is now `x`, which is
   * painted black.
   */
  method AdjustInner(a: Arena, b0: Arena, root: NodeRef, x: nat, p: nat, gp: nat,
                     ghost order: seq<nat>, ghost info: map<nat, Info>, ghost bh: map<nat, nat>)
    returns (b: Arena, root2: NodeRef, ghost info2: map<nat, Info>, ghost bh2: map<nat, nat>)
    requires DoubleRed(a, order, info, root, bh, x) && Family(a, order, info, bh, x, p, gp)
    requires a[x].rela != a[p].rela && NotRed(a, a[gp].Next(a[p].rela.Toggle()))
    requires b0 == a[gp := a[gp].Paint(RED)]
    ensures SameKeys(a, b)
    ensures Linked(b, order, info2) && RootOk(b, root2, order, info2) && RedBlack(b, root2, bh2)
  {
    ghost var q := a[gp].parent;
    ghost var pr := a[p].rela;
    ghost var info1 := RotatedInfo(info, x, p, pr.Toggle());
    var b1, r1 := InnerFirstStep(a, b0, root, x, p, gp, order, info, bh);
    var b2, r2 := SingleRotate(b1, r1, x, order, info1, gp, a[x].Next(pr.Toggle()), q);
    info2 := RotatedInfo(info1, x, gp, pr);
    PaintLinked(b2, order, info2, r2, x, BLACK);
    SameKeysTrans(a, b1, b2);
    b := b2[x := b2[x].Paint(BLACK)];
    SameKeysTrans(a, b2, b);
    root2 := r2;
    bh2 := bh[gp := bh[p]];
    InnerRb(a, order, info, root, bh, x, p, gp, b1, info1, b2, b, root2);
  }

  /** Inner case, first step: `child_node.single_rotate()` on the red `x`, after `gp` is painted red. */
  method InnerFirstStep(a: Arena, b0: Arena, root: NodeRef, x: nat, p: nat, gp: nat,
                        ghost order: seq<nat>, ghost info: map<nat, Info>, ghost bh: map<nat, nat>)
    returns (b1: Arena, r1: NodeRef)
    requires DoubleRed(a, order, info, root, bh, x) && Family(a, order, info, bh, x, p, gp)
    requires a[x].rela != a[p].rela
    requires b0 == a[gp := a[gp].Paint(RED)]
    ensures InnerFirst(a, b1, x, p, gp) && SameKeys(a, b1) && r1 == root
    ensures Linked(b1, order, RotatedInfo(info, x, p, a[p].rela.Toggle()))
    ensures RootOk(b1, r1, order, RotatedInfo(info, x, p, a[p].rela.Toggle()))
  {
    PaintLinked(a, order, info, root, gp, RED);
    b1, r1 := SingleRotate(b0, root, x, order, info, p, a[x].Next(a[p].rela), Some(gp));
    InnerFirstView(a, order, info, root, bh, x, p, gp, a[x].Next(a[p].rela), b0, b1);
    SameKeysTrans(a, b0, b1);
  }

  /** Black or missing uncle, `x` on the outer side: `parent_node.single_rotate()`, then `p` is painted black. */
  method AdjustOuter(a: Arena, b0: Arena, root: NodeRef, x: nat, p: nat, gp: nat,
                     ghost order: seq<nat>, ghost info: map<nat, Info>, ghost bh: map<nat, nat>)
    returns (b: Arena, root2: NodeRef, ghost info2: map<nat, Info>, ghost bh2: map<nat, nat>)
    requires DoubleRed(a, order, info, root, bh, x) && Family(a, order, info, bh, x, p, gp)
    requires a[x].rela == a[p].rela && NotRed(a, a[gp].Next(a[p].rela.Toggle()))
    requires b0 == a[gp := a[gp].Paint(RED)]
    ensures SameKeys(a, b)
    ensures Linked(b, order, info2) && RootOk(b, root2, order, info2) && RedBlack(b, root2, bh2)
  {
    PaintLinked(a, order, info, root, gp, RED);
    var b1, r1 := SingleRotate(b0, root, p, order, info, gp, a[p].Next(a[p].rela.Toggle()), a[gp].parent);
    info2 := RotatedInfo(info, p, gp, a[p].rela);
    PaintLinked(b1, order, info2, r1, p, BLACK);
    b := b1[p := b1[p].Paint(BLACK)];
    SameKeysTrans(a, b0, b1);
    SameKeysTrans(a, b1, b);
    root2 := r1;
    bh2 := bh[gp := bh[p]];
    OuterRb(a, order, info, root, bh, x, p, gp, a[p].Next(a[p].rela.Toggle()), a[gp].parent, b0, b1, b, root2);
  }

  /**
   * Red uncle: the uncle and `p` are painted black (`p` last in the source;
   * nothing in between reads or writes its colour). A grandparent at the root
   * is painted black again; below a red node the fix-up continues at the
   * grandparent; below a black node the tree is red-black.
   */
  method AdjustRecolour(a: Arena, b0: Arena, root: NodeRef, x: nat, p: nat, gp: nat, u: nat,
                        ghost order: seq<nat>, ghost info: map<nat, Info>, ghost bh: map<nat, nat>)
    returns (b: Arena, root2: NodeRef, ghost info2: map<nat, Info>, ghost bh2: map<nat, nat>)
    requires DoubleRed(a, order, info, root, bh, x) && Family(a, order, info, bh, x, p, gp) && RedUncle(a, p, gp, u)
    requires b0 == a[gp := a[gp].Paint(RED)]
    ensures SameKeys(a, b)
    ensures Linked(b, order, info2) && RootOk(b, root2, order, info2) && RedBlack(b, root2, bh2)
    decreases |order| - Size(info, x), 0
  {
    b := RecolourStep(a, b0, root, x, p, gp, u, order, info, bh);
    ghost var bh1 := bh[gp := bh[p] + 1];
    var nextParent := b[gp].parent;
    if nextParent.None? {
      ghost var mid := b;
      PaintLinked(b, order, info, root, gp, BLACK);
      b := b[gp := b[gp].Paint(BLACK)];
      SameKeysTrans(a, mid, b);
      assert Recoloured(a, b, p, gp, u, BLACK);
      RecolourRootRb(a, order, info, root, bh, x, p, gp, u, b);
      root2, info2, bh2 := root, info, bh1;
    } else if b[nextParent.value].color == RED {
      RecolourRedUp(a, order, info, root, bh, x, p, gp, u, b);
      ghost var mid := b;
      b, root2, info2, bh2 := DoubleRedAdjust(b, root, gp, order, info, bh1);
      SameKeysTrans(a, mid, b);
    } else {
      RecolourBlackRb(a, order, info, root, bh, x, p, gp, u, b);
      root2, info2, bh2 := root, info, bh1;
    }
  }

  /** Red uncle, first step: after `gp` is painted red, the uncle and `p` are painted black. */
  method RecolourStep(a: Arena, b0: Arena, root: NodeRef, x: nat, p: nat, gp: nat, u: nat,
                      ghost order: seq<nat>, ghost info: map<nat, Info>, ghost bh: map<nat, nat>)
    returns (b: Arena)
    requires DoubleRed(a, order, info, root, bh, x) && Family(a, order, info, bh, x, p, gp) && RedUncle(a, p, gp, u)
    requires b0 == a[gp := a[gp].Paint(RED)]
    ensures Recoloured(a, b, p, gp, u, RED) && SameKeys(a, b)
    ensures Linked(b, order, info) && RootOk(b, root, order, info)
    ensures b[gp].parent == a[gp].parent
    ensures a[gp].parent.Some? ==> a[gp].parent.value in a && b[a[gp].parent.value] == a[a[gp].parent.value]
  {
    UncleFacts(a, order, info, root, bh, x, p, gp, u);
    if a[gp].parent.Some? {
      UncleOfGp(a, order, info, root, bh, x, p, gp);
    }
    var b1 := b0[u := b0[u].Paint(BLACK)];
    b := b1[p := b1[p].Paint(BLACK)];
    assert Recoloured(a, b, p, gp, u, RED);
    RecolouredRepainted(a, b, p, gp, u, RED);
    RepaintedLinked(a, order, info, root, b);
  }

  lemma RecolouredRepainted(a: Arena, b: Arena, p: nat, gp: nat, u: nat, cg: Color)
    requires Recoloured(a, b, p, gp, u, cg)
    ensures Repainted(a, b)
  {
  }
}
