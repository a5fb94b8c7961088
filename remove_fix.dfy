/**
 * `raw_remove`, second half: a black leaf below `x` on side `r` has been
 * freed, so `x` is one black node short on that side and has black height 1.
 * The source repairs the tree inline, by the colour of the brother and by
 * which nephews exist. Each case is modelled by the rotations and repaints
 * that leave the same links and colours as the source's writes; where a case
 * coincides with a step of `rasie`, that step is reused.
 */
module RemoveFix {
  import opened Wrappers
  import opened Flag
  import opened Node
  import opened Frame
  import opened Rotation
  import opened RedFix
  import opened Removal
  import opened Rebalance
  import opened Contents

  /** `Region` for `x`, its child `s`, two children `i` and `o` of `s`, and the parent of `x`. */
  lemma RegionQuad(a: Arena, b: Arena, bh: map<nat, nat>, bh2: map<nat, nat>, x: nat, s: nat, i: nat, o: nat, ex: NodeRef)
    requires x in a && s in a && i in a && o in a && a[s].parent == Some(x) && a[i].parent == Some(s) && a[o].parent == Some(s)
    requires NodeOk(b, bh2, x, ex) && NodeOk(b, bh2, s, ex) && NodeOk(b, bh2, i, ex) && NodeOk(b, bh2, o, ex)
    requires a[x].parent.Some? ==> var q := a[x].parent.value;
      q in a && q in bh && NodeOk(b, bh2, q, ex) && b[q].color == a[q].color && bh2[q] == bh[q]
    ensures Region(a, b, bh, bh2, {x, s, i, o} + Up(a[x].parent), x, ex)
  {
  }

  /**
   * Below a black brother `s` of a node `x` of black height 1, every child of
   * `s` is missing or a red node.
   */
  lemma NephewsOf(a: Arena, order: seq<nat>, info: map<nat, Info>, root: NodeRef, bh: map<nat, nat>, x: nat, r: Rela, s: nat)
    requires Short(a, order, info, root, bh, x, r) && Sib(a, order, info, bh, x, r, s) && a[s].color != RED && bh[x] == 1
    ensures a[s].Next(r).Some? ==> a[s].Next(r).value in a && a[a[s].Next(r).value].color == RED
    ensures a[s].Next(r.Toggle()).Some? ==> a[s].Next(r.Toggle()).value in a && a[a[s].Next(r.Toggle()).value].color == RED
    ensures NotRed(a, a[s].Next(r)) <==> a[s].Next(r).None?
  {
    if a[s].Next(r).Some? { ChildOf(a, order, info, s, r); }
    if a[s].Next(r.Toggle()).Some? { ChildOf(a, order, info, s, r.Toggle()); }
    if r == LEFT {
      assert a[s].left == a[s].Next(r) && a[s].right == a[s].Next(r.Toggle());
    } else {
      assert a[s].right == a[s].Next(r) && a[s].left == a[s].Next(r.Toggle());
    }
  }

  // ---------------------------------------------------------------------
  // A black brother rotated over a red `x`, with no repaint.
  // ---------------------------------------------------------------------

  /** The records after the black brother `s` rotates over `x`: nothing is repainted. */
  ghost predicate TurnSeen(a: Arena, b: Arena, x: nat, r: Rela, s: nat) {
    && x in a && s in a && r != PARENT && b.Keys == a.Keys
    && var t := r.Toggle();
    && var q := a[x].parent;
    && b[s].color == a[s].color && b[s].Next(r) == Some(x) && b[s].Next(t) == a[s].Next(t)
    && b[x].color == a[x].color && b[x].Next(r) == a[x].Next(r) && b[x].Next(t) == a[s].Next(r)
    && (q.Some? ==> (q.value in a && a[x].rela != PARENT && b[q.value].color == a[q.value].color
                     && b[q.value].Next(a[x].rela) == Some(s) && b[q.value].Next(a[x].rela.Toggle()) == a[q.value].Next(a[x].rela.Toggle())))
    && KeptOutside(a, b, {x, s} + Up(q))
  }

  lemma TurnView(a: Arena, x: nat, r: Rela, s: nat, b: Arena)
    requires x in a && s in a && x != s && r != PARENT && a[x].Next(r.Toggle()) == Some(s) && a[s].rela == r.Toggle()
    requires a[s].Next(r).Some? ==> a[s].Next(r).value in a
    requires a[x].parent.Some? ==> a[x].parent.value in a && a[x].parent.value != x && a[x].parent.value != s && a[x].rela != PARENT
    requires b.Keys == a.Keys && Rotated(a, b, s, x, a[s].Next(r), a[x].parent) && OthersKept(a, b, s, x, a[s].Next(r), a[x].parent)
    ensures TurnSeen(a, b, x, r, s)
  {
    RotatedKept(a, b, s, x, a[s].Next(r), a[x].parent);
  }

  /** Turn: the red `x` holds the short link and the inner nephew, neither red and both one level below `x`'s old height. */
  lemma TurnX(a: Arena, order: seq<nat>, info: map<nat, Info>, root: NodeRef, bh: map<nat, nat>, x: nat, r: Rela, s: nat, b: Arena)
    requires Short(a, order, info, root, bh, x, r) && Sib(a, order, info, bh, x, r, s) && Kin(a, order, info, x, r, s)
    requires a[s].color != RED && a[x].color == RED && NotRed(a, a[s].Next(r)) && TurnSeen(a, b, x, r, s)
    ensures NodeOk(b, bh[x := bh[x] - 1], x, None)
  {
    var bh2 := bh[x := bh[x] - 1];
    var w := a[x].Next(r);
    var i := a[s].Next(r);
    LinkShade(a, bh, b, bh2, w);
    LinkShade(a, bh, b, bh2, i);
    assert Bhc(a, bh, i) == bh[s] by {
      if r == LEFT { assert a[s].left == i; } else { assert a[s].right == i; }
    }
    RedOver(b, bh2, x, r, w, i, bh[x] - 1);
  }

  /** Turn: the black `s` holds the red `x` and its own outer child. */
  lemma TurnS(a: Arena, order: seq<nat>, info: map<nat, Info>, root: NodeRef, bh: map<nat, nat>, x: nat, r: Rela, s: nat, b: Arena)
    requires Short(a, order, info, root, bh, x, r) && Sib(a, order, info, bh, x, r, s) && Kin(a, order, info, x, r, s)
    requires a[s].color != RED && a[x].color == RED && TurnSeen(a, b, x, r, s)
    ensures NodeOk(b, bh[x := bh[x] - 1], s, None)
  {
    var bh2 := bh[x := bh[x] - 1];
    var o := a[s].Next(r.Toggle());
    LinkShade(a, bh, b, bh2, o);
    assert Bhc(a, bh, o) == bh[s] by {
      if r == LEFT { assert a[s].right == o; } else { assert a[s].left == o; }
    }
    assert Bhc(b, bh2, Some(x)) == bh[s];
    BlackOver(b, bh2, s, r, Some(x), o, bh[s]);
  }

  /** Turn: the parent of `x` now holds the black `s`, which carries the black count the red `x` carried. */
  lemma TurnQ(a: Arena, order: seq<nat>, info: map<nat, Info>, root: NodeRef, bh: map<nat, nat>, x: nat, r: Rela, s: nat, b: Arena)
    requires Short(a, order, info, root, bh, x, r) && Sib(a, order, info, bh, x, r, s) && Kin(a, order, info, x, r, s)
    requires a[s].color != RED && a[x].color == RED && TurnSeen(a, b, x, r, s) && a[x].parent.Some?
    ensures var q := a[x].parent.value; NodeOk(b, bh[x := bh[x] - 1], q, None)
  {
    var bh2 := bh[x := bh[x] - 1];
    assert Bhc(b, bh2, Some(s)) == Bhc(a, bh, Some(x));
    TopSwapped(a, order, info, root, bh, x, r, s, b, bh2, s);
  }

  lemma TurnShade(a: Arena, order: seq<nat>, info: map<nat, Info>, root: NodeRef, bh: map<nat, nat>, x: nat, r: Rela, s: nat,
                  b: Arena, root2: NodeRef)
    requires Short(a, order, info, root, bh, x, r) && Sib(a, order, info, bh, x, r, s) && Kin(a, order, info, x, r, s)
    requires a[s].color != RED && a[x].color == RED && NotRed(a, a[s].Next(r)) && TurnSeen(a, b, x, r, s)
    requires root2 == if a[x].parent.None? then Some(s) else root
    ensures RedBlack(b, root2, bh[x := bh[x] - 1])
  {
    var T := {x, s} + Up(a[x].parent);
    var bh2 := bh[x := bh[x] - 1];
    TurnX(a, order, info, root, bh, x, r, s, b);
    TurnS(a, order, info, root, bh, x, r, s, b);
    if a[x].parent.Some? {
      TurnQ(a, order, info, root, bh, x, r, s, b);
    }
    RegionPair(a, b, bh, bh2, x, s, None);
    SettleRb(a, order, info, root, bh, x, r, b, bh2, T, s, root2);
  }

  /**
   * A red `x` short on side `r` whose black brother `s` has no red inner
   * child: `s` rotates over `x` and nothing is repainted. The tree is
   * red-black again, and `x` drops one black level.
   */
  method Turn(a: Arena, root: NodeRef, x: nat, r: Rela, ghost order: seq<nat>, ghost info: map<nat, Info>, ghost bh: map<nat, nat>)
    returns (b: Arena, root2: NodeRef, ghost info2: map<nat, Info>)
    requires Short(a, order, info, root, bh, x, r) && a[x].color == RED
    requires a[x].Next(r.Toggle()).Some? && a[x].Next(r.Toggle()).value in a
    requires var s := a[x].Next(r.Toggle()).value; a[s].color != RED && NotRed(a, a[s].Next(r))
    ensures SameKeys(a, b) && Linked(b, order, info2) && RootOk(b, root2, order, info2)
    ensures RedBlack(b, root2, bh[x := bh[x] - 1])
  {
    var s := a[x].Next(r.Toggle()).value;
    SibOf(a, order, info, root, bh, x, r);
    KinOf(a, order, info, root, bh, x, r, s);
    b, root2 := SingleRotate(a, root, s, order, info, x, a[s].Next(r), a[x].parent);
    info2 := RotatedInfo(info, s, x, r.Toggle());
    TurnView(a, x, r, s, b);
    TurnShade(a, order, info, root, bh, x, r, s, b, root2);
  }

  // ---------------------------------------------------------------------
  // A black brother with a red outer child only.
  // ---------------------------------------------------------------------

  /** The black heights after the outer-only case: `x` drops one level, `s` carries what `x` carried below it. */
  ghost function OuterHeights(bh: map<nat, nat>, x: nat, s: nat, cx: Color): map<nat, nat>
    requires x in bh && bh[x] >= 1
  {
    bh[x := bh[x] - 1][s := if cx == RED then bh[x] - 1 else bh[x]]
  }

  /**
   * The records after the outer-only case: the black `s` sits over `x` and
   * the outer nephew `o`, which takes the colour of `x`; `x` keeps its colour
   * and holds the short link and the inner nephew.
   */
  ghost predicate OuterOnlySeen(a: Arena, b: Arena, x: nat, r: Rela, s: nat, o: nat) {
    && x in a && s in a && o in a && r != PARENT && b.Keys == a.Keys
    && var t := r.Toggle();
    && var q := a[x].parent;
    && b[s].color == a[s].color && b[s].Next(r) == Some(x) && b[s].Next(t) == Some(o)
    && b[x].color == a[x].color && b[x].Next(r) == a[x].Next(r) && b[x].Next(t) == a[s].Next(r)
    && b[o].color == a[x].color && b[o].left == a[o].left && b[o].right == a[o].right
    && (q.Some? ==> (q.value in a && a[x].rela != PARENT && b[q.value].color == a[q.value].color
                     && b[q.value].Next(a[x].rela) == Some(s) && b[q.value].Next(a[x].rela.Toggle()) == a[q.value].Next(a[x].rela.Toggle())))
    && KeptOutside(a, b, {x, s, o} + Up(q))
  }

  lemma OuterOnlyView(a: Arena, x: nat, r: Rela, s: nat, o: nat, cx: Color, b1: Arena, b: Arena)
    requires x in a && s in a && o in a && x != s && o != x && o != s && r != PARENT && cx == a[x].color
    requires a[x].Next(r.Toggle()) == Some(s) && a[s].rela == r.Toggle() && a[s].Next(r.Toggle()) == Some(o)
    requires a[s].Next(r).Some? ==> a[s].Next(r).value in a && a[s].Next(r).value != o
    requires a[x].parent.Some? ==> var q := a[x].parent.value;
      q in a && q != x && q != s && q != o && a[x].rela != PARENT
    requires b1.Keys == a.Keys && Rotated(a, b1, s, x, a[s].Next(r), a[x].parent) && OthersKept(a, b1, s, x, a[s].Next(r), a[x].parent)
    requires b == Repaint(b1, o, cx)
    ensures OuterOnlySeen(a, b, x, r, s, o)
  {
    var q := a[x].parent;
    RotatedKept(a, b1, s, x, a[s].Next(r), q);
    PaintKept(b1, o, cx);
    KeptTrans(a, b1, b, {s, x} + Up(q), {o}, {x, s, o} + Up(q));
  }

  /** Outer only: `o`, of the colour `x` had, keeps its children and its black height. */
  lemma OuterOnlyO(a: Arena, order: seq<nat>, info: map<nat, Info>, root: NodeRef, bh: map<nat, nat>, x: nat, r: Rela, s: nat, o: nat, b: Arena)
    requires Short(a, order, info, root, bh, x, r) && Sib(a, order, info, bh, x, r, s) && Kin(a, order, info, x, r, s)
    requires a[s].color != RED && a[s].Next(r.Toggle()) == Some(o) && a[o].color == RED && OuterOnlySeen(a, b, x, r, s, o)
    ensures NodeOk(b, OuterHeights(bh, x, s, a[x].color), o, None)
  {
    var bh2 := OuterHeights(bh, x, s, a[x].color);
    var l := a[o].left;
    var rr := a[o].right;
    if l.Some? { NephewKid(a, order, info, root, bh, x, r, s, o, LEFT); }
    if rr.Some? { NephewKid(a, order, info, root, bh, x, r, s, o, RIGHT); }
    assert BhOk(a, bh, o) && RedOk(a, o) && ColorOk(a, x);
    LinkShade(a, bh, b, bh2, l);
    LinkShade(a, bh, b, bh2, rr);
  }

  /** Outer only: `x` keeps its colour and holds the short link and the inner nephew, neither red. */
  lemma OuterOnlyX(a: Arena, order: seq<nat>, info: map<nat, Info>, root: NodeRef, bh: map<nat, nat>, x: nat, r: Rela, s: nat, o: nat, b: Arena)
    requires Short(a, order, info, root, bh, x, r) && Sib(a, order, info, bh, x, r, s) && Kin(a, order, info, x, r, s)
    requires a[s].color != RED && a[s].Next(r.Toggle()) == Some(o) && NotRed(a, a[s].Next(r)) && OuterOnlySeen(a, b, x, r, s, o)
    ensures NodeOk(b, OuterHeights(bh, x, s, a[x].color), x, None)
  {
    var bh2 := OuterHeights(bh, x, s, a[x].color);
    var w := a[x].Next(r);
    var i := a[s].Next(r);
    LinkShade(a, bh, b, bh2, w);
    LinkShade(a, bh, b, bh2, i);
    assert Bhc(a, bh, i) == bh[s] by {
      if r == LEFT { assert a[s].left == i; } else { assert a[s].right == i; }
    }
    assert ColorOk(a, x);
    if r == LEFT { assert b[x].left == w && b[x].right == i; } else { assert b[x].right == w && b[x].left == i; }
  }

  /** Outer only: the black `s` holds `x` and `o`, both of the colour `x` had and one level below its old height. */
  lemma OuterOnlyS(a: Arena, order: seq<nat>, info: map<nat, Info>, root: NodeRef, bh: map<nat, nat>, x: nat, r: Rela, s: nat, o: nat, b: Arena)
    requires Short(a, order, info, root, bh, x, r) && Sib(a, order, info, bh, x, r, s) && Kin(a, order, info, x, r, s)
    requires a[s].color != RED && a[s].Next(r.Toggle()) == Some(o) && a[o].color == RED && OuterOnlySeen(a, b, x, r, s, o)
    ensures NodeOk(b, OuterHeights(bh, x, s, a[x].color), s, None)
  {
    var bh2 := OuterHeights(bh, x, s, a[x].color);
    assert Bhc(a, bh, Some(o)) == bh[s] by {
      if r == LEFT { assert a[s].right == Some(o); } else { assert a[s].left == Some(o); }
    }
    assert Bhc(b, bh2, Some(x)) == bh2[s] && Bhc(b, bh2, Some(o)) == bh2[s];
    BlackOver(b, bh2, s, r, Some(x), Some(o), bh2[s]);
  }

  /** Outer only: the parent of `x` now holds the black `s`, which carries the black count `x` carried. */
  lemma OuterOnlyQ(a: Arena, order: seq<nat>, info: map<nat, Info>, root: NodeRef, bh: map<nat, nat>, x: nat, r: Rela, s: nat, o: nat, b: Arena)
    requires Short(a, order, info, root, bh, x, r) && Sib(a, order, info, bh, x, r, s) && Kin(a, order, info, x, r, s)
    requires a[s].color != RED && a[s].Next(r.Toggle()) == Some(o) && OuterOnlySeen(a, b, x, r, s, o) && a[x].parent.Some?
    ensures var q := a[x].parent.value; NodeOk(b, OuterHeights(bh, x, s, a[x].color), q, None)
  {
    var bh2 := OuterHeights(bh, x, s, a[x].color);
    assert Bhc(b, bh2, Some(s)) == Bhc(a, bh, Some(x));
    TopSwapped(a, order, info, root, bh, x, r, s, b, bh2, s);
  }

  lemma OuterOnlyShade(a: Arena, order: seq<nat>, info: map<nat, Info>, root: NodeRef, bh: map<nat, nat>, x: nat, r: Rela, s: nat, o: nat,
                       b: Arena, root2: NodeRef)
    requires Short(a, order, info, root, bh, x, r) && Sib(a, order, info, bh, x, r, s) && Kin(a, order, info, x, r, s)
    requires a[s].color != RED && a[s].Next(r.Toggle()) == Some(o) && a[o].color == RED && NotRed(a, a[s].Next(r))
    requires OuterOnlySeen(a, b, x, r, s, o)
    requires root2 == if a[x].parent.None? then Some(s) else root
    ensures RedBlack(b, root2, OuterHeights(bh, x, s, a[x].color))
  {
    var T := {x, s, o} + Up(a[x].parent);
    var bh2 := OuterHeights(bh, x, s, a[x].color);
    OuterOnlyRegion(a, order, info, root, bh, x, r, s, o, b);
    assert bh2.Keys == a.Keys && forall i :: i in a && i !in T ==> bh2[i] == bh[i];
    SettleRb(a, order, info, root, bh, x, r, b, bh2, T, s, root2);
  }

  /** The nodes the outer case rewrites, and the parent of `x`, meet the colour conditions with the new heights. */
  lemma OuterOnlyRegion(a: Arena, order: seq<nat>, info: map<nat, Info>, root: NodeRef, bh: map<nat, nat>, x: nat, r: Rela, s: nat, o: nat,
                        b: Arena)
    requires Short(a, order, info, root, bh, x, r) && Sib(a, order, info, bh, x, r, s) && Kin(a, order, info, x, r, s)
    requires a[s].color != RED && a[s].Next(r.Toggle()) == Some(o) && a[o].color == RED && NotRed(a, a[s].Next(r))
    requires OuterOnlySeen(a, b, x, r, s, o)
    ensures Region(a, b, bh, OuterHeights(bh, x, s, a[x].color), {x, s, o} + Up(a[x].parent), x, None)
  {
    var bh2 := OuterHeights(bh, x, s, a[x].color);
    OuterOnlyO(a, order, info, root, bh, x, r, s, o, b);
    OuterOnlyX(a, order, info, root, bh, x, r, s, o, b);
    OuterOnlyS(a, order, info, root, bh, x, r, s, o, b);
    if a[x].parent.Some? {
      OuterOnlyQ(a, order, info, root, bh, x, r, s, o, b);
    }
    RegionTriple(a, b, bh, bh2, x, s, o, None);
  }

  /**
   * The removal case of a black brother `s` with a red outer child `o` and
   * no red inner child: `s` rotates over `x` and stays black, `o` takes the
   * colour of `x`, and `x` keeps its own. The tree is red-black again.
   */
  method OuterOnly(a: Arena, root: NodeRef, x: nat, r: Rela, ghost order: seq<nat>, ghost info: map<nat, Info>, ghost bh: map<nat, nat>)
    returns (b: Arena, root2: NodeRef, ghost info2: map<nat, Info>)
    requires Short(a, order, info, root, bh, x, r)
    requires a[x].Next(r.Toggle()).Some? && a[x].Next(r.Toggle()).value in a
    requires var s := a[x].Next(r.Toggle()).value; var o := a[s].Next(r.Toggle());
      a[s].color != RED && NotRed(a, a[s].Next(r)) && o.Some? && o.value in a && a[o.value].color == RED
    ensures SameKeys(a, b) && Linked(b, order, info2) && RootOk(b, root2, order, info2)
    ensures RedBlack(b, root2, OuterHeights(bh, x, a[x].Next(r.Toggle()).value, a[x].color))
  {
    var s := a[x].Next(r.Toggle()).value;
    var o := a[s].Next(r.Toggle()).value;
    SibOf(a, order, info, root, bh, x, r);
    KinOf(a, order, info, root, bh, x, r, s);
    var cx := a[x].color;
    var b1, r1 := SingleRotate(a, root, s, order, info, x, a[s].Next(r), a[x].parent);
    info2 := RotatedInfo(info, s, x, r.Toggle());
    PaintLinked(b1, order, info2, r1, o, cx);
    b := Repaint(b1, o, cx);
    root2 := r1;
    SameKeysTrans(a, b1, b);
    OuterOnlyView(a, x, r, s, o, cx, b1, b);
    OuterOnlyShade(a, order, info, root, bh, x, r, s, o, b, root2);
  }

  // ---------------------------------------------------------------------
  // A black brother with two red children.
  // ---------------------------------------------------------------------

  /** The handles the two rotations of the two-nephew case touch are distinct where they must be. */
  ghost predicate BothApart(a: Arena, x: nat, r: Rela, s: nat, i: nat, o: nat) {
    && x in a && s in a && i in a && o in a && r != PARENT
    && var t := r.Toggle();
    && var ir := a[i].Next(r);
    && var q := a[x].parent;
    && x != s && x != i && s != i && o != x && o != s && o != i
    && a[x].Next(t) == Some(s) && a[s].Next(r) == Some(i) && a[s].Next(t) == Some(o) && a[s].rela == t && a[i].rela == r
    && a[s].parent == Some(x) && a[i].parent == Some(s) && a[o].parent == Some(s)
    && (ir.Some? ==> ir.value in a && ir.value != x && ir.value != s && ir.value != i && ir.value != o)
    && (q.Some? ==> (q.value in a && q.value != x && q.value != s && q.value != i && q.value != o && a[x].rela != PARENT
                     && (ir.Some? ==> ir.value != q.value)))
  }

  lemma BothApartOf(a: Arena, order: seq<nat>, info: map<nat, Info>, root: NodeRef, bh: map<nat, nat>, x: nat, r: Rela, s: nat, i: nat, o: nat)
    requires Short(a, order, info, root, bh, x, r) && Sib(a, order, info, bh, x, r, s) && Kin(a, order, info, x, r, s)
    requires a[s].Next(r) == Some(i) && a[s].Next(r.Toggle()) == Some(o)
    ensures BothApart(a, x, r, s, i, o)
  {
    if a[i].Next(r).Some? { NephewKid(a, order, info, root, bh, x, r, s, i, r); }
  }

  /** The records after the first rotation of the two-nephew case: `s` over `x`, which now holds `i`. */
  ghost predicate BothFirstSeen(a: Arena, b1: Arena, x: nat, r: Rela, s: nat, i: nat, o: nat) {
    && x in a && s in a && i in a && o in a && r != PARENT && b1.Keys == a.Keys
    && var t := r.Toggle();
    && var q := a[x].parent;
    && b1[s].color == a[s].color && b1[s].Next(r) == Some(x) && b1[s].Next(t) == Some(o)
    && b1[x].color == a[x].color && b1[x].Next(r) == a[x].Next(r) && b1[x].Next(t) == Some(i)
    && b1[x].parent == Some(s) && b1[x].rela == r
    && b1[i] == a[i].SetParent(Some(x), t)
    && (q.Some? ==> (q.value in a && a[x].rela != PARENT && b1[q.value].color == a[q.value].color
                     && b1[q.value].Next(a[x].rela) == Some(s) && b1[q.value].Next(a[x].rela.Toggle()) == a[q.value].Next(a[x].rela.Toggle())))
    && KeptOutside(a, b1, {x, s} + Up(q))
  }

  lemma BothFirstView(a: Arena, x: nat, r: Rela, s: nat, i: nat, o: nat, b1: Arena)
    requires BothApart(a, x, r, s, i, o)
    requires b1.Keys == a.Keys && Rotated(a, b1, s, x, Some(i), a[x].parent) && OthersKept(a, b1, s, x, Some(i), a[x].parent)
    ensures BothFirstSeen(a, b1, x, r, s, i, o)
  {
    ToggleInvolution(r, RED);
    RotatedKept(a, b1, s, x, Some(i), a[x].parent);
  }

  /** The first rotation of the two-nephew case: `s` over `x`. */
  method BothFirst(a: Arena, root: NodeRef, x: nat, r: Rela, s: nat, i: nat, o: nat, ghost order: seq<nat>, ghost info: map<nat, Info>)
    returns (b1: Arena, root1: NodeRef, ghost info1: map<nat, Info>)
    requires Linked(a, order, info) && RootOk(a, root, order, info) && BothApart(a, x, r, s, i, o)
    ensures SameKeys(a, b1) && Linked(b1, order, info1) && RootOk(b1, root1, order, info1) && BothFirstSeen(a, b1, x, r, s, i, o)
    ensures root1 == if a[x].parent.None? then Some(s) else root
  {
    ToggleInvolution(r, RED);
    b1, root1 := SingleRotate(a, root, s, order, info, x, Some(i), a[x].parent);
    info1 := RotatedInfo(info, s, x, r.Toggle());
    BothFirstView(a, x, r, s, i, o, b1);
  }

  /**
   * The records after the two-nephew case: `s`, of the colour `x` had, sits
   * over the black `i` and `o`; `i` holds the red `x` and its own outer
   * child; `x` holds the short link and the inner child of `i`.
   */
  ghost predicate BothSeen(a: Arena, b: Arena, x: nat, r: Rela, s: nat, i: nat, o: nat) {
    && x in a && s in a && i in a && o in a && r != PARENT && b.Keys == a.Keys
    && var t := r.Toggle();
    && var q := a[x].parent;
    && b[s].color == a[x].color && b[s].Next(r) == Some(i) && b[s].Next(t) == Some(o)
    && b[i].color == BLACK && b[i].Next(r) == Some(x) && b[i].Next(t) == a[i].Next(t)
    && b[x].color == RED && b[x].Next(r) == a[x].Next(r) && b[x].Next(t) == a[i].Next(r)
    && b[o].color == BLACK && b[o].left == a[o].left && b[o].right == a[o].right
    && (q.Some? ==> (q.value in a && a[x].rela != PARENT && b[q.value].color == a[q.value].color
                     && b[q.value].Next(a[x].rela) == Some(s) && b[q.value].Next(a[x].rela.Toggle()) == a[q.value].Next(a[x].rela.Toggle())))
    && KeptOutside(a, b, {x, s, i, o} + Up(q))
  }

  /** The records after the second rotation of the two-nephew case, before the repaints: `i` over `x`. */
  ghost predicate BothTurnSeen(a: Arena, b2: Arena, x: nat, r: Rela, s: nat, i: nat, o: nat) {
    && x in a && s in a && i in a && o in a && r != PARENT && b2.Keys == a.Keys
    && var t := r.Toggle();
    && var q := a[x].parent;
    && b2[s].Next(r) == Some(i) && b2[s].Next(t) == Some(o)
    && b2[i].Next(r) == Some(x) && b2[i].Next(t) == a[i].Next(t)
    && b2[x].Next(r) == a[x].Next(r) && b2[x].Next(t) == a[i].Next(r)
    && b2[o].color == a[o].color && b2[o].left == a[o].left && b2[o].right == a[o].right
    && (q.Some? ==> (q.value in a && a[x].rela != PARENT && b2[q.value].color == a[q.value].color
                     && b2[q.value].Next(a[x].rela) == Some(s) && b2[q.value].Next(a[x].rela.Toggle()) == a[q.value].Next(a[x].rela.Toggle())))
    && KeptOutside(a, b2, {x, s, i} + Up(q))
  }

  lemma BothTurnView(a: Arena, x: nat, r: Rela, s: nat, i: nat, o: nat, b1: Arena, b2: Arena)
    requires BothApart(a, x, r, s, i, o) && BothFirstSeen(a, b1, x, r, s, i, o)
    requires a[i].Next(r).Some? ==> a[i].Next(r).value in b1
    requires b2.Keys == b1.Keys && Rotated(b1, b2, i, x, a[i].Next(r), Some(s)) && OthersKept(b1, b2, i, x, a[i].Next(r), Some(s))
    ensures BothTurnSeen(a, b2, x, r, s, i, o)
  {
    var q := a[x].parent;
    ToggleInvolution(r, RED);
    RotatedKept(b1, b2, i, x, a[i].Next(r), Some(s));
    KeptTrans(a, b1, b2, {x, s} + Up(q), {i, x} + Up(Some(s)), {x, s, i} + Up(q));
  }

  /** The four repaints of the two-nephew case, seen as `BothSeen`. */
  lemma BothView(a: Arena, x: nat, r: Rela, s: nat, i: nat, o: nat, cx: Color,
                 b2: Arena, b3: Arena, b4: Arena, b5: Arena, b: Arena)
    requires BothApart(a, x, r, s, i, o) && cx == a[x].color && BothTurnSeen(a, b2, x, r, s, i, o)
    requires b3 == Repaint(b2, s, cx) && b4 == Repaint(b3, i, BLACK) && b5 == Repaint(b4, o, BLACK) && b == Repaint(b5, x, RED)
    ensures BothSeen(a, b, x, r, s, i, o)
  {
    var T := {x, s, i, o} + Up(a[x].parent);
    PaintKept(b2, s, cx);
    PaintKept(b3, i, BLACK);
    PaintKept(b4, o, BLACK);
    PaintKept(b5, x, RED);
    KeptTrans(a, b2, b3, {x, s, i} + Up(a[x].parent), {s}, T);
    KeptTrans(a, b3, b4, T, {i}, T);
    KeptTrans(a, b4, b5, T, {o}, T);
    KeptTrans(a, b5, b, T, {x}, T);
  }

  /** Two nephews: the red `x` holds the short link and the inner child of `i`, neither red. */
  lemma BothX(a: Arena, order: seq<nat>, info: map<nat, Info>, root: NodeRef, bh: map<nat, nat>, x: nat, r: Rela, s: nat, i: nat, o: nat, b: Arena)
    requires Short(a, order, info, root, bh, x, r) && Sib(a, order, info, bh, x, r, s) && Kin(a, order, info, x, r, s)
    requires a[s].color != RED && BothApart(a, x, r, s, i, o) && a[i].color == RED && BothSeen(a, b, x, r, s, i, o)
    ensures NodeOk(b, Lowered(bh, x, s), x, None)
  {
    var bh2 := Lowered(bh, x, s);
    var w := a[x].Next(r);
    var ir := a[i].Next(r);
    if ir.Some? { NephewKid(a, order, info, root, bh, x, r, s, i, r); }
    LinkShade(a, bh, b, bh2, w);
    LinkShade(a, bh, b, bh2, ir);
    assert BhOk(a, bh, i) && RedOk(a, i);
    assert Bhc(a, bh, Some(i)) == bh[s] by {
      if r == LEFT { assert a[s].left == Some(i); } else { assert a[s].right == Some(i); }
    }
    assert Bhc(a, bh, ir) == bh[i] && NotRed(a, ir) by {
      if r == LEFT { assert a[i].left == ir; } else { assert a[i].right == ir; }
    }
    RedOver(b, bh2, x, r, w, ir, bh[x] - 1);
  }

  /** Two nephews: the black `i` holds the red `x` and its own outer child. */
  lemma BothI(a: Arena, order: seq<nat>, info: map<nat, Info>, root: NodeRef, bh: map<nat, nat>, x: nat, r: Rela, s: nat, i: nat, o: nat, b: Arena)
    requires Short(a, order, info, root, bh, x, r) && Sib(a, order, info, bh, x, r, s) && Kin(a, order, info, x, r, s)
    requires a[s].color != RED && BothApart(a, x, r, s, i, o) && a[i].color == RED && BothSeen(a, b, x, r, s, i, o)
    ensures NodeOk(b, Lowered(bh, x, s), i, None)
  {
    var bh2 := Lowered(bh, x, s);
    var it := a[i].Next(r.Toggle());
    if it.Some? { NephewKid(a, order, info, root, bh, x, r, s, i, r.Toggle()); }
    LinkShade(a, bh, b, bh2, it);
    assert BhOk(a, bh, i);
    assert Bhc(a, bh, Some(i)) == bh[s] by {
      if r == LEFT { assert a[s].left == Some(i); } else { assert a[s].right == Some(i); }
    }
    assert Bhc(a, bh, it) == bh[i] by {
      if r == LEFT { assert a[i].right == it; } else { assert a[i].left == it; }
    }
    assert Bhc(b, bh2, Some(x)) == bh[i];
    BlackOver(b, bh2, i, r, Some(x), it, bh[i]);
  }

  /** Two nephews: `o`, now black, keeps its children and its black height. */
  lemma BothO(a: Arena, order: seq<nat>, info: map<nat, Info>, root: NodeRef, bh: map<nat, nat>, x: nat, r: Rela, s: nat, i: nat, o: nat, b: Arena)
    requires Short(a, order, info, root, bh, x, r) && Sib(a, order, info, bh, x, r, s) && Kin(a, order, info, x, r, s)
    requires a[s].color != RED && BothApart(a, x, r, s, i, o) && BothSeen(a, b, x, r, s, i, o)
    ensures NodeOk(b, Lowered(bh, x, s), o, None)
  {
    var t := {x, s, i, o} + Up(a[x].parent);
    BothOKids(a, order, info, root, bh, x, r, s, i, o);
    OutsideShade(a, b, bh, t, x, s, a[o].left);
    OutsideShade(a, b, bh, t, x, s, a[o].right);
  }

  /** Two nephews: the children of `o` are outside the rewritten nodes, and `o` is balanced. */
  lemma BothOKids(a: Arena, order: seq<nat>, info: map<nat, Info>, root: NodeRef, bh: map<nat, nat>, x: nat, r: Rela, s: nat, i: nat, o: nat)
    requires Short(a, order, info, root, bh, x, r) && Sib(a, order, info, bh, x, r, s) && Kin(a, order, info, x, r, s)
    requires BothApart(a, x, r, s, i, o)
    ensures BhOk(a, bh, o)
    ensures a[o].left.Some? ==> a[o].left.value in a && a[o].left.value !in {x, s, i, o} + Up(a[x].parent)
    ensures a[o].right.Some? ==> a[o].right.value in a && a[o].right.value !in {x, s, i, o} + Up(a[x].parent)
  {
    if a[o].left.Some? { NephewKid(a, order, info, root, bh, x, r, s, o, LEFT); }
    if a[o].right.Some? { NephewKid(a, order, info, root, bh, x, r, s, o, RIGHT); }
    assert BhOk(a, bh, o);
  }

  /** A link to a node outside the rewritten set `t` keeps its black count and its redness when `x` and `s` of `t` are lowered. */
  lemma OutsideShade(a: Arena, b: Arena, bh: map<nat, nat>, t: set<nat>, x: nat, s: nat, l: NodeRef)
    requires KeptOutside(a, b, t) && a.Keys == bh.Keys && x in bh && bh[x] >= 1 && x in t && s in t
    requires l.Some? ==> l.value in a && l.value !in t
    ensures Bhc(b, Lowered(bh, x, s), l) == Bhc(a, bh, l) && NotRed(b, l) == NotRed(a, l)
  {
    LinkShade(a, bh, b, Lowered(bh, x, s), l);
  }

  /** Two nephews: `s`, of the colour `x` had, sits over the black `i` and `o`. */
  lemma BothS(a: Arena, order: seq<nat>, info: map<nat, Info>, root: NodeRef, bh: map<nat, nat>, x: nat, r: Rela, s: nat, i: nat, o: nat, b: Arena)
    requires Short(a, order, info, root, bh, x, r) && Sib(a, order, info, bh, x, r, s) && Kin(a, order, info, x, r, s)
    requires a[s].color != RED && BothApart(a, x, r, s, i, o) && a[i].color == RED && a[o].color == RED && BothSeen(a, b, x, r, s, i, o)
    ensures NodeOk(b, Lowered(bh, x, s), s, None)
  {
    var bh2 := Lowered(bh, x, s);
    assert Bhc(a, bh, Some(i)) == bh[s] && Bhc(a, bh, Some(o)) == bh[s] by {
      if r == LEFT { assert a[s].left == Some(i) && a[s].right == Some(o); }
      else { assert a[s].right == Some(i) && a[s].left == Some(o); }
    }
    assert Bhc(b, bh2, Some(i)) == bh[x] && Bhc(b, bh2, Some(o)) == bh[x];
    assert ColorOk(a, x);
    if a[x].color == RED {
      RedOver(b, bh2, s, r, Some(i), Some(o), bh[x]);
    } else {
      BlackOver(b, bh2, s, r, Some(i), Some(o), bh[x]);
    }
  }

  /** Two nephews: the parent of `x` now holds `s`, which carries the colour and black count `x` carried. */
  lemma BothQ(a: Arena, order: seq<nat>, info: map<nat, Info>, root: NodeRef, bh: map<nat, nat>, x: nat, r: Rela, s: nat, i: nat, o: nat, b: Arena)
    requires Short(a, order, info, root, bh, x, r) && Sib(a, order, info, bh, x, r, s) && Kin(a, order, info, x, r, s)
    requires a[s].color != RED && BothApart(a, x, r, s, i, o) && BothSeen(a, b, x, r, s, i, o) && a[x].parent.Some?
    ensures var q := a[x].parent.value; NodeOk(b, Lowered(bh, x, s), q, None)
  {
    var bh2 := Lowered(bh, x, s);
    assert Bhc(b, bh2, Some(s)) == Bhc(a, bh, Some(x));
    TopSwapped(a, order, info, root, bh, x, r, s, b, bh2, s);
  }

  lemma BothShade(a: Arena, order: seq<nat>, info: map<nat, Info>, root: NodeRef, bh: map<nat, nat>, x: nat, r: Rela, s: nat, i: nat, o: nat,
                  b: Arena, root2: NodeRef)
    requires Short(a, order, info, root, bh, x, r) && Sib(a, order, info, bh, x, r, s) && Kin(a, order, info, x, r, s)
    requires a[s].color != RED && BothApart(a, x, r, s, i, o) && a[i].color == RED && a[o].color == RED && BothSeen(a, b, x, r, s, i, o)
    requires root2 == if a[x].parent.None? then Some(s) else root
    ensures RedBlack(b, root2, Lowered(bh, x, s))
  {
    var T := {x, s, i, o} + Up(a[x].parent);
    var bh2 := Lowered(bh, x, s);
    BothX(a, order, info, root, bh, x, r, s, i, o, b);
    BothI(a, order, info, root, bh, x, r, s, i, o, b);
    BothO(a, order, info, root, bh, x, r, s, i, o, b);
    BothS(a, order, info, root, bh, x, r, s, i, o, b);
    if a[x].parent.Some? {
      BothQ(a, order, info, root, bh, x, r, s, i, o, b);
    }
    RegionQuad(a, b, bh, bh2, x, s, i, o, None);
    LoweredKept(bh, x, s, T);
    assert a[x].parent.None? ==> a[x].color == BLACK;
    SettleRb(a, order, info, root, bh, x, r, b, bh2, T, s, root2);
  }

  /**
   * The removal case of a black brother `s` whose children `i` (inner) and
   * `o` (outer) are both red: `s` rotates over `x` and `i` over `x`; `s`
   * takes the colour of `x`, `i` and `o` are painted black and `x` red. The
   * tree is red-black again.
   */
  method BothNephews(a: Arena, root: NodeRef, x: nat, r: Rela, ghost order: seq<nat>, ghost info: map<nat, Info>, ghost bh: map<nat, nat>)
    returns (b: Arena, root2: NodeRef, ghost info2: map<nat, Info>)
    requires Short(a, order, info, root, bh, x, r)
    requires a[x].Next(r.Toggle()).Some? && a[x].Next(r.Toggle()).value in a
    requires var s := a[x].Next(r.Toggle()).value; var i := a[s].Next(r); var o := a[s].Next(r.Toggle());
      && a[s].color != RED && i.Some? && i.value in a && a[i.value].color == RED
      && o.Some? && o.value in a && a[o.value].color == RED
    ensures SameKeys(a, b) && Linked(b, order, info2) && RootOk(b, root2, order, info2)
    ensures RedBlack(b, root2, Lowered(bh, x, a[x].Next(r.Toggle()).value))
  {
    var t := r.Toggle();
    var s := a[x].Next(t).value;
    var i := a[s].Next(r).value;
    var o := a[s].Next(t).value;
    SibOf(a, order, info, root, bh, x, r);
    KinOf(a, order, info, root, bh, x, r, s);
    BothApartOf(a, order, info, root, bh, x, r, s, i, o);
    var cx := a[x].color;
    ghost var info1;
    var b1, r1;
    b1, r1, info1 := BothFirst(a, root, x, r, s, i, o, order, info);
    ToggleInvolution(r, RED);
    var b2, r2 := SingleRotate(b1, r1, i, order, info1, x, a[i].Next(r), Some(s));
    info2 := RotatedInfo(info1, i, x, t);
    PaintLinked(b2, order, info2, r2, s, cx);
    var b3 := Repaint(b2, s, cx);
    PaintLinked(b3, order, info2, r2, i, BLACK);
    var b4 := Repaint(b3, i, BLACK);
    PaintLinked(b4, order, info2, r2, o, BLACK);
    var b5 := Repaint(b4, o, BLACK);
    PaintLinked(b5, order, info2, r2, x, RED);
    b := Repaint(b5, x, RED);
    root2 := r2;
    SameKeysTrans(a, b1, b2);
    SameKeysTrans(a, b2, b3);
    SameKeysTrans(a, b3, b4);
    SameKeysTrans(a, b4, b5);
    SameKeysTrans(a, b5, b);
    BothTurnView(a, x, r, s, i, o, b1, b2);
    BothView(a, x, r, s, i, o, cx, b2, b3, b4, b5, b);
    BothShade(a, order, info, root, bh, x, r, s, i, o, b, root2);
  }

  // ---------------------------------------------------------------------
  // The dispatch on the brother and the nephews.
  // ---------------------------------------------------------------------

  /**
   * A red brother: it rotates over `x` and turns black, `x` turns red, and
   * the case of the new, black brother `n` is finished by the shape of the
   * children of `n` (none on the near side, both, or the near one only).
   */
  method FixRed(a: Arena, root: NodeRef, x: nat, r: Rela, ghost order: seq<nat>, ghost info: map<nat, Info>, ghost bh: map<nat, nat>)
    returns (b: Arena, root2: NodeRef, ghost info2: map<nat, Info>, ghost bh2: map<nat, nat>)
    requires Short(a, order, info, root, bh, x, r) && bh[x] == 1
    requires a[x].Next(r.Toggle()).Some? && a[x].Next(r.Toggle()).value in a && a[a[x].Next(r.Toggle()).value].color == RED
    ensures SameKeys(a, b) && Linked(b, order, info2) && RootOk(b, root2, order, info2) && RedBlack(b, root2, bh2)
  {
    var t := r.Toggle();
    ghost var info1;
    var b1, r1;
    b1, r1, info1 := RedBrother(a, root, x, r, order, info, bh);
    var n := b1[x].Next(t).value;
    SibOf(b1, order, info1, r1, bh, x, r);
    NephewsOf(b1, order, info1, r1, bh, x, r, n);
    if b1[n].Next(r).None? {
      b, root2, info2 := Turn(b1, r1, x, r, order, info1, bh);
      bh2 := bh[x := bh[x] - 1];
    } else if b1[n].Next(t).Some? {
      b, root2, info2 := BothNephews(b1, r1, x, r, order, info1, bh);
      bh2 := Lowered(bh, x, n);
    } else {
      b, root2, info2 := InnerRed(b1, r1, x, r, order, info1, bh);
      bh2 := Lowered(bh, x, b1[n].Next(r).value);
    }
    SameKeysTrans(a, b1, b);
  }

  /**
   * The repair after a black leaf below `x` on side `r` was freed: `x` is
   * one black node short there and has black height 1. A red brother goes
   * to `FixRed`; a black brother with no children is repainted red, and the
   * shortage moves up to the parent of a black `x` through `Rasie`; a black
   * brother with a red outer child only, with both children red, or with a
   * red inner child only, is finished by one or two rotations. The tree is
   * red-black again, with the same keys in the same order.
   */
  method FixLeaf(a: Arena, root: NodeRef, x: nat, r: Rela, ghost order: seq<nat>, ghost info: map<nat, Info>, ghost bh: map<nat, nat>)
    returns (b: Arena, root2: NodeRef, ghost info2: map<nat, Info>, ghost bh2: map<nat, nat>)
    requires Short(a, order, info, root, bh, x, r) && bh[x] == 1
    ensures SameKeys(a, b) && Linked(b, order, info2) && RootOk(b, root2, order, info2) && RedBlack(b, root2, bh2)
  {
    var t := r.Toggle();
    SibOf(a, order, info, root, bh, x, r);
    var s := a[x].Next(t).value;
    if a[s].color == RED {
      b, root2, info2, bh2 := FixRed(a, root, x, r, order, info, bh);
      return;
    }
    NephewsOf(a, order, info, root, bh, x, r, s);
    if a[s].Next(r).None? && a[s].Next(t).None? {
      assert a[s].left.None? && a[s].right.None? by {
        if r == LEFT { assert a[s].left == a[s].Next(r) && a[s].right == a[s].Next(t); }
        else { assert a[s].right == a[s].Next(r) && a[s].left == a[s].Next(t); }
      }
      b := BlackBrother(a, root, x, r, order, info, bh);
      if a[x].color == RED || a[x].parent.None? {
        root2, info2, bh2 := root, info, bh[x := bh[x] - 1];
      } else {
        var p := a[x].parent.value;
        ghost var low := bh[x := bh[x] - 1];
        var b0 := b;
        b, root2, info2, bh2 := Rasie(b0, root, p, a[x].rela, order, info, low, MaxBh(low));
        SameKeysTrans(a, b0, b);
      }
    } else if a[s].Next(r).None? {
      b, root2, info2 := OuterOnly(a, root, x, r, order, info, bh);
      bh2 := OuterHeights(bh, x, s, a[x].color);
    } else if a[s].Next(t).Some? {
      b, root2, info2 := BothNephews(a, root, x, r, order, info, bh);
      bh2 := Lowered(bh, x, s);
    } else {
      b, root2, info2 := InnerRed(a, root, x, r, order, info, bh);
      bh2 := Lowered(bh, x, a[s].Next(r).value);
    }
  }

  // ---------------------------------------------------------------------
  // raw_remove on the arena.
  // ---------------------------------------------------------------------

  /** Pairs along `order` with strictly increasing keys: `order` is sorted. */
  lemma IncreasingSorted<V>(a: Arena, vals: map<nat, V>, order: seq<nat>)
    requires forall k :: 0 <= k < |order| ==> order[k] in a && order[k] in vals
    requires Increasing(ItemsOf(a, vals, order))
    ensures Sorted(a, order)
  {
    var s := ItemsOf(a, vals, order);
    forall j, k | 0 <= j < k < |order| ensures KeyAt(a, order, j) < KeyAt(a, order, k) {
      assert s[j].0 == KeyAt(a, order, j) && s[k].0 == KeyAt(a, order, k);
    }
  }

  /** Arenas with the same keys give the same pairs. */
  lemma SameKeysItems<V>(a: Arena, b: Arena, vals: map<nat, V>, order: seq<nat>)
    requires SameKeys(a, b) && forall k :: 0 <= k < |order| ==> order[k] in a && order[k] in vals
    ensures (forall k :: 0 <= k < |order| ==> order[k] in b) && ItemsOf(b, vals, order) == ItemsOf(a, vals, order)
  {
    assert b.Keys == KeysOf(b).Keys == KeysOf(a).Keys == a.Keys;
    forall k | 0 <= k < |order| ensures b[order[k]].key == a[order[k]].key {
      assert KeysOf(b)[order[k]] == KeysOf(a)[order[k]];
    }
  }

  /** Freeing the leaf `l` keeps the pairs of every other position. */
  lemma UnlinkedItems<V>(a: Arena, vals: map<nat, V>, order: seq<nat>, info: map<nat, Info>, l: nat)
    requires Linked(a, order, info) && Leaf(a, order, info, l) && vals.Keys == a.Keys
    ensures var o := Without(order, info[l].pos);
      && (forall k :: 0 <= k < |o| ==> o[k] in Unlinked(a, l) && o[k] in vals - {l} && o[k] in a && o[k] in vals)
      && ItemsOf(Unlinked(a, l), vals - {l}, o) == ItemsOf(a, vals, o)
  {
    UnlinkedPositions(a, order, info, l);
    var o := Without(order, info[l].pos);
    var b := Unlinked(a, l);
    forall k | 0 <= k < |o| ensures o[k] in a && b[o[k]].key == a[o[k]].key {
      assert o[k] != l;
    }
  }

  /**
   * The end of `raw_remove`: the node `l` without children is freed with its
   * value. A red one just leaves its parent's link empty; the only node of
   * the tree leaves the tree empty; a black one below a parent is repaired
   * by `FixLeaf`. Every other node keeps its key and value.
   */
  method FreeLeaf<V>(a: Arena, vals: map<nat, V>, root: NodeRef, l: nat,
                     ghost order: seq<nat>, ghost info: map<nat, Info>, ghost bh: map<nat, nat>)
    returns (b: Arena, vs: map<nat, V>, root2: NodeRef, ghost info2: map<nat, Info>, ghost bh2: map<nat, nat>)
    requires Linked(a, order, info) && RootOk(a, root, order, info) && RedBlack(a, root, bh)
    requires vals.Keys == a.Keys && Leaf(a, order, info, l)
    ensures var o := Without(order, info[l].pos);
      && Linked(b, o, info2) && RootOk(b, root2, o, info2) && RedBlack(b, root2, bh2)
      && vs.Keys == b.Keys && b.Keys == a.Keys - {l}
      && (forall k :: 0 <= k < |o| ==> o[k] in a && o[k] in vals)
      && ItemsOf(b, vs, o) == ItemsOf(a, vals, o)
  {
    ghost var order2 := Without(order, info[l].pos);
    info2 := RemovedInfo(info, l, info[l].pos);
    ghost var bh1 := bh - {l};
    var p := a[l].parent;
    var b1 := Unlinked(a, l);
    vs := vals - {l};
    UnlinkedLinked(a, order, info, l);
    UnlinkedRootOk(a, order, info, root, l);
    UnlinkedItems(a, vals, order, info, l);
    if a[l].color == RED {
      assert root != Some(l);
      assert a[l].parent.Some?;
      UnlinkedRedBlack(a, order, info, root, bh, l);
      b, root2, bh2 := b1, root, bh1;
    } else if p.None? {
      b, root2, bh2 := b1, None, bh1;
    } else {
      UnlinkedShort(a, order, info, root, bh, l, p.value);
      ghost var info3;
      b, root2, info3, bh2 := FixLeaf(b1, root, p.value, a[l].rela, order2, info2, bh1);
      info2 := info3;
      SameKeysItems(b1, b, vs, order2);
    }
  }

  /**
   * `raw_remove` of the node `n`: `replace` moves the pair of the in-order
   * neighbour into `n` until a node without children is reached, and that
   * node is freed. The result is a sorted red-black tree over fewer handles
   * whose pairs are the old ones without the pair of `n`.
   */
  method RawRemove<V>(a: Arena, vals: map<nat, V>, root: NodeRef, n: nat,
                      ghost order: seq<nat>, ghost info: map<nat, Info>, ghost bh: map<nat, nat>)
    returns (b: Arena, vs: map<nat, V>, root2: NodeRef, ghost order2: seq<nat>, ghost info2: map<nat, Info>, ghost bh2: map<nat, nat>)
    requires Shaped(a, root, order, info) && RedBlack(a, root, bh) && vals.Keys == a.Keys && n in a
    ensures Shaped(b, root2, order2, info2) && RedBlack(b, root2, bh2) && vs.Keys == b.Keys && b.Keys <= a.Keys
    ensures n in info && info[n].pos < |order| && |order2| == |order| - 1
    ensures ItemsOf(b, vs, order2) == Without(ItemsOf(a, vals, order), info[n].pos)
  {
    var b1, vs1, leaf := Replace(a, vals, n, order, info, root, bh);
    SameLinksKept(a, order, info, root, bh, b1);
    SameLinksRootOk(a, order, info, root, b1);
    SameLinksLinkOk(a, order, info, b1, leaf);
    assert b1[leaf] == a[leaf].(key := b1[leaf].key);
    order2 := Without(order, info[leaf].pos);
    b, vs, root2, info2, bh2 := FreeLeaf(b1, vs1, root, leaf, order, info, bh);
    assert LinkOk(a, order, info, n);
    ItemsIncreasing(a, vals, order);
    RemovedSorted(a, vals, order, b, vs, order2, info[n].pos);
  }

  /** The pairs after the removal are the old sorted pairs without one, so the smaller arena is sorted too. */
  lemma RemovedSorted<V>(a: Arena, vals: map<nat, V>, order: seq<nat>, b: Arena, vs: map<nat, V>, order2: seq<nat>, k: nat)
    requires (forall j :: 0 <= j < |order| ==> order[j] in a && order[j] in vals) && Sorted(a, order)
    requires k < |order| && |order2| == |order| - 1
    requires forall j :: 0 <= j < |order2| ==> order2[j] in b && order2[j] in vs
    requires ItemsOf(b, vs, order2) == Without(ItemsOf(a, vals, order), k)
    ensures Sorted(b, order2)
  {
    ItemsIncreasing(a, vals, order);
    ToMapRemoved(ItemsOf(a, vals, order), ItemsOf(b, vs, order2), k);
    IncreasingSorted(b, vs, order2);
  }
}
