/**
 * `Node::rasie`: the removal fix-up. The node `x` is one black node short on
 * side `r`; its brother `s`, the child on the other side, decides the repair.
 * A red brother is rotated over `x`, which gives `x` a black brother; a black
 * brother with a red outer or inner nephew is rotated (once or twice) and the
 * tree is red-black again; a black brother with no red child is painted red,
 * which repairs a red `x` and otherwise moves the shortage up to the parent.
 */
module Rebalance {
  import opened Wrappers
  import opened Flag
  import opened Node
  import opened Frame
  import opened Rotation
  import opened RedFix
  import opened Removal

  /** Outside `t`, every node keeps its colour and its children. */
  ghost predicate KeptOutside(a: Arena, b: Arena, t: set<nat>) {
    b.Keys == a.Keys &&
    forall i :: i in a && i !in t ==> b[i].color == a[i].color && b[i].left == a[i].left && b[i].right == a[i].right
  }

  /** The arena with node `n` painted `c`. */
  function Repaint(a: Arena, n: nat, c: Color): Arena
    requires n in a
  {
    a[n := a[n].Paint(c)]
  }

  /** The handle behind a link, as a set. */
  ghost function Up(l: NodeRef): set<nat> {
    if l.Some? then {l.value} else {}
  }

  /** A rotation changes the colour or the children of `c`, `p` and `gp` only. */
  lemma RotatedKept(a: Arena, b: Arena, c: nat, p: nat, g: NodeRef, gp: NodeRef)
    requires c in a && p in a && (g.Some? ==> g.value in a) && (gp.Some? ==> gp.value in a)
    requires a[c].rela != PARENT && (gp.Some? ==> a[p].rela != PARENT)
    requires b.Keys == a.Keys && Rotated(a, b, c, p, g, gp) && OthersKept(a, b, c, p, g, gp)
    ensures KeptOutside(a, b, {c, p} + Up(gp))
  {
  }

  lemma PaintKept(a: Arena, n: nat, c: Color)
    requires n in a
    ensures KeptOutside(a, a[n := a[n].Paint(c)], {n})
  {
  }

  lemma KeptTrans(a: Arena, b: Arena, c: Arena, t1: set<nat>, t2: set<nat>, t: set<nat>)
    requires KeptOutside(a, b, t1) && KeptOutside(b, c, t2) && t1 + t2 <= t
    ensures KeptOutside(a, c, t)
  {
  }

  /**
   * The colour conditions after an update that keeps the colours and
   * children outside a set `t` of rewritten nodes, as `Region` describes
   * them: they hold outside `t` by the frame, and on `t` as established
   * directly, the black-height condition everywhere except perhaps at `ex`.
   */
  lemma ColoursFrom(a: Arena, order: seq<nat>, info: map<nat, Info>, bh: map<nat, nat>, b: Arena, bh2: map<nat, nat>,
                    t: set<nat>, x: nat, ex: NodeRef)
    requires Linked(a, order, info) && b.Keys == a.Keys && bh.Keys == a.Keys && bh2.Keys == a.Keys
    requires AllColor(a) && AllRed(a) && forall i {:trigger BhOk(a, bh, i)} :: i in a && i !in t ==> BhOk(a, bh, i)
    requires KeptOutside(a, b, t) && forall i :: i in a && i !in t ==> bh2[i] == bh[i]
    requires Region(a, b, bh, bh2, t, x, ex)
    ensures AllColor(b) && AllRed(b)
    ensures forall i {:trigger BhOk(b, bh2, i)} :: i in b && Some(i) != ex ==> BhOk(b, bh2, i)
  {
    assert forall i :: i in a && i !in t ==> ShadeSame(a, bh, b, bh2, i);
    ShadeOutside(a, order, info, bh, b, bh2, t);
    forall i | i in b ensures ColorOk(b, i) && RedOk(b, i) && (Some(i) != ex ==> BhOk(b, bh2, i)) {
      if i !in t {
        assert ColorOk(a, i) && RedOk(a, i) && BhOk(a, bh, i);
      } else {
        assert NodeOk(b, bh2, i, ex);
      }
    }
  }

  /** Node `i` satisfies the colour conditions, and the black-height condition unless it is `ex`. */
  ghost predicate NodeOk(b: Arena, bh2: map<nat, nat>, i: nat, ex: NodeRef) {
    i in b && i in bh2 && ColorOk(b, i) && RedOk(b, i) && (Some(i) != ex ==> BhOk(b, bh2, i))
  }

  /**
   * The rewritten nodes `t`, topped by `x` and the parent of `x`: every node
   * of `t` but `x` whose parent is missing or outside `t` keeps its colour and
   * black height, and each node of `t` satisfies the colour conditions and,
   * except perhaps at `ex`, the black-height condition.
   */
  ghost predicate Region(a: Arena, b: Arena, bh: map<nat, nat>, bh2: map<nat, nat>, t: set<nat>, x: nat, ex: NodeRef) {
    && x in t && x in a
    && (a[x].parent.Some? ==> a[x].parent.value in t)
    && (forall c :: c in t && c in a && c != x && (a[c].parent.None? || a[c].parent.value !in t) ==>
          c in b && c in bh && c in bh2 && b[c].color == a[c].color && bh2[c] == bh[c])
    && (forall i :: i in t ==> NodeOk(b, bh2, i, ex))
  }

  /** Whatever stays the root keeps its colour; a new subtree top `n` at the root is black. */
  lemma RootKept(a: Arena, order: seq<nat>, info: map<nat, Info>, root: NodeRef, bh: map<nat, nat>, b: Arena, bh2: map<nat, nat>,
                 t: set<nat>, x: nat, ex: NodeRef, n: nat)
    requires a.Keys == info.Keys && RootOk(a, root, order, info) && RootBlack(a, root)
    requires KeptOutside(a, b, t) && Region(a, b, bh, bh2, t, x, ex) && n in b
    requires a[x].parent.None? ==> b[n].color == BLACK
    ensures RootBlack(b, if a[x].parent.None? then Some(n) else root)
  {
  }

  /**
   * The colour conditions and the black root after a repair at the short
   * node `x`, from `Region` and the frame outside the rewritten nodes `t`;
   * `n` is the new top of the subtree of `x`.
   */
  lemma Settle(a: Arena, order: seq<nat>, info: map<nat, Info>, root: NodeRef, bh: map<nat, nat>, x: nat, r: Rela,
               b: Arena, bh2: map<nat, nat>, t: set<nat>, ex: NodeRef, n: nat)
    requires Short(a, order, info, root, bh, x, r)
    requires KeptOutside(a, b, t) && Region(a, b, bh, bh2, t, x, ex) && n in b
    requires bh2.Keys == a.Keys && forall i :: i in a && i !in t ==> bh2[i] == bh[i]
    requires a[x].parent.None? ==> b[n].color == BLACK
    ensures AllColor(b) && AllRed(b) && forall i {:trigger BhOk(b, bh2, i)} :: i in b && Some(i) != ex ==> BhOk(b, bh2, i)
    ensures RootBlack(b, if a[x].parent.None? then Some(n) else root)
  {
    ColoursFrom(a, order, info, bh, b, bh2, t, x, ex);
    RootKept(a, order, info, root, bh, b, bh2, t, x, ex, n);
  }

  /** `Settle` with no exception: the tree is red-black. */
  lemma SettleRb(a: Arena, order: seq<nat>, info: map<nat, Info>, root: NodeRef, bh: map<nat, nat>, x: nat, r: Rela,
                 b: Arena, bh2: map<nat, nat>, t: set<nat>, n: nat, root2: NodeRef)
    requires Short(a, order, info, root, bh, x, r)
    requires KeptOutside(a, b, t) && Region(a, b, bh, bh2, t, x, None) && n in b
    requires bh2.Keys == a.Keys && forall i :: i in a && i !in t ==> bh2[i] == bh[i]
    requires a[x].parent.None? ==> b[n].color == BLACK
    requires root2 == if a[x].parent.None? then Some(n) else root
    ensures RedBlack(b, root2, bh2)
  {
    Settle(a, order, info, root, bh, x, r, b, bh2, t, None, n);
  }

  /** `Region` for `x`, its child `s` and the parent of `x`, which keeps its colour and black height. */
  lemma RegionPair(a: Arena, b: Arena, bh: map<nat, nat>, bh2: map<nat, nat>, x: nat, s: nat, ex: NodeRef)
    requires x in a && s in a && a[s].parent == Some(x)
    requires NodeOk(b, bh2, x, ex) && NodeOk(b, bh2, s, ex)
    requires a[x].parent.Some? ==> var q := a[x].parent.value;
      q in a && q in bh && NodeOk(b, bh2, q, ex) && b[q].color == a[q].color && bh2[q] == bh[q]
    ensures Region(a, b, bh, bh2, {x, s} + Up(a[x].parent), x, ex)
  {
  }

  /** `Region` for `x`, its child `s`, a child `o` of `s` and the parent of `x`. */
  lemma RegionTriple(a: Arena, b: Arena, bh: map<nat, nat>, bh2: map<nat, nat>, x: nat, s: nat, o: nat, ex: NodeRef)
    requires x in a && s in a && o in a && a[s].parent == Some(x) && a[o].parent == Some(s)
    requires NodeOk(b, bh2, x, ex) && NodeOk(b, bh2, s, ex) && NodeOk(b, bh2, o, ex)
    requires a[x].parent.Some? ==> var q := a[x].parent.value;
      q in a && q in bh && NodeOk(b, bh2, q, ex) && b[q].color == a[q].color && bh2[q] == bh[q]
    ensures Region(a, b, bh, bh2, {x, s, o} + Up(a[x].parent), x, ex)
  {
  }

  /**
   * The brother `s` of the short side of `x`: without a red colour it is
   * black and one black level below `x`; a red brother has a black parent,
   * children that are not red, and the black height of `x`.
   */
  ghost predicate Sib(a: Arena, order: seq<nat>, info: map<nat, Info>, bh: map<nat, nat>, x: nat, r: Rela, s: nat) {
    && r != PARENT && LinkOk(a, order, info, x) && LinkOk(a, order, info, s) && x in bh && s in bh
    && a[x].Next(r.Toggle()) == Some(s) && a[s].parent == Some(x) && a[s].rela == r.Toggle()
    && Size(info, s) < Size(info, x) && BhOk(a, bh, s) && bh[x] >= 1
    && (a[s].color == RED ==> a[x].color == BLACK && bh[s] == bh[x] && NotRed(a, a[s].left) && NotRed(a, a[s].right))
    && (a[s].color != RED ==> a[s].color == BLACK && bh[s] + 1 == bh[x])
  }

  lemma SibOf(a: Arena, order: seq<nat>, info: map<nat, Info>, root: NodeRef, bh: map<nat, nat>, x: nat, r: Rela)
    requires Short(a, order, info, root, bh, x, r)
    ensures a[x].Next(r.Toggle()).Some? && Sib(a, order, info, bh, x, r, a[x].Next(r.Toggle()).value)
  {
    ChildOf(a, order, info, x, r.Toggle());
    var s := a[x].Next(r.Toggle()).value;
    assert LinkOk(a, order, info, x) && BhOk(a, bh, s) && RedOk(a, x) && ColorOk(a, x) && RedOk(a, s) && ColorOk(a, s);
    if r == LEFT { assert a[x].right == Some(s); } else { assert a[x].left == Some(s); }
  }

  /**
   * The neighbourhood of `x` and its brother `s`: the short link `w`, the
   * nephews `i` (inner) and `o` (outer), the parent `q` and the other child
   * `u` of `q` are linked and distinct from each other wherever they exist.
   */
  ghost predicate Kin(a: Arena, order: seq<nat>, info: map<nat, Info>, x: nat, r: Rela, s: nat)
    requires x in a && s in a && x in info && s in info
  {
    var t := r.Toggle();
    var w := a[x].Next(r);
    var i := a[s].Next(r);
    var o := a[s].Next(t);
    var q := a[x].parent;
    && (w.Some? ==> (w.value in a && w.value != x && w.value != s))
    && (i.Some? ==> (i.value in a && i.value != x && i.value != s && a[i.value].parent == Some(s)
                     && a[i.value].rela == r && i.value in info && Size(info, i.value) < Size(info, s) && (w.Some? ==> w.value != i.value)))
    && (o.Some? ==> (o.value in a && o.value != x && o.value != s && a[o.value].parent == Some(s)
                     && a[o.value].rela == t && o.value in info && Size(info, o.value) < Size(info, s) && (w.Some? ==> w.value != o.value)
                     && (i.Some? ==> i.value != o.value)))
    && (q.Some? ==> (q.value in a && q.value != x && q.value != s && a[x].rela != PARENT
                     && a[q.value].Next(a[x].rela) == Some(x) && q.value in info && Size(info, x) < Size(info, q.value)
                     && (w.Some? ==> w.value != q.value) && (i.Some? ==> i.value != q.value) && (o.Some? ==> o.value != q.value)))
    && (q.Some? ==> var u := a[q.value].Next(a[x].rela.Toggle());
          (u.Some? ==> (u.value in a && u.value != q.value && u.value != x && u.value != s
                        && (w.Some? ==> w.value != u.value) && (i.Some? ==> i.value != u.value) && (o.Some? ==> o.value != u.value))))
  }

  lemma KinOf(a: Arena, order: seq<nat>, info: map<nat, Info>, root: NodeRef, bh: map<nat, nat>, x: nat, r: Rela, s: nat)
    requires Short(a, order, info, root, bh, x, r) && Sib(a, order, info, bh, x, r, s)
    ensures Kin(a, order, info, x, r, s)
  {
    var t := r.Toggle();
    if a[x].Next(r).Some? { ChildOf(a, order, info, x, r); }
    if a[s].Next(r).Some? { ChildOf(a, order, info, s, r); }
    if a[s].Next(t).Some? { ChildOf(a, order, info, s, t); }
    if a[x].parent.Some? {
      ParentOf(a, order, info, x);
      var q := a[x].parent.value;
      if a[q].Next(a[x].rela.Toggle()).Some? { ChildOf(a, order, info, q, a[x].rela.Toggle()); }
    }
  }

  /** A child `c` of a nephew `n` lies below `n`, apart from `x`, `s`, `n`, the parent of `x` and its other child. */
  lemma NephewKid(a: Arena, order: seq<nat>, info: map<nat, Info>, root: NodeRef, bh: map<nat, nat>, x: nat, r: Rela, s: nat,
                  n: nat, d: Rela)
    requires Short(a, order, info, root, bh, x, r) && Sib(a, order, info, bh, x, r, s) && Kin(a, order, info, x, r, s)
    requires a[s].Next(r) == Some(n) || a[s].Next(r.Toggle()) == Some(n)
    requires d != PARENT && a[n].Next(d).Some?
    ensures var c := a[n].Next(d).value; var q := a[x].parent;
      && c in a && c != x && c != s && c != n && a[c].parent == Some(n) && a[c].rela == d && LinkOk(a, order, info, c)
      && Size(info, c) < Size(info, n)
      && (q.Some? ==> c != q.value && (a[q.value].Next(a[x].rela.Toggle()).Some? ==> c != a[q.value].Next(a[x].rela.Toggle()).value))
  {
    ChildOf(a, order, info, n, d);
    var q := a[x].parent;
    if q.Some? {
      var u := a[q.value].Next(a[x].rela.Toggle());
      if u.Some? { ChildOf(a, order, info, q.value, a[x].rela.Toggle()); }
    }
  }

  /**
   * The parent `q` of `x` now holds `n` in the slot of `x`, and `n` carries
   * the black count `x` carried and is black or of the colour `x` had: the
   * colour conditions of `q` hold.
   */
  lemma TopSwapped(a: Arena, order: seq<nat>, info: map<nat, Info>, root: NodeRef, bh: map<nat, nat>, x: nat, r: Rela, s: nat,
                   b: Arena, bh2: map<nat, nat>, n: nat)
    requires Short(a, order, info, root, bh, x, r) && Sib(a, order, info, bh, x, r, s) && Kin(a, order, info, x, r, s)
    requires a[x].parent.Some? && b.Keys == a.Keys && bh2.Keys == a.Keys && n in b
    requires var q := a[x].parent.value; var xr := a[x].rela;
      && b[q].color == a[q].color && bh2[q] == bh[q]
      && b[q].Next(xr) == Some(n) && b[q].Next(xr.Toggle()) == a[q].Next(xr.Toggle())
    requires Bhc(b, bh2, Some(n)) == Bhc(a, bh, Some(x))
    requires b[n].color == a[x].color || b[n].color == BLACK
    requires var u := a[a[x].parent.value].Next(a[x].rela.Toggle());
      u.Some? ==> b[u.value].color == a[u.value].color && bh2[u.value] == bh[u.value]
    ensures var q := a[x].parent.value; q in b && ColorOk(b, q) && RedOk(b, q) && BhOk(b, bh2, q)
  {
    var q := a[x].parent.value;
    var xr := a[x].rela;
    var u := a[q].Next(xr.Toggle());
    assert ColorOk(a, q) && RedOk(a, q) && BhOk(a, bh, q);
    LinkShade(a, bh, b, bh2, u);
    if xr == LEFT {
      assert b[q].left == Some(n) && b[q].right == u && a[q].left == Some(x);
    } else {
      assert b[q].right == Some(n) && b[q].left == u && a[q].right == Some(x);
    }
  }

  /**
   * The records after the red-brother case, as far as the colour conditions
   * read them: `s` is black over `x` and the outer nephew, `x` red over the
   * short link and the inner nephew, and the parent of `x` holds `s` instead.
   */
  ghost predicate RedBrotherSeen(a: Arena, b: Arena, x: nat, r: Rela, s: nat) {
    && x in a && s in a && r != PARENT && b.Keys == a.Keys
    && var t := r.Toggle();
    && var q := a[x].parent;
    && b[s].color == BLACK && b[s].Next(r) == Some(x) && b[s].Next(t) == a[s].Next(t)
    && b[x].color == RED && b[x].Next(r) == a[x].Next(r) && b[x].Next(t) == a[s].Next(r)
    && (q.Some? ==> (q.value in a && a[x].rela != PARENT && b[q.value].color == a[q.value].color
                     && b[q.value].Next(a[x].rela) == Some(s) && b[q.value].Next(a[x].rela.Toggle()) == a[q.value].Next(a[x].rela.Toggle())))
    && KeptOutside(a, b, {x, s} + Up(q))
  }

  lemma RedBrotherView(a: Arena, x: nat, r: Rela, s: nat, b1: Arena, b2: Arena, b: Arena)
    requires x in a && s in a && x != s && r != PARENT && a[x].Next(r.Toggle()) == Some(s) && a[s].rela == r.Toggle()
    requires a[s].Next(r).Some? ==> a[s].Next(r).value in a
    requires a[x].parent.Some? ==> a[x].parent.value in a && a[x].parent.value != x && a[x].parent.value != s && a[x].rela != PARENT
    requires b1.Keys == a.Keys && Rotated(a, b1, s, x, a[s].Next(r), a[x].parent) && OthersKept(a, b1, s, x, a[s].Next(r), a[x].parent)
    requires b2 == b1[x := b1[x].Paint(RED)] && b == b2[s := b2[s].Paint(BLACK)]
    ensures RedBrotherSeen(a, b, x, r, s)
  {
    var q := a[x].parent;
    RotatedKept(a, b1, s, x, a[s].Next(r), q);
    PaintKept(b1, x, RED);
    PaintKept(b2, s, BLACK);
    KeptTrans(a, b1, b2, {s, x} + Up(q), {x}, {x, s} + Up(q));
    KeptTrans(a, b2, b, {x, s} + Up(q), {s}, {x, s} + Up(q));
  }

  /** Red brother: `s`, now black, has the red `x` and the outer nephew below it. */
  lemma RedBrotherS(a: Arena, order: seq<nat>, info: map<nat, Info>, root: NodeRef, bh: map<nat, nat>, x: nat, r: Rela, s: nat, b: Arena)
    requires Short(a, order, info, root, bh, x, r) && Sib(a, order, info, bh, x, r, s) && Kin(a, order, info, x, r, s)
    requires a[s].color == RED && RedBrotherSeen(a, b, x, r, s)
    ensures s in b && ColorOk(b, s) && RedOk(b, s) && BhOk(b, bh, s)
  {
    var o := a[s].Next(r.Toggle());
    LinkShade(a, bh, b, bh, o);
    assert Bhc(a, bh, o) == bh[s] by {
      if r == LEFT { assert a[s].right == o; } else { assert a[s].left == o; }
    }
    BlackOver(b, bh, s, r, Some(x), o, bh[s]);
  }

  /** Red brother: `x`, now red, is short on side `r` and has the black inner nephew as its brother. */
  lemma RedBrotherX(a: Arena, order: seq<nat>, info: map<nat, Info>, root: NodeRef, bh: map<nat, nat>, x: nat, r: Rela, s: nat, b: Arena)
    requires Short(a, order, info, root, bh, x, r) && Sib(a, order, info, bh, x, r, s) && Kin(a, order, info, x, r, s)
    requires a[s].color == RED && RedBrotherSeen(a, b, x, r, s)
    ensures x in b && ColorOk(b, x) && RedOk(b, x)
    ensures NotRed(b, b[x].Next(r)) && Bhc(b, bh, b[x].Next(r)) + 1 == bh[x] && Bhc(b, bh, b[x].Next(r.Toggle())) == bh[x]
    ensures b[x].Next(r.Toggle()).Some? && b[x].Next(r.Toggle()).value in b && b[b[x].Next(r.Toggle()).value].color == BLACK
  {
    var w := a[x].Next(r);
    var i := a[s].Next(r);
    LinkShade(a, bh, b, bh, w);
    LinkShade(a, bh, b, bh, i);
    assert Bhc(a, bh, i) == bh[s] && NotRed(a, i) by {
      if r == LEFT { assert a[s].left == i; } else { assert a[s].right == i; }
    }
    assert i.Some? ==> ColorOk(a, i.value);
    if r == LEFT { assert b[x].left == w && b[x].right == i; } else { assert b[x].right == w && b[x].left == i; }
  }

  /** Red brother: the colour part of `Short` after the rotation and the repaints. */
  lemma RedBrotherShade(a: Arena, order: seq<nat>, info: map<nat, Info>, root: NodeRef, bh: map<nat, nat>, x: nat, r: Rela, s: nat,
                        b: Arena, root2: NodeRef)
    requires Short(a, order, info, root, bh, x, r) && Sib(a, order, info, bh, x, r, s) && Kin(a, order, info, x, r, s)
    requires a[s].color == RED && RedBrotherSeen(a, b, x, r, s)
    requires root2 == if a[x].parent.None? then Some(s) else root
    ensures ShortShade(b, root2, bh, x, r)
    ensures b[x].Next(r.Toggle()).Some? && b[x].Next(r.Toggle()).value in b && b[b[x].Next(r.Toggle()).value].color == BLACK
  {
    var q := a[x].parent;
    var T := {x, s} + Up(q);
    RedBrotherX(a, order, info, root, bh, x, r, s, b);
    RedBrotherRegion(a, order, info, root, bh, x, r, s, b);
    Settle(a, order, info, root, bh, x, r, b, bh, T, Some(x), s);
  }

  lemma RedBrotherRegion(a: Arena, order: seq<nat>, info: map<nat, Info>, root: NodeRef, bh: map<nat, nat>, x: nat, r: Rela, s: nat, b: Arena)
    requires Short(a, order, info, root, bh, x, r) && Sib(a, order, info, bh, x, r, s) && Kin(a, order, info, x, r, s)
    requires a[s].color == RED && RedBrotherSeen(a, b, x, r, s)
    ensures Region(a, b, bh, bh, {x, s} + Up(a[x].parent), x, Some(x))
  {
    var q := a[x].parent;
    RedBrotherS(a, order, info, root, bh, x, r, s, b);
    RedBrotherX(a, order, info, root, bh, x, r, s, b);
    if q.Some? {
      RedBrotherQ(a, order, info, root, bh, x, r, s, b);
    }
    RegionPair(a, b, bh, bh, x, s, Some(x));
  }

  /** Red brother: the parent of `x` now holds the black `s`, which carries the black count `x` carried. */
  lemma RedBrotherQ(a: Arena, order: seq<nat>, info: map<nat, Info>, root: NodeRef, bh: map<nat, nat>, x: nat, r: Rela, s: nat, b: Arena)
    requires Short(a, order, info, root, bh, x, r) && Sib(a, order, info, bh, x, r, s) && Kin(a, order, info, x, r, s)
    requires a[s].color == RED && RedBrotherSeen(a, b, x, r, s) && a[x].parent.Some?
    ensures var q := a[x].parent.value; q in b && ColorOk(b, q) && RedOk(b, q) && BhOk(b, bh, q)
  {
    assert Bhc(b, bh, Some(s)) == Bhc(a, bh, Some(x));
    TopSwapped(a, order, info, root, bh, x, r, s, b, bh, s);
  }

  /**
   * `rasie` with a red brother `s`: `s` rotates over `x`, `x` is painted red
   * and `s` black. The black heights stay; `x` is still short on side `r`,
   * now with a black brother, the old inner nephew.
   */
  method RedBrother(a: Arena, root: NodeRef, x: nat, r: Rela, ghost order: seq<nat>, ghost info: map<nat, Info>, ghost bh: map<nat, nat>)
    returns (b: Arena, root2: NodeRef, ghost info2: map<nat, Info>)
    requires Short(a, order, info, root, bh, x, r)
    requires a[x].Next(r.Toggle()).Some? && a[x].Next(r.Toggle()).value in a && a[a[x].Next(r.Toggle()).value].color == RED
    ensures SameKeys(a, b) && Short(b, order, info2, root2, bh, x, r) && b[x].color == RED
    ensures b[x].Next(r.Toggle()).Some? && b[x].Next(r.Toggle()).value in b && b[b[x].Next(r.Toggle()).value].color == BLACK
  {
    var s := a[x].Next(r.Toggle()).value;
    SibOf(a, order, info, root, bh, x, r);
    KinOf(a, order, info, root, bh, x, r, s);
    var b1, r1 := SingleRotate(a, root, s, order, info, x, a[s].Next(r), a[x].parent);
    info2 := RotatedInfo(info, s, x, r.Toggle());
    PaintLinked(b1, order, info2, r1, x, RED);
    var b2 := Repaint(b1, x, RED);
    PaintLinked(b2, order, info2, r1, s, BLACK);
    b := Repaint(b2, s, BLACK);
    root2 := r1;
    SameKeysTrans(a, b1, b2);
    SameKeysTrans(a, b2, b);
    RedBrotherView(a, x, r, s, b1, b2, b);
    RedBrotherShade(a, order, info, root, bh, x, r, s, b, root2);
  }

  /**
   * The records after the black-brother case: `s` is red, `x` black, and
   * nothing else has changed.
   */
  ghost predicate BlackBrotherSeen(a: Arena, b: Arena, x: nat, s: nat) {
    && x in a && s in a && b.Keys == a.Keys
    && b[s].color == RED && b[s].left == a[s].left && b[s].right == a[s].right
    && b[x].color == BLACK && b[x].left == a[x].left && b[x].right == a[x].right
    && KeptOutside(a, b, {x, s})
  }

  lemma BlackBrotherView(a: Arena, x: nat, s: nat, b1: Arena, b: Arena)
    requires x in a && s in a && x != s && (a[x].color == RED || a[x].color == BLACK)
    requires b1 == Repaint(a, s, RED) && b == if a[x].color == RED then Repaint(b1, x, BLACK) else b1
    ensures BlackBrotherSeen(a, b, x, s)
  {
  }

  /** Black brother: `s`, now red, keeps its children, which are not red. */
  lemma BlackBrotherS(a: Arena, order: seq<nat>, info: map<nat, Info>, root: NodeRef, bh: map<nat, nat>, x: nat, r: Rela, s: nat, b: Arena)
    requires Short(a, order, info, root, bh, x, r) && Sib(a, order, info, bh, x, r, s) && Kin(a, order, info, x, r, s)
    requires a[s].color != RED && NotRed(a, a[s].left) && NotRed(a, a[s].right) && BlackBrotherSeen(a, b, x, s)
    ensures s in b && ColorOk(b, s) && RedOk(b, s) && BhOk(b, bh[x := bh[x] - 1], s)
  {
    var bh2 := bh[x := bh[x] - 1];
    LinkShade(a, bh, b, bh2, a[s].left);
    LinkShade(a, bh, b, bh2, a[s].right);
  }

  /** Black brother: `x`, now black, carries one black node fewer on both sides. */
  lemma BlackBrotherX(a: Arena, order: seq<nat>, info: map<nat, Info>, root: NodeRef, bh: map<nat, nat>, x: nat, r: Rela, s: nat, b: Arena)
    requires Short(a, order, info, root, bh, x, r) && Sib(a, order, info, bh, x, r, s) && Kin(a, order, info, x, r, s)
    requires a[s].color != RED && BlackBrotherSeen(a, b, x, s)
    ensures x in b && ColorOk(b, x) && RedOk(b, x) && BhOk(b, bh[x := bh[x] - 1], x)
  {
    var bh2 := bh[x := bh[x] - 1];
    var w := a[x].Next(r);
    LinkShade(a, bh, b, bh2, w);
    assert Bhc(b, bh2, Some(s)) == bh[x] - 1;
    if r == LEFT { assert b[x].left == w && b[x].right == Some(s); } else { assert b[x].right == w && b[x].left == Some(s); }
  }

  /** Black brother at a red `x`: the parent of `x` sees the same black count as before. */
  lemma BlackBrotherQ(a: Arena, order: seq<nat>, info: map<nat, Info>, root: NodeRef, bh: map<nat, nat>, x: nat, r: Rela, s: nat, b: Arena)
    requires Short(a, order, info, root, bh, x, r) && Sib(a, order, info, bh, x, r, s) && Kin(a, order, info, x, r, s)
    requires a[s].color != RED && BlackBrotherSeen(a, b, x, s) && a[x].parent.Some? && a[x].color == RED
    ensures var q := a[x].parent.value; q in b && ColorOk(b, q) && RedOk(b, q) && BhOk(b, bh[x := bh[x] - 1], q)
  {
    var bh2 := bh[x := bh[x] - 1];
    assert Bhc(b, bh2, Some(x)) == Bhc(a, bh, Some(x));
    TopSwapped(a, order, info, root, bh, x, r, s, b, bh2, x);
  }

  /**
   * Black brother at a black `x` below `q`: `q` keeps its colour and its
   * children, and is now one black node short on the side of `x`.
   */
  lemma BlackBrotherUp(a: Arena, order: seq<nat>, info: map<nat, Info>, root: NodeRef, bh: map<nat, nat>, x: nat, r: Rela, s: nat, b: Arena)
    requires Short(a, order, info, root, bh, x, r) && Sib(a, order, info, bh, x, r, s) && Kin(a, order, info, x, r, s)
    requires a[s].color != RED && BlackBrotherSeen(a, b, x, s) && a[x].parent.Some? && a[x].color != RED
    ensures var q := a[x].parent.value; var bh2 := bh[x := bh[x] - 1];
      && q in b && ColorOk(b, q) && RedOk(b, q)
      && NotRed(b, b[q].Next(a[x].rela))
      && Bhc(b, bh2, b[q].Next(a[x].rela)) + 1 == bh2[q]
      && Bhc(b, bh2, b[q].Next(a[x].rela.Toggle())) == bh2[q]
      && bh2[q] == bh[x] + 1
  {
    var bh2 := bh[x := bh[x] - 1];
    var q := a[x].parent.value;
    var xr := a[x].rela;
    var u := a[q].Next(xr.Toggle());
    assert ColorOk(a, q) && RedOk(a, q) && BhOk(a, bh, q) && ColorOk(a, x);
    LinkShade(a, bh, b, bh2, u);
    if xr == LEFT {
      assert a[q].left == Some(x) && b[q].left == Some(x) && b[q].right == u;
    } else {
      assert a[q].right == Some(x) && b[q].right == Some(x) && b[q].left == u;
    }
  }

  /** The node that may still be short after the black-brother case: the parent of a black `x`. */
  ghost function Raised(a: Arena, x: nat): NodeRef
    requires x in a
  {
    if a[x].color != RED then a[x].parent else None
  }

  lemma BlackBrotherRegion(a: Arena, order: seq<nat>, info: map<nat, Info>, root: NodeRef, bh: map<nat, nat>, x: nat, r: Rela, s: nat, b: Arena)
    requires Short(a, order, info, root, bh, x, r) && Sib(a, order, info, bh, x, r, s) && Kin(a, order, info, x, r, s)
    requires a[s].color != RED && NotRed(a, a[s].left) && NotRed(a, a[s].right) && BlackBrotherSeen(a, b, x, s)
    ensures Region(a, b, bh, bh[x := bh[x] - 1], {x, s} + Up(a[x].parent), x, Raised(a, x))
  {
    var q := a[x].parent;
    var bh2 := bh[x := bh[x] - 1];
    BlackBrotherS(a, order, info, root, bh, x, r, s, b);
    BlackBrotherX(a, order, info, root, bh, x, r, s, b);
    if q.Some? {
      if a[x].color == RED {
        BlackBrotherQ(a, order, info, root, bh, x, r, s, b);
      } else {
        BlackBrotherUp(a, order, info, root, bh, x, r, s, b);
      }
    }
    RegionPair(a, b, bh, bh2, x, s, Raised(a, x));
  }

  /** Black brother: the tree is red-black again, or the parent of the black `x` is now short on the side of `x`. */
  lemma BlackBrotherShade(a: Arena, order: seq<nat>, info: map<nat, Info>, root: NodeRef, bh: map<nat, nat>, x: nat, r: Rela, s: nat, b: Arena)
    requires Short(a, order, info, root, bh, x, r) && Sib(a, order, info, bh, x, r, s) && Kin(a, order, info, x, r, s)
    requires a[s].color != RED && NotRed(a, a[s].left) && NotRed(a, a[s].right) && BlackBrotherSeen(a, b, x, s)
    ensures Raised(a, x).None? ==> RedBlack(b, root, bh[x := bh[x] - 1])
    ensures Raised(a, x).Some? ==>
      && ShortShade(b, root, bh[x := bh[x] - 1], Raised(a, x).value, a[x].rela)
      && bh[x := bh[x] - 1][Raised(a, x).value] == bh[x] + 1
  {
    var q := a[x].parent;
    var bh2 := bh[x := bh[x] - 1];
    var T := {x, s} + Up(q);
    BlackBrotherRegion(a, order, info, root, bh, x, r, s, b);
    Settle(a, order, info, root, bh, x, r, b, bh2, T, Raised(a, x), x);
    if Raised(a, x).Some? {
      BlackBrotherUp(a, order, info, root, bh, x, r, s, b);
    }
  }

  /**
   * `rasie` with a black brother `s` whose children are not red: `s` is
   * painted red, and a red `x` black. The black height of `x` drops by one;
   * the tree is red-black, unless `x` was black and has a parent, which is
   * then one black node short on the side of `x`.
   */
  method BlackBrother(a: Arena, root: NodeRef, x: nat, r: Rela, ghost order: seq<nat>, ghost info: map<nat, Info>, ghost bh: map<nat, nat>)
    returns (b: Arena)
    requires Short(a, order, info, root, bh, x, r)
    requires a[x].Next(r.Toggle()).Some? && a[x].Next(r.Toggle()).value in a
    requires var s := a[x].Next(r.Toggle()).value; a[s].color != RED && NotRed(a, a[s].left) && NotRed(a, a[s].right)
    ensures SameKeys(a, b) && Linked(b, order, info) && RootOk(b, root, order, info)
    ensures a[x].color == RED || a[x].parent.None? ==> RedBlack(b, root, bh[x := bh[x] - 1])
    ensures a[x].color != RED && a[x].parent.Some? ==>
      && Short(b, order, info, root, bh[x := bh[x] - 1], a[x].parent.value, a[x].rela)
      && bh[a[x].parent.value] == bh[x] + 1
  {
    var s := a[x].Next(r.Toggle()).value;
    SibOf(a, order, info, root, bh, x, r);
    KinOf(a, order, info, root, bh, x, r, s);
    PaintLinked(a, order, info, root, s, RED);
    var b1 := Repaint(a, s, RED);
    b := b1;
    assert ColorOk(a, x);
    if a[x].color == RED {
      PaintLinked(b1, order, info, root, x, BLACK);
      b := Repaint(b1, x, BLACK);
      SameKeysTrans(a, b1, b);
    }
    BlackBrotherView(a, x, s, b1, b);
    BlackBrotherShade(a, order, info, root, bh, x, r, s, b);
  }

  /**
   * The records after the outer-nephew case: `s` has the colour `x` had and
   * sits over `x` and the outer nephew `o`, both black; `x` holds the short
   * link and the inner nephew; the parent of `x` holds `s` instead.
   */
  ghost predicate OuterRedSeen(a: Arena, b: Arena, x: nat, r: Rela, s: nat, o: nat) {
    && x in a && s in a && o in a && r != PARENT && b.Keys == a.Keys
    && var t := r.Toggle();
    && var q := a[x].parent;
    && b[s].color == a[x].color && b[s].Next(r) == Some(x) && b[s].Next(t) == Some(o)
    && b[x].color == BLACK && b[x].Next(r) == a[x].Next(r) && b[x].Next(t) == a[s].Next(r)
    && b[o].color == BLACK && b[o].left == a[o].left && b[o].right == a[o].right
    && (q.Some? ==> (q.value in a && a[x].rela != PARENT && b[q.value].color == a[q.value].color
                     && b[q.value].Next(a[x].rela) == Some(s) && b[q.value].Next(a[x].rela.Toggle()) == a[q.value].Next(a[x].rela.Toggle())))
    && KeptOutside(a, b, {x, s, o} + Up(q))
  }

  lemma OuterRedView(a: Arena, x: nat, r: Rela, s: nat, o: nat, cx: Color, b1: Arena, b2: Arena, b3: Arena, b: Arena)
    requires x in a && s in a && o in a && x != s && o != x && o != s && r != PARENT && cx == a[x].color
    requires a[x].Next(r.Toggle()) == Some(s) && a[s].rela == r.Toggle() && a[s].Next(r.Toggle()) == Some(o)
    requires a[s].Next(r).Some? ==> a[s].Next(r).value in a && a[s].Next(r).value != o
    requires a[x].parent.Some? ==> var q := a[x].parent.value;
      q in a && q != x && q != s && q != o && a[x].rela != PARENT
    requires b1.Keys == a.Keys && Rotated(a, b1, s, x, a[s].Next(r), a[x].parent) && OthersKept(a, b1, s, x, a[s].Next(r), a[x].parent)
    requires b2 == Repaint(b1, s, cx) && b3 == Repaint(b2, x, BLACK) && b == Repaint(b3, o, BLACK)
    ensures OuterRedSeen(a, b, x, r, s, o)
  {
    var q := a[x].parent;
    RotatedKept(a, b1, s, x, a[s].Next(r), q);
    PaintKept(b1, s, cx);
    PaintKept(b2, x, BLACK);
    PaintKept(b3, o, BLACK);
    KeptTrans(a, b1, b2, {s, x} + Up(q), {s}, {x, s, o} + Up(q));
    KeptTrans(a, b2, b3, {x, s, o} + Up(q), {x}, {x, s, o} + Up(q));
    KeptTrans(a, b3, b, {x, s, o} + Up(q), {o}, {x, s, o} + Up(q));
  }

  /** The black heights after a rotation of a black brother: `x` drops one level and the new top takes the old height of `x`. */
  ghost function Lowered(bh: map<nat, nat>, x: nat, n: nat): map<nat, nat>
    requires x in bh && bh[x] >= 1
  {
    bh[x := bh[x] - 1][n := bh[x]]
  }

  /** `Lowered` changes the black heights of `x` and `n` only. */
  lemma LoweredKept(bh: map<nat, nat>, x: nat, n: nat, t: set<nat>)
    requires x in bh && n in bh && bh[x] >= 1 && x in t && n in t
    ensures Lowered(bh, x, n).Keys == bh.Keys && forall i :: i in bh && i !in t ==> Lowered(bh, x, n)[i] == bh[i]
  {
  }

  /** Outer nephew: `o`, now black, keeps its children and its black height. */
  lemma OuterRedO(a: Arena, order: seq<nat>, info: map<nat, Info>, root: NodeRef, bh: map<nat, nat>, x: nat, r: Rela, s: nat, o: nat, b: Arena)
    requires Short(a, order, info, root, bh, x, r) && Sib(a, order, info, bh, x, r, s) && Kin(a, order, info, x, r, s)
    requires a[s].color != RED && a[s].Next(r.Toggle()) == Some(o) && OuterRedSeen(a, b, x, r, s, o)
    ensures NodeOk(b, Lowered(bh, x, s), o, None)
  {
    var bh2 := Lowered(bh, x, s);
    var l := a[o].left;
    var rr := a[o].right;
    if l.Some? { NephewKid(a, order, info, root, bh, x, r, s, o, LEFT); }
    if rr.Some? { NephewKid(a, order, info, root, bh, x, r, s, o, RIGHT); }
    assert BhOk(a, bh, o);
    LinkShade(a, bh, b, bh2, l);
    LinkShade(a, bh, b, bh2, rr);
  }

  /** Outer nephew: `x`, now black, holds the short link and the inner nephew, both one level below `x`'s old height. */
  lemma OuterRedX(a: Arena, order: seq<nat>, info: map<nat, Info>, root: NodeRef, bh: map<nat, nat>, x: nat, r: Rela, s: nat, o: nat, b: Arena)
    requires Short(a, order, info, root, bh, x, r) && Sib(a, order, info, bh, x, r, s) && Kin(a, order, info, x, r, s)
    requires a[s].color != RED && a[s].Next(r.Toggle()) == Some(o) && OuterRedSeen(a, b, x, r, s, o)
    ensures NodeOk(b, Lowered(bh, x, s), x, None)
  {
    var bh2 := Lowered(bh, x, s);
    var w := a[x].Next(r);
    var i := a[s].Next(r);
    LinkShade(a, bh, b, bh2, w);
    LinkShade(a, bh, b, bh2, i);
    assert Bhc(a, bh, i) == bh[s] by {
      if r == LEFT { assert a[s].left == i; } else { assert a[s].right == i; }
    }
    if r == LEFT { assert b[x].left == w && b[x].right == i; } else { assert b[x].right == w && b[x].left == i; }
  }

  /** Outer nephew: `s`, of the colour `x` had, sits over the black `x` and `o`. */
  lemma OuterRedS(a: Arena, order: seq<nat>, info: map<nat, Info>, root: NodeRef, bh: map<nat, nat>, x: nat, r: Rela, s: nat, o: nat, b: Arena)
    requires Short(a, order, info, root, bh, x, r) && Sib(a, order, info, bh, x, r, s) && Kin(a, order, info, x, r, s)
    requires a[s].color != RED && a[s].Next(r.Toggle()) == Some(o) && a[o].color == RED && OuterRedSeen(a, b, x, r, s, o)
    ensures NodeOk(b, Lowered(bh, x, s), s, None)
  {
    var bh2 := Lowered(bh, x, s);
    assert Bhc(a, bh, Some(o)) == bh[s] by {
      if r == LEFT { assert a[s].right == Some(o); } else { assert a[s].left == Some(o); }
    }
    assert ColorOk(a, x);
    assert Bhc(b, bh2, Some(x)) == bh[x] && Bhc(b, bh2, Some(o)) == bh[x];
    if r == LEFT { assert b[s].left == Some(x) && b[s].right == Some(o); } else { assert b[s].right == Some(x) && b[s].left == Some(o); }
  }

  /** Outer nephew: the parent of `x` now holds `s`, which carries the colour and black count `x` carried. */
  lemma OuterRedQ(a: Arena, order: seq<nat>, info: map<nat, Info>, root: NodeRef, bh: map<nat, nat>, x: nat, r: Rela, s: nat, o: nat, b: Arena)
    requires Short(a, order, info, root, bh, x, r) && Sib(a, order, info, bh, x, r, s) && Kin(a, order, info, x, r, s)
    requires a[s].color != RED && a[s].Next(r.Toggle()) == Some(o) && OuterRedSeen(a, b, x, r, s, o) && a[x].parent.Some?
    ensures var q := a[x].parent.value; NodeOk(b, Lowered(bh, x, s), q, None)
  {
    var bh2 := Lowered(bh, x, s);
    assert Bhc(b, bh2, Some(s)) == Bhc(a, bh, Some(x));
    TopSwapped(a, order, info, root, bh, x, r, s, b, bh2, s);
  }

  lemma OuterRedRegion(a: Arena, order: seq<nat>, info: map<nat, Info>, root: NodeRef, bh: map<nat, nat>, x: nat, r: Rela, s: nat, o: nat, b: Arena)
    requires Short(a, order, info, root, bh, x, r) && Sib(a, order, info, bh, x, r, s) && Kin(a, order, info, x, r, s)
    requires a[s].color != RED && a[s].Next(r.Toggle()) == Some(o) && a[o].color == RED && OuterRedSeen(a, b, x, r, s, o)
    ensures Region(a, b, bh, Lowered(bh, x, s), {x, s, o} + Up(a[x].parent), x, None)
  {
    OuterRedO(a, order, info, root, bh, x, r, s, o, b);
    OuterRedX(a, order, info, root, bh, x, r, s, o, b);
    OuterRedS(a, order, info, root, bh, x, r, s, o, b);
    if a[x].parent.Some? {
      OuterRedQ(a, order, info, root, bh, x, r, s, o, b);
    }
    RegionTriple(a, b, bh, Lowered(bh, x, s), x, s, o, None);
  }

  lemma OuterRedShade(a: Arena, order: seq<nat>, info: map<nat, Info>, root: NodeRef, bh: map<nat, nat>, x: nat, r: Rela, s: nat, o: nat,
                      b: Arena, root2: NodeRef)
    requires Short(a, order, info, root, bh, x, r) && Sib(a, order, info, bh, x, r, s) && Kin(a, order, info, x, r, s)
    requires a[s].color != RED && a[s].Next(r.Toggle()) == Some(o) && a[o].color == RED && OuterRedSeen(a, b, x, r, s, o)
    requires root2 == if a[x].parent.None? then Some(s) else root
    ensures RedBlack(b, root2, Lowered(bh, x, s))
  {
    var T := {x, s, o} + Up(a[x].parent);
    OuterRedRegion(a, order, info, root, bh, x, r, s, o, b);
    LoweredKept(bh, x, s, T);
    assert a[x].parent.None? ==> a[x].color == BLACK;
    SettleRb(a, order, info, root, bh, x, r, b, Lowered(bh, x, s), T, s, root2);
  }

  /**
   * `rasie` with a black brother `s` whose outer child `o` is red: `s`
   * rotates over `x` and takes the colour of `x`, and `x` and `o` are painted
   * black. The tree is red-black again.
   */
  method OuterRed(a: Arena, root: NodeRef, x: nat, r: Rela, ghost order: seq<nat>, ghost info: map<nat, Info>, ghost bh: map<nat, nat>)
    returns (b: Arena, root2: NodeRef, ghost info2: map<nat, Info>)
    requires Short(a, order, info, root, bh, x, r)
    requires a[x].Next(r.Toggle()).Some? && a[x].Next(r.Toggle()).value in a
    requires var s := a[x].Next(r.Toggle()).value; var o := a[s].Next(r.Toggle());
      a[s].color != RED && o.Some? && o.value in a && a[o.value].color == RED
    ensures SameKeys(a, b) && Linked(b, order, info2) && RootOk(b, root2, order, info2)
    ensures RedBlack(b, root2, Lowered(bh, x, a[x].Next(r.Toggle()).value))
  {
    var s := a[x].Next(r.Toggle()).value;
    var o := a[s].Next(r.Toggle()).value;
    SibOf(a, order, info, root, bh, x, r);
    KinOf(a, order, info, root, bh, x, r, s);
    var cx := a[x].color;
    var b1, r1 := SingleRotate(a, root, s, order, info, x, a[s].Next(r), a[x].parent);
    info2 := RotatedInfo(info, s, x, r.Toggle());
    PaintLinked(b1, order, info2, r1, s, cx);
    var b2 := Repaint(b1, s, cx);
    PaintLinked(b2, order, info2, r1, x, BLACK);
    var b3 := Repaint(b2, x, BLACK);
    PaintLinked(b3, order, info2, r1, o, BLACK);
    b := Repaint(b3, o, BLACK);
    root2 := r1;
    SameKeysTrans(a, b1, b2);
    SameKeysTrans(a, b2, b3);
    SameKeysTrans(a, b3, b);
    OuterRedView(a, x, r, s, o, cx, b1, b2, b3, b);
    OuterRedShade(a, order, info, root, bh, x, r, s, o, b, root2);
  }

  /**
   * The records after the inner-nephew case: the inner nephew `i` has the
   * colour `x` had and sits over `x` and `s`; the black `x` holds the short
   * link and the inner child of `i`, `s` holds the outer child of `i` and
   * its own outer child; the parent of `x` holds `i` instead.
   */
  ghost predicate InnerRedSeen(a: Arena, b: Arena, x: nat, r: Rela, s: nat, i: nat) {
    && x in a && s in a && i in a && r != PARENT && b.Keys == a.Keys
    && var t := r.Toggle();
    && var q := a[x].parent;
    && b[i].color == a[x].color && b[i].Next(r) == Some(x) && b[i].Next(t) == Some(s)
    && b[x].color == BLACK && b[x].Next(r) == a[x].Next(r) && b[x].Next(t) == a[i].Next(r)
    && b[s].color == a[s].color && b[s].Next(r) == a[i].Next(t) && b[s].Next(t) == a[s].Next(t)
    && (q.Some? ==> (q.value in a && a[x].rela != PARENT && b[q.value].color == a[q.value].color
                     && b[q.value].Next(a[x].rela) == Some(i) && b[q.value].Next(a[x].rela.Toggle()) == a[q.value].Next(a[x].rela.Toggle())))
    && KeptOutside(a, b, {x, s, i} + Up(q))
  }

  /** The handles the two rotations of the inner-nephew case touch are distinct where they must be. */
  ghost predicate InnerApart(a: Arena, x: nat, r: Rela, s: nat, i: nat) {
    && x in a && s in a && i in a && r != PARENT
    && var t := r.Toggle();
    && var ir := a[i].Next(r);
    && var it := a[i].Next(t);
    && var q := a[x].parent;
    && x != s && x != i && s != i
    && a[x].Next(t) == Some(s) && a[s].Next(r) == Some(i) && a[s].rela == t && a[i].rela == r
    && a[s].parent == Some(x) && a[i].parent == Some(s)
    && (ir.Some? ==> ir.value in a && ir.value != x && ir.value != s && ir.value != i)
    && (it.Some? ==> it.value in a && it.value != x && it.value != s && it.value != i && (ir.Some? ==> ir.value != it.value))
    && (q.Some? ==> (q.value in a && q.value != x && q.value != s && q.value != i && a[x].rela != PARENT
                     && (ir.Some? ==> ir.value != q.value) && (it.Some? ==> it.value != q.value)))
  }

  lemma InnerApartOf(a: Arena, order: seq<nat>, info: map<nat, Info>, root: NodeRef, bh: map<nat, nat>, x: nat, r: Rela, s: nat, i: nat)
    requires Short(a, order, info, root, bh, x, r) && Sib(a, order, info, bh, x, r, s) && Kin(a, order, info, x, r, s)
    requires a[s].Next(r) == Some(i)
    ensures InnerApart(a, x, r, s, i)
  {
    if a[i].Next(r).Some? { NephewKid(a, order, info, root, bh, x, r, s, i, r); }
    if a[i].Next(r.Toggle()).Some? { NephewKid(a, order, info, root, bh, x, r, s, i, r.Toggle()); }
  }

  /**
   * The records after the first rotation of the inner-nephew case: `i` has
   * moved into the slot of `s` under `x`, with `s` below it holding the
   * outer child of `i`.
   */
  ghost predicate InnerFirstSeen(a: Arena, b1: Arena, x: nat, r: Rela, s: nat, i: nat) {
    && x in a && s in a && i in a && r != PARENT && b1.Keys == a.Keys
    && var t := r.Toggle();
    && var q := a[x].parent;
    && var ir := a[i].Next(r);
    && b1[i].color == a[i].color && b1[i].Next(r) == ir && b1[i].Next(t) == Some(s) && b1[i].parent == Some(x) && b1[i].rela == t
    && b1[x] == a[x].WithNext(t, Some(i))
    && b1[s].color == a[s].color && b1[s].Next(r) == a[i].Next(t) && b1[s].Next(t) == a[s].Next(t)
    && (ir.Some? ==> ir.value in a && b1[ir.value] == a[ir.value])
    && (q.Some? ==> q.value in a && b1[q.value] == a[q.value])
    && KeptOutside(a, b1, {x, s, i})
  }

  lemma InnerFirstView(a: Arena, x: nat, r: Rela, s: nat, i: nat, b1: Arena)
    requires InnerApart(a, x, r, s, i)
    requires b1.Keys == a.Keys && Rotated(a, b1, i, s, a[i].Next(r.Toggle()), Some(x)) && OthersKept(a, b1, i, s, a[i].Next(r.Toggle()), Some(x))
    ensures InnerFirstSeen(a, b1, x, r, s, i)
  {
    ToggleInvolution(r, RED);
    RotatedKept(a, b1, i, s, a[i].Next(r.Toggle()), Some(x));
    KeptTrans(a, b1, b1, {i, s} + Up(Some(x)), {}, {x, s, i});
  }

  /** The second rotation of the inner-nephew case and the repaints, seen as `InnerRedSeen`. */
  lemma InnerRedView(a: Arena, x: nat, r: Rela, s: nat, i: nat, cx: Color, b1: Arena, b2: Arena, b3: Arena, b: Arena)
    requires InnerApart(a, x, r, s, i) && cx == a[x].color && InnerFirstSeen(a, b1, x, r, s, i)
    requires a[i].Next(r).Some? ==> a[i].Next(r).value in b1
    requires b2.Keys == b1.Keys && Rotated(b1, b2, i, x, a[i].Next(r), a[x].parent) && OthersKept(b1, b2, i, x, a[i].Next(r), a[x].parent)
    requires b3 == Repaint(b2, i, cx) && b == Repaint(b3, x, BLACK)
    ensures InnerRedSeen(a, b, x, r, s, i)
  {
    var q := a[x].parent;
    ToggleInvolution(r, RED);
    RotatedKept(b1, b2, i, x, a[i].Next(r), q);
    PaintKept(b2, i, cx);
    PaintKept(b3, x, BLACK);
    KeptTrans(a, b1, b2, {x, s, i}, {i, x} + Up(q), {x, s, i} + Up(q));
    KeptTrans(a, b2, b3, {x, s, i} + Up(q), {i}, {x, s, i} + Up(q));
    KeptTrans(a, b3, b, {x, s, i} + Up(q), {x}, {x, s, i} + Up(q));
    assert b1[s] == b2[s];
  }

  /** The first rotation of the inner-nephew case: `i` over `s`. */
  method InnerFirst(a: Arena, root: NodeRef, x: nat, r: Rela, s: nat, i: nat, ghost order: seq<nat>, ghost info: map<nat, Info>)
    returns (b1: Arena, ghost info1: map<nat, Info>)
    requires Linked(a, order, info) && RootOk(a, root, order, info) && InnerApart(a, x, r, s, i)
    ensures SameKeys(a, b1) && Linked(b1, order, info1) && RootOk(b1, root, order, info1) && InnerFirstSeen(a, b1, x, r, s, i)
  {
    var r1;
    b1, r1 := SingleRotate(a, root, i, order, info, s, a[i].Next(r.Toggle()), Some(x));
    info1 := RotatedInfo(info, i, s, r);
    InnerFirstView(a, x, r, s, i, b1);
  }

  /** Inner nephew: `s` keeps its colour and holds the outer child of `i` and its own outer child. */
  lemma InnerRedS(a: Arena, order: seq<nat>, info: map<nat, Info>, root: NodeRef, bh: map<nat, nat>, x: nat, r: Rela, s: nat, i: nat, b: Arena)
    requires Short(a, order, info, root, bh, x, r) && Sib(a, order, info, bh, x, r, s) && Kin(a, order, info, x, r, s)
    requires a[s].color != RED && a[s].Next(r) == Some(i) && a[i].color == RED
    requires InnerApart(a, x, r, s, i) && InnerRedSeen(a, b, x, r, s, i)
    ensures NodeOk(b, Lowered(bh, x, i), s, None)
  {
    var bh2 := Lowered(bh, x, i);
    var t := r.Toggle();
    var it := a[i].Next(t);
    var o := a[s].Next(t);
    LinkShade(a, bh, b, bh2, it);
    LinkShade(a, bh, b, bh2, o);
    assert BhOk(a, bh, i) && RedOk(a, i);
    assert Bhc(a, bh, o) == bh[s] && Bhc(a, bh, Some(i)) == bh[s] by {
      if r == LEFT { assert a[s].right == o && a[s].left == Some(i); } else { assert a[s].left == o && a[s].right == Some(i); }
    }
    assert Bhc(a, bh, it) == bh[i] by {
      if r == LEFT { assert a[i].right == it; } else { assert a[i].left == it; }
    }
    if r == LEFT { assert b[s].left == it && b[s].right == o; } else { assert b[s].right == it && b[s].left == o; }
  }

  /** Inner nephew: `x`, now black, holds the short link and the inner child of `i`. */
  lemma InnerRedX(a: Arena, order: seq<nat>, info: map<nat, Info>, root: NodeRef, bh: map<nat, nat>, x: nat, r: Rela, s: nat, i: nat, b: Arena)
    requires Short(a, order, info, root, bh, x, r) && Sib(a, order, info, bh, x, r, s) && Kin(a, order, info, x, r, s)
    requires a[s].color != RED && a[s].Next(r) == Some(i) && a[i].color == RED
    requires InnerApart(a, x, r, s, i) && InnerRedSeen(a, b, x, r, s, i)
    ensures NodeOk(b, Lowered(bh, x, i), x, None)
  {
    var bh2 := Lowered(bh, x, i);
    var w := a[x].Next(r);
    var ir := a[i].Next(r);
    LinkShade(a, bh, b, bh2, w);
    LinkShade(a, bh, b, bh2, ir);
    assert BhOk(a, bh, i);
    assert Bhc(a, bh, Some(i)) == bh[s] by {
      if r == LEFT { assert a[s].left == Some(i); } else { assert a[s].right == Some(i); }
    }
    assert Bhc(a, bh, ir) == bh[i] by {
      if r == LEFT { assert a[i].left == ir; } else { assert a[i].right == ir; }
    }
    if r == LEFT { assert b[x].left == w && b[x].right == ir; } else { assert b[x].right == w && b[x].left == ir; }
  }

  /** Inner nephew: `i`, of the colour `x` had, sits over the black `x` and `s`. */
  lemma InnerRedI(a: Arena, order: seq<nat>, info: map<nat, Info>, root: NodeRef, bh: map<nat, nat>, x: nat, r: Rela, s: nat, i: nat, b: Arena)
    requires Short(a, order, info, root, bh, x, r) && Sib(a, order, info, bh, x, r, s) && Kin(a, order, info, x, r, s)
    requires a[s].color != RED && a[s].Next(r) == Some(i) && a[i].color == RED
    requires InnerApart(a, x, r, s, i) && InnerRedSeen(a, b, x, r, s, i)
    ensures NodeOk(b, Lowered(bh, x, i), i, None)
  {
    var bh2 := Lowered(bh, x, i);
    assert ColorOk(a, x);
    assert Bhc(b, bh2, Some(x)) == bh[x] && Bhc(b, bh2, Some(s)) == bh[x];
    if r == LEFT { assert b[i].left == Some(x) && b[i].right == Some(s); } else { assert b[i].right == Some(x) && b[i].left == Some(s); }
  }

  /** Inner nephew: the parent of `x` now holds `i`, which carries the colour and black count `x` carried. */
  lemma InnerRedQ(a: Arena, order: seq<nat>, info: map<nat, Info>, root: NodeRef, bh: map<nat, nat>, x: nat, r: Rela, s: nat, i: nat, b: Arena)
    requires Short(a, order, info, root, bh, x, r) && Sib(a, order, info, bh, x, r, s) && Kin(a, order, info, x, r, s)
    requires a[s].color != RED && a[s].Next(r) == Some(i) && InnerApart(a, x, r, s, i) && InnerRedSeen(a, b, x, r, s, i)
    requires a[x].parent.Some?
    ensures var q := a[x].parent.value; NodeOk(b, Lowered(bh, x, i), q, None)
  {
    var bh2 := Lowered(bh, x, i);
    assert Bhc(b, bh2, Some(i)) == Bhc(a, bh, Some(x));
    TopSwapped(a, order, info, root, bh, x, r, s, b, bh2, i);
  }

  lemma InnerRedShade(a: Arena, order: seq<nat>, info: map<nat, Info>, root: NodeRef, bh: map<nat, nat>, x: nat, r: Rela, s: nat, i: nat,
                      b: Arena, root2: NodeRef)
    requires Short(a, order, info, root, bh, x, r) && Sib(a, order, info, bh, x, r, s) && Kin(a, order, info, x, r, s)
    requires a[s].color != RED && a[s].Next(r) == Some(i) && a[i].color == RED
    requires InnerApart(a, x, r, s, i) && InnerRedSeen(a, b, x, r, s, i)
    requires root2 == if a[x].parent.None? then Some(i) else root
    ensures RedBlack(b, root2, Lowered(bh, x, i))
  {
    var T := {x, s, i} + Up(a[x].parent);
    var bh2 := Lowered(bh, x, i);
    InnerRedS(a, order, info, root, bh, x, r, s, i, b);
    InnerRedX(a, order, info, root, bh, x, r, s, i, b);
    InnerRedI(a, order, info, root, bh, x, r, s, i, b);
    if a[x].parent.Some? {
      InnerRedQ(a, order, info, root, bh, x, r, s, i, b);
    }
    RegionTriple(a, b, bh, bh2, x, s, i, None);
    LoweredKept(bh, x, i, T);
    assert a[x].parent.None? ==> a[x].color == BLACK;
    SettleRb(a, order, info, root, bh, x, r, b, bh2, T, i, root2);
  }

  /**
   * `rasie` with a black brother `s` whose inner child `i` is red: `i`
   * rotates over `s` and then over `x`, takes the colour of `x`, and `x` is
   * painted black. The tree is red-black again.
   */
  method InnerRed(a: Arena, root: NodeRef, x: nat, r: Rela, ghost order: seq<nat>, ghost info: map<nat, Info>, ghost bh: map<nat, nat>)
    returns (b: Arena, root2: NodeRef, ghost info2: map<nat, Info>)
    requires Short(a, order, info, root, bh, x, r)
    requires a[x].Next(r.Toggle()).Some? && a[x].Next(r.Toggle()).value in a
    requires var s := a[x].Next(r.Toggle()).value; var i := a[s].Next(r);
      a[s].color != RED && i.Some? && i.value in a && a[i.value].color == RED
    ensures SameKeys(a, b) && Linked(b, order, info2) && RootOk(b, root2, order, info2)
    ensures RedBlack(b, root2, Lowered(bh, x, a[a[x].Next(r.Toggle()).value].Next(r).value))
  {
    var s := a[x].Next(r.Toggle()).value;
    var i := a[s].Next(r).value;
    SibOf(a, order, info, root, bh, x, r);
    KinOf(a, order, info, root, bh, x, r, s);
    InnerApartOf(a, order, info, root, bh, x, r, s, i);
    var cx := a[x].color;
    ghost var info1;
    var b1;
    b1, info1 := InnerFirst(a, root, x, r, s, i, order, info);
    ToggleInvolution(r, RED);
    var b2, r2 := SingleRotate(b1, root, i, order, info1, x, a[i].Next(r), a[x].parent);
    info2 := RotatedInfo(info1, i, x, r.Toggle());
    PaintLinked(b2, order, info2, r2, i, cx);
    var b3 := Repaint(b2, i, cx);
    PaintLinked(b3, order, info2, r2, x, BLACK);
    b := Repaint(b3, x, BLACK);
    root2 := r2;
    SameKeysTrans(a, b1, b2);
    SameKeysTrans(a, b2, b3);
    SameKeysTrans(a, b3, b);
    InnerRedView(a, x, r, s, i, cx, b1, b2, b3, b);
    InnerRedShade(a, order, info, root, bh, x, r, s, i, b, root2);
  }

  /** An upper bound of the recorded black heights. */
  ghost function MaxBh(bh: map<nat, nat>): (m: nat)
    ensures forall n :: n in bh ==> bh[n] <= m
    decreases |bh|
  {
    if bh == map[] then 0
    else
      var k :| k in bh;
      var m := MaxBh(bh - {k});
      assert forall n :: n in bh && n != k ==> n in bh - {k} && (bh - {k})[n] == bh[n];
      if bh[k] > m then bh[k] else m
  }

  /** Whether the brother of the short side `r` of `x` is red. */
  ghost function RedBrotherBit(a: Arena, x: nat, r: Rela): nat
    requires x in a
  {
    var s := a[x].Next(r.Toggle());
    if s.Some? && s.value in a && a[s.value].color == RED then 1 else 0
  }

  /**
   * `Node::rasie`: `x` is one black node short on side `r` and carries a
   * black height of at least 2, so the brother and, when the brother is
   * black, both nephews exist. The cases rotate and repaint; the black
   * brother without a red child moves the shortage to the parent of a black
   * `x` and recurses there, the red brother recurses on `x` once. Afterwards
   * the tree is red-black, with the same nodes, keys and in-order sequence.
   */
  method Rasie(a: Arena, root: NodeRef, x: nat, r: Rela, ghost order: seq<nat>, ghost info: map<nat, Info>,
               ghost bh: map<nat, nat>, ghost top: nat)
    returns (b: Arena, root2: NodeRef, ghost info2: map<nat, Info>, ghost bh2: map<nat, nat>)
    requires Short(a, order, info, root, bh, x, r) && bh[x] >= 2
    requires forall n :: n in bh ==> bh[n] <= top
    ensures SameKeys(a, b) && Linked(b, order, info2) && RootOk(b, root2, order, info2) && RedBlack(b, root2, bh2)
    decreases top - bh[x], RedBrotherBit(a, x, r), 1
  {
    SibOf(a, order, info, root, bh, x, r);
    var s := a[x].Next(r.Toggle()).value;
    assert ColorOk(a, s);
    if a[s].color == BLACK {
      b, root2, info2, bh2 := RasieBlack(a, root, x, r, order, info, bh, top);
    } else {
      var b1, r1, info1 := RedBrother(a, root, x, r, order, info, bh);
      b, root2, info2, bh2 := Rasie(b1, r1, x, r, order, info1, bh, top);
      SameKeysTrans(a, b1, b);
    }
  }

  /** The black-brother half of `rasie`: the outer nephew, the inner nephew, or neither is red. */
  method RasieBlack(a: Arena, root: NodeRef, x: nat, r: Rela, ghost order: seq<nat>, ghost info: map<nat, Info>,
                    ghost bh: map<nat, nat>, ghost top: nat)
    returns (b: Arena, root2: NodeRef, ghost info2: map<nat, Info>, ghost bh2: map<nat, nat>)
    requires Short(a, order, info, root, bh, x, r) && bh[x] >= 2
    requires a[x].Next(r.Toggle()).Some? && a[x].Next(r.Toggle()).value in a && a[a[x].Next(r.Toggle()).value].color == BLACK
    requires forall n :: n in bh ==> bh[n] <= top
    ensures SameKeys(a, b) && Linked(b, order, info2) && RootOk(b, root2, order, info2) && RedBlack(b, root2, bh2)
    decreases top - bh[x], 0, 0
  {
    var t := r.Toggle();
    var s := a[x].Next(t).value;
    SibOf(a, order, info, root, bh, x, r);
    assert a[s].Next(t).Some? && a[s].Next(r).Some? && a[s].Next(t).value in a && a[s].Next(r).value in a by {
      if r == LEFT { assert a[s].right == a[s].Next(t) && a[s].left == a[s].Next(r); }
      else { assert a[s].left == a[s].Next(t) && a[s].right == a[s].Next(r); }
    }
    var o := a[s].Next(t).value;
    var i := a[s].Next(r).value;
    if a[o].color == RED {
      b, root2, info2 := OuterRed(a, root, x, r, order, info, bh);
      bh2 := Lowered(bh, x, s);
    } else if a[i].color == RED {
      b, root2, info2 := InnerRed(a, root, x, r, order, info, bh);
      bh2 := Lowered(bh, x, i);
    } else {
      assert NotRed(a, a[s].left) && NotRed(a, a[s].right) by {
        if r == LEFT { assert a[s].right == Some(o) && a[s].left == Some(i); }
        else { assert a[s].left == Some(o) && a[s].right == Some(i); }
      }
      b := BlackBrother(a, root, x, r, order, info, bh);
      root2, info2, bh2 := root, info, bh[x := bh[x] - 1];
      assert LinkOk(a, order, info, x);
      if a[x].color == RED {
      } else if a[x].rela != PARENT {
        var b1 := b;
        b, root2, info2, bh2 := Rasie(b1, root, a[x].parent.value, a[x].rela, order, info, bh[x := bh[x] - 1], top);
        SameKeysTrans(a, b1, b);
      }
    }
  }
}
