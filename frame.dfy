/**
 * Frame reasoning for arena updates. The link and colour conditions of a
 * node read only its own record and info and a few fields of its
 * neighbours; an update that keeps those fields keeps the conditions. Every
 * structural operation proves the touched nodes directly and the rest here.
 */
module Frame {
  import opened Wrappers
  import opened Flag
  import opened Node

  /** The fields of the child behind `link` that its parent's link conditions read are kept. */
  ghost predicate ChildKept(a: Arena, info: map<nat, Info>, a2: Arena, info2: map<nat, Info>, link: NodeRef) {
    link.Some? && link.value in a && link.value in info ==>
      && link.value in a2 && link.value in info2
      && a2[link.value].parent == a[link.value].parent
      && a2[link.value].rela == a[link.value].rela
      && info2[link.value].lo == info[link.value].lo
      && info2[link.value].hi == info[link.value].hi
  }

  /** The parent of `i` still points at `i` through the same slot. */
  ghost predicate ParentKept(a: Arena, a2: Arena, i: nat)
    requires i in a
  {
    a[i].parent.Some? && a[i].parent.value in a ==>
      && a[i].parent.value in a2
      && a2[a[i].parent.value].Next(a[i].rela) == a[a[i].parent.value].Next(a[i].rela)
  }

  /** An untouched node whose neighbours keep the fields it reads keeps its link conditions. */
  lemma LinkOkKept(a: Arena, order: seq<nat>, info: map<nat, Info>, a2: Arena, info2: map<nat, Info>, i: nat)
    requires LinkOk(a, order, info, i)
    requires i in a2 && a2[i] == a[i] && i in info2 && info2[i] == info[i]
    requires ChildKept(a, info, a2, info2, a[i].left) && ChildKept(a, info, a2, info2, a[i].right)
    requires ParentKept(a, a2, i)
    ensures LinkOk(a2, order, info2, i)
  {
  }

  /** The colour-relevant fields of the child behind `link` are kept: redness and black height. */
  ghost predicate ShadeKept(a: Arena, bh: map<nat, nat>, a2: Arena, bh2: map<nat, nat>, link: NodeRef) {
    link.Some? ==>
      && (link.value in a <==> link.value in a2)
      && (link.value in bh <==> link.value in bh2)
      && (link.value in a && link.value in a2 ==> (a2[link.value].color == RED) == (a[link.value].color == RED))
      && (link.value in bh && link.value in bh2 ==> bh2[link.value] == bh[link.value])
  }

  /** Node `i` keeps its colour, its children and its black height. */
  ghost predicate ShadeSame(a: Arena, bh: map<nat, nat>, a2: Arena, bh2: map<nat, nat>, i: nat) {
    && i in a && i in bh && i in a2 && i in bh2
    && a2[i].color == a[i].color && a2[i].left == a[i].left && a2[i].right == a[i].right
    && bh2[i] == bh[i]
  }

  /** A node that keeps its shade, and whose children keep their redness and black height, keeps its colour conditions. */
  lemma ShadeKeptLemma(a: Arena, bh: map<nat, nat>, a2: Arena, bh2: map<nat, nat>, i: nat)
    requires ShadeSame(a, bh, a2, bh2, i)
    requires ShadeKept(a, bh, a2, bh2, a[i].left) && ShadeKept(a, bh, a2, bh2, a[i].right)
    ensures ColorOk(a, i) ==> ColorOk(a2, i)
    ensures RedOk(a, i) ==> RedOk(a2, i)
    ensures BhOk(a, bh, i) ==> BhOk(a2, bh2, i)
  {
    assert Bhc(a, bh, a[i].left) == Bhc(a2, bh2, a2[i].left);
    assert Bhc(a, bh, a[i].right) == Bhc(a2, bh2, a2[i].right);
  }

  /**
   * The conditions at the edge of a set `t` of rewritten nodes: every node
   * outside `t` keeps its record and info, a rewritten node keeps the fields
   * its untouched parent reads, and a slot of a rewritten node that held an
   * untouched child still holds it.
   */
  ghost predicate Boundary(a: Arena, info: map<nat, Info>, a2: Arena, info2: map<nat, Info>, t: set<nat>) {
    OutsideKept(a, info, a2, info2, t) && TopKept(a, info, a2, info2, t) && SlotsKept(a, a2, t)
  }

  /** Every node outside `t` keeps its record and info. */
  ghost predicate OutsideKept(a: Arena, info: map<nat, Info>, a2: Arena, info2: map<nat, Info>, t: set<nat>) {
    forall i :: i in a && i !in t ==> i in a2 && i in info && i in info2 && a2[i] == a[i] && info2[i] == info[i]
  }

  /** A node of `t` whose parent is outside `t` keeps its parent, relation and segment. */
  ghost predicate TopKept(a: Arena, info: map<nat, Info>, a2: Arena, info2: map<nat, Info>, t: set<nat>) {
    forall c :: c in t && c in a && c in a2 && c in info && c in info2 && a[c].parent.Some? && a[c].parent.value !in t ==>
      a2[c].parent == a[c].parent && a2[c].rela == a[c].rela && info2[c].lo == info[c].lo && info2[c].hi == info[c].hi
  }

  /** A slot of a node of `t` that held a node outside `t` still holds it. */
  ghost predicate SlotsKept(a: Arena, a2: Arena, t: set<nat>) {
    && (forall p :: p in t && p in a && p in a2 && a[p].left.Some? && a[p].left.value !in t ==> a2[p].left == a[p].left)
    && (forall p :: p in t && p in a && p in a2 && a[p].right.Some? && a[p].right.value !in t ==> a2[p].right == a[p].right)
  }

  /**
   * Linked is kept by an update that re-establishes the link conditions of a
   * set `t` of rewritten nodes and keeps the boundary of `t`.
   */
  lemma LinkedKept(a: Arena, order: seq<nat>, info: map<nat, Info>, a2: Arena, info2: map<nat, Info>, t: set<nat>)
    requires Linked(a, order, info)
    requires a2.Keys == a.Keys && info2.Keys == info.Keys
    requires forall i :: i in info2 ==> info2[i].pos == info[i].pos
    requires forall i :: i in t ==> LinkOk(a2, order, info2, i)
    requires Boundary(a, info, a2, info2, t)
    ensures Linked(a2, order, info2)
  {
    forall i | i in a2
      ensures LinkOk(a2, order, info2, i)
    {
      if i !in t {
        assert LinkOk(a, order, info, i);
        if a[i].parent.Some? {
          assert LinkOk(a, order, info, a[i].parent.value);
        }
        LinkOkKept(a, order, info, a2, info2, i);
      }
    }
  }

  /**
   * The colour conditions of the nodes outside a set `t` of rewritten nodes
   * are kept when those nodes keep their shade and every node of `t` whose
   * parent is outside `t` keeps its colour and black height.
   */
  lemma ShadeOutside(a: Arena, order: seq<nat>, info: map<nat, Info>, bh: map<nat, nat>, a2: Arena, bh2: map<nat, nat>, t: set<nat>)
    requires Linked(a, order, info)
    requires a2.Keys == a.Keys && bh.Keys == a.Keys && bh2.Keys == a.Keys
    requires forall i :: i in a && i !in t ==> ShadeSame(a, bh, a2, bh2, i)
    requires forall c :: c in t && c in a && a[c].parent.Some? && a[c].parent.value !in t ==> a2[c].color == a[c].color && bh2[c] == bh[c]
    ensures forall i :: i in a && i !in t ==>
      && (ColorOk(a, i) ==> ColorOk(a2, i))
      && (RedOk(a, i) ==> RedOk(a2, i))
      && (BhOk(a, bh, i) ==> BhOk(a2, bh2, i))
  {
    forall i | i in a && i !in t
      ensures (ColorOk(a, i) ==> ColorOk(a2, i)) && (RedOk(a, i) ==> RedOk(a2, i)) && (BhOk(a, bh, i) ==> BhOk(a2, bh2, i))
    {
      assert LinkOk(a, order, info, i);
      ShadeKeptLemma(a, bh, a2, bh2, i);
    }
  }

  /**
   * The colour conditions after an update that rewrites the shades of the
   * nodes of `t` only: they hold outside `t` by the frame, and the colour and
   * black-height conditions are established for `t` directly.
   */
  lemma ShadeFrom(a: Arena, order: seq<nat>, info: map<nat, Info>, bh: map<nat, nat>, a2: Arena, bh2: map<nat, nat>, t: set<nat>)
    requires Linked(a, order, info)
    requires a2.Keys == a.Keys && bh.Keys == a.Keys && bh2.Keys == a.Keys
    requires AllColor(a) && AllBh(a, bh) && forall i {:trigger RedOk(a, i)} :: i in a && i !in t ==> RedOk(a, i)
    requires forall i :: i in a && i !in t ==> ShadeSame(a, bh, a2, bh2, i)
    requires forall c :: c in t && c in a && a[c].parent.Some? && a[c].parent.value !in t ==> a2[c].color == a[c].color && bh2[c] == bh[c]
    requires forall i :: i in t ==> i in a2 && i in bh2 && ColorOk(a2, i) && BhOk(a2, bh2, i)
    ensures AllColor(a2) && AllBh(a2, bh2)
    ensures forall i {:trigger RedOk(a2, i)} :: i in a2 && i !in t ==> RedOk(a2, i)
  {
    ShadeOutside(a, order, info, bh, a2, bh2, t);
    forall i | i in a2 ensures ColorOk(a2, i) && BhOk(a2, bh2, i) && (i !in t ==> RedOk(a2, i)) {
      if i !in t {
        assert ColorOk(a, i) && RedOk(a, i) && BhOk(a, bh, i);
      }
    }
  }

  /** As `ShadeFrom`, with the red condition and the black root established as well: the tree is red-black. */
  lemma RedBlackFrom(a: Arena, order: seq<nat>, info: map<nat, Info>, bh: map<nat, nat>, a2: Arena, bh2: map<nat, nat>, root2: NodeRef, t: set<nat>)
    requires Linked(a, order, info)
    requires a2.Keys == a.Keys && bh.Keys == a.Keys && bh2.Keys == a.Keys
    requires AllColor(a) && AllBh(a, bh) && forall i {:trigger RedOk(a, i)} :: i in a && i !in t ==> RedOk(a, i)
    requires forall i :: i in a && i !in t ==> ShadeSame(a, bh, a2, bh2, i)
    requires forall c :: c in t && c in a && a[c].parent.Some? && a[c].parent.value !in t ==> a2[c].color == a[c].color && bh2[c] == bh[c]
    requires forall i :: i in t ==> i in a2 && i in bh2 && ColorOk(a2, i) && RedOk(a2, i) && BhOk(a2, bh2, i)
    requires RootBlack(a2, root2)
    ensures RedBlack(a2, root2, bh2)
  {
    ShadeFrom(a, order, info, bh, a2, bh2, t);
    assert forall i {:trigger RedOk(a2, i)} :: i in a2 ==> RedOk(a2, i);
  }

  /** Repainting one node keeps the arena linked, the root link right and the keys. */
  lemma PaintLinked(a: Arena, order: seq<nat>, info: map<nat, Info>, root: NodeRef, x: nat, c: Color)
    requires Linked(a, order, info) && RootOk(a, root, order, info) && x in a
    ensures Linked(a[x := a[x].Paint(c)], order, info) && RootOk(a[x := a[x].Paint(c)], root, order, info)
    ensures SameKeys(a, a[x := a[x].Paint(c)])
  {
    var a2 := a[x := a[x].Paint(c)];
    forall i | i in a2 ensures LinkOk(a2, order, info, i) {
      assert LinkOk(a, order, info, i);
      PaintLinkOk(a, order, info, x, c, i);
    }
    PaintSameKeys(a, x, c);
  }

  /** Repainting a node changes no link condition: they read links, relations and segments only. */
  lemma PaintLinkOk(a: Arena, order: seq<nat>, info: map<nat, Info>, x: nat, c: Color, i: nat)
    requires x in a && LinkOk(a, order, info, i)
    ensures LinkOk(a[x := a[x].Paint(c)], order, info, i)
  {
  }

  /** Repainting keeps every key. */
  lemma PaintSameKeys(a: Arena, x: nat, c: Color)
    requires x in a
    ensures SameKeys(a, a[x := a[x].Paint(c)])
  {
    assert KeysOf(a) == KeysOf(a[x := a[x].Paint(c)]);
  }

  /** `b` differs from `a` in colours only. */
  ghost predicate Repainted(a: Arena, b: Arena) {
    a.Keys == b.Keys && forall i :: i in a ==> b[i] == a[i].Paint(b[i].color)
  }

  /** Repainting any set of nodes keeps the arena linked, the root link right and the keys. */
  lemma RepaintedLinked(a: Arena, order: seq<nat>, info: map<nat, Info>, root: NodeRef, b: Arena)
    requires Linked(a, order, info) && RootOk(a, root, order, info) && Repainted(a, b)
    ensures Linked(b, order, info) && RootOk(b, root, order, info) && SameKeys(a, b)
  {
    forall i | i in b ensures LinkOk(b, order, info, i) {
      assert LinkOk(a, order, info, i);
      RepaintedLinkOk(a, order, info, b, i);
    }
    RepaintedKeys(a, b);
  }

  /** Repainting keeps every key. */
  lemma RepaintedKeys(a: Arena, b: Arena)
    requires Repainted(a, b)
    ensures SameKeys(a, b)
  {
    assert KeysOf(a) == KeysOf(b);
  }

  lemma RepaintedLinkOk(a: Arena, order: seq<nat>, info: map<nat, Info>, b: Arena, i: nat)
    requires Repainted(a, b) && LinkOk(a, order, info, i)
    ensures LinkOk(b, order, info, i)
  {
    assert b[i] == a[i].Paint(b[i].color);
    if a[i].left.Some? { assert b[a[i].left.value] == a[a[i].left.value].Paint(b[a[i].left.value].color); }
    if a[i].right.Some? { assert b[a[i].right.value] == a[a[i].right.value].Paint(b[a[i].right.value].color); }
    if a[i].parent.Some? { assert b[a[i].parent.value] == a[a[i].parent.value].Paint(b[a[i].parent.value].color); }
  }
}
