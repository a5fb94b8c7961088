/**
 * `check`, the red-black validity checker used by the map's tests: an empty
 * map passes; otherwise the root must be black, and a walk over an explicit
 * stack of (link, black count above it) pairs checks that no red node has a
 * red child, that each child's key lies on its side of its parent's key,
 * and that every null link is reached with the same count of black nodes.
 * A failed assertion of the source is a `false` result here.
 */
module Checker {
  import opened Wrappers
  import opened Flag
  import opened Node
  import opened Rotation
  import Map

  /** A null link or a link to a black node. */
  predicate BlackLink(a: Arena, l: NodeRef)
    requires l.Some? ==> l.value in a
  {
    l.None? || a[l.value].color == BLACK
  }

  /**
   * The checks `check` makes at one node: a node that is not black has no
   * child that is not black, and the left child's key is below, the right
   * child's key above, the node's own key.
   */
  ghost predicate LocalOk(a: Arena, c: nat)
    requires c in a && (a[c].left.Some? ==> a[c].left.value in a) && (a[c].right.Some? ==> a[c].right.value in a)
  {
    && (a[c].color != BLACK ==> BlackLink(a, a[c].left) && BlackLink(a, a[c].right))
    && (a[c].left.Some? ==> a[a[c].left.value].key < a[c].key)
    && (a[c].right.Some? ==> a[c].key < a[a[c].right.value].key)
  }

  /** The children of a node of a linked arena are nodes with shorter segments. */
  lemma Kids(a: Arena, order: seq<nat>, info: map<nat, Info>, c: nat)
    requires Linked(a, order, info) && c in a
    ensures c in info && Size(info, c) >= 1
    ensures a[c].left.Some? ==> a[c].left.value in a && Size(info, a[c].left.value) < Size(info, c)
    ensures a[c].right.Some? ==> a[c].right.value in a && Size(info, a[c].right.value) < Size(info, c)
  {
    assert LinkOk(a, order, info, c);
    if a[c].left.Some? { ChildOf(a, order, info, c, LEFT); }
    if a[c].right.Some? { ChildOf(a, order, info, c, RIGHT); }
  }

  /** The length of the segment of a link, 0 for a null link. */
  ghost function LinkSize(a: Arena, info: map<nat, Info>, l: NodeRef): int {
    if l.Some? && l.value in info then Size(info, l.value) else 0
  }

  /**
   * The black counts with which the null links below `l` are reached, left
   * to right, when `h` black nodes lie above `l`.
   */
  ghost function Heights(a: Arena, order: seq<nat>, info: map<nat, Info>, l: NodeRef, h: nat): (s: seq<nat>)
    requires Linked(a, order, info) && (l.Some? ==> l.value in a)
    ensures |s| >= 1
    decreases LinkSize(a, info, l)
  {
    match l
    case None => [h]
    case Some(c) =>
      Kids(a, order, info, c);
      var h2 := if a[c].color == BLACK then h + 1 else h;
      Heights(a, order, info, a[c].left, h2) + Heights(a, order, info, a[c].right, h2)
  }

  /** Every node below `l` passes the local checks. */
  ghost predicate TreeOk(a: Arena, order: seq<nat>, info: map<nat, Info>, l: NodeRef)
    requires Linked(a, order, info) && (l.Some? ==> l.value in a)
    decreases LinkSize(a, info, l)
  {
    match l
    case None => true
    case Some(c) =>
      Kids(a, order, info, c);
      LocalOk(a, c) && TreeOk(a, order, info, a[c].left) && TreeOk(a, order, info, a[c].right)
  }

  /** All elements of `s` are equal. */
  ghost predicate Same(s: seq<nat>) {
    forall k :: 0 <= k < |s| ==> s[k] == s[0]
  }

  /** What `check` accepts: an empty tree, or a black root over a tree passing the local checks with equal black counts at all null links. */
  ghost predicate Accepted(a: Arena, order: seq<nat>, info: map<nat, Info>, root: NodeRef)
    requires Linked(a, order, info) && (root.Some? ==> root.value in a)
  {
    root.None? || (a[root.value].color == BLACK && TreeOk(a, order, info, root) && Same(Heights(a, order, info, root, 0)))
  }

  /** The stack's links are nodes of the arena. */
  ghost predicate InArena(a: Arena, stack: seq<(NodeRef, nat)>) {
    forall k :: 0 <= k < |stack| ==> stack[k].0.Some? ==> stack[k].0.value in a
  }

  /** The black counts still to be met, from the top of the stack (its last element) down. */
  ghost function Pending(a: Arena, order: seq<nat>, info: map<nat, Info>, stack: seq<(NodeRef, nat)>): seq<nat>
    requires Linked(a, order, info) && InArena(a, stack)
  {
    if stack == [] then []
    else
      var top := stack[|stack| - 1];
      Heights(a, order, info, top.0, top.1) + Pending(a, order, info, stack[..|stack| - 1])
  }

  /** Every link on the stack leads to a tree passing the local checks. */
  ghost predicate AllTreeOk(a: Arena, order: seq<nat>, info: map<nat, Info>, stack: seq<(NodeRef, nat)>)
    requires Linked(a, order, info) && InArena(a, stack)
  {
    forall k :: 0 <= k < |stack| ==> TreeOk(a, order, info, stack[k].0)
  }

  /** The work left below a link: two steps per node and one per null link. */
  ghost function Weight(a: Arena, info: map<nat, Info>, stack: seq<(NodeRef, nat)>): int {
    if stack == [] then 0 else Weight(a, info, stack[..|stack| - 1]) + 2 * LinkSize(a, info, stack[|stack| - 1].0) + 1
  }

  /** A node's weight is one more than its children's together. */
  lemma KidsWeight(a: Arena, order: seq<nat>, info: map<nat, Info>, c: nat)
    requires Linked(a, order, info) && c in a
    ensures 2 * LinkSize(a, info, a[c].left) + 1 + 2 * LinkSize(a, info, a[c].right) + 1 == 2 * Size(info, c)
  {
    assert LinkOk(a, order, info, c);
    Kids(a, order, info, c);
  }

  lemma WeightNonNeg(a: Arena, order: seq<nat>, info: map<nat, Info>, stack: seq<(NodeRef, nat)>)
    requires Linked(a, order, info) && InArena(a, stack)
    ensures Weight(a, info, stack) >= 0
  {
    if stack != [] {
      var top := stack[|stack| - 1].0;
      if top.Some? { Kids(a, order, info, top.value); }
      WeightNonNeg(a, order, info, stack[..|stack| - 1]);
    }
  }

  /** A non-empty stack is its rest followed by its top. */
  lemma LastSplit(s: seq<(NodeRef, nat)>)
    requires s != []
    ensures s == s[..|s| - 1] + [(s[|s| - 1].0, s[|s| - 1].1)]
  {
  }

  /** Popping the top of the stack: the rest of the stack carries the rest of the work. */
  lemma PopFacts(a: Arena, order: seq<nat>, info: map<nat, Info>, rest: seq<(NodeRef, nat)>, top: (NodeRef, nat))
    requires Linked(a, order, info) && InArena(a, rest + [top])
    ensures InArena(a, rest) && (top.0.Some? ==> top.0.value in a)
    ensures Pending(a, order, info, rest + [top]) == Heights(a, order, info, top.0, top.1) + Pending(a, order, info, rest)
    ensures AllTreeOk(a, order, info, rest + [top]) <==> TreeOk(a, order, info, top.0) && AllTreeOk(a, order, info, rest)
    ensures Weight(a, info, rest + [top]) == Weight(a, info, rest) + 2 * LinkSize(a, info, top.0) + 1
  {
    var s := rest + [top];
    assert s[..|s| - 1] == rest && s[|s| - 1] == top;
    assert forall k :: 0 <= k < |rest| ==> s[k] == rest[k];
  }

  /** Pushing the children of the node `c` taken from the top of the stack, right first, then left: the black counts to come. */
  lemma PushFacts(a: Arena, order: seq<nat>, info: map<nat, Info>, rest: seq<(NodeRef, nat)>, c: nat, h: nat, h2: nat)
    requires Linked(a, order, info) && InArena(a, rest) && c in a && h2 == if a[c].color == BLACK then h + 1 else h
    ensures InArena(a, rest + [(a[c].right, h2)]) && InArena(a, rest + [(a[c].right, h2), (a[c].left, h2)])
    ensures Pending(a, order, info, rest + [(a[c].right, h2), (a[c].left, h2)]) == Heights(a, order, info, Some(c), h) + Pending(a, order, info, rest)
  {
    Kids(a, order, info, c);
    var r := (a[c].right, h2);
    var l := (a[c].left, h2);
    var s := rest + [r, l];
    assert s == (rest + [r]) + [l];
    assert InArena(a, rest + [r]) && InArena(a, s) by {
      assert forall k :: 0 <= k < |rest| ==> s[k] == rest[k] && (rest + [r])[k] == rest[k];
    }
    PopFacts(a, order, info, rest + [r], l);
    PopFacts(a, order, info, rest, r);
  }

  /** Pushing the children of `c`: the trees still to check and the work left. */
  lemma PushRest(a: Arena, order: seq<nat>, info: map<nat, Info>, rest: seq<(NodeRef, nat)>, c: nat, h: nat, h2: nat)
    requires Linked(a, order, info) && c in a
    requires InArena(a, rest + [(a[c].right, h2)]) && InArena(a, rest + [(a[c].right, h2), (a[c].left, h2)])
    ensures (a[c].left.Some? ==> a[c].left.value in a) && (a[c].right.Some? ==> a[c].right.value in a) && InArena(a, rest)
    ensures AllTreeOk(a, order, info, rest + [(a[c].right, h2), (a[c].left, h2)]) <==>
      TreeOk(a, order, info, a[c].left) && TreeOk(a, order, info, a[c].right) && AllTreeOk(a, order, info, rest)
    ensures InArena(a, rest + [(Some(c), h)])
    ensures Weight(a, info, rest + [(a[c].right, h2), (a[c].left, h2)]) + 1 == Weight(a, info, rest + [(Some(c), h)])
  {
    Kids(a, order, info, c);
    KidsWeight(a, order, info, c);
    var r := (a[c].right, h2);
    var l := (a[c].left, h2);
    assert rest + [r, l] == (rest + [r]) + [l];
    PopFacts(a, order, info, rest + [r], l);
    PopFacts(a, order, info, rest, r);
    assert InArena(a, rest + [(Some(c), h)]) by {
      assert forall k :: 0 <= k < |rest| ==> (rest + [(Some(c), h)])[k] == rest[k];
    }
    PopFacts(a, order, info, rest, (Some(c), h));
  }

  /** In a red-black tree every null link below `l` is reached with the black count above `l` plus the black height `l` carries. */
  lemma {:induction false} HeightsBh(a: Arena, order: seq<nat>, info: map<nat, Info>, bh: map<nat, nat>, l: NodeRef, h: nat)
    requires Linked(a, order, info) && a.Keys == bh.Keys && AllColor(a) && AllBh(a, bh) && (l.Some? ==> l.value in a)
    ensures forall k :: 0 <= k < |Heights(a, order, info, l, h)| ==> Heights(a, order, info, l, h)[k] == h + Bhc(a, bh, l)
    decreases LinkSize(a, info, l)
  {
    if l.Some? {
      var c := l.value;
      Kids(a, order, info, c);
      assert BhOk(a, bh, c) && ColorOk(a, c);
      var h2 := if a[c].color == BLACK then h + 1 else h;
      HeightsBh(a, order, info, bh, a[c].left, h2);
      HeightsBh(a, order, info, bh, a[c].right, h2);
    }
  }

  /** A sorted tree with only red and black nodes and no red node over a red child passes the local checks everywhere. */
  lemma {:induction false} TreeOkValid(a: Arena, order: seq<nat>, info: map<nat, Info>, l: NodeRef)
    requires Linked(a, order, info) && Sorted(a, order) && AllColor(a) && AllRed(a) && (l.Some? ==> l.value in a)
    ensures TreeOk(a, order, info, l)
    decreases LinkSize(a, info, l)
  {
    if l.Some? {
      var c := l.value;
      Kids(a, order, info, c);
      assert LinkOk(a, order, info, c) && RedOk(a, c) && ColorOk(a, c);
      if a[c].left.Some? {
        var d := a[c].left.value;
        assert LinkOk(a, order, info, d) && ColorOk(a, d);
        assert KeyAt(a, order, info[d].pos) < KeyAt(a, order, info[c].pos);
      }
      if a[c].right.Some? {
        var d := a[c].right.value;
        assert LinkOk(a, order, info, d) && ColorOk(a, d);
        assert KeyAt(a, order, info[c].pos) < KeyAt(a, order, info[d].pos);
      }
      assert LocalOk(a, c);
      TreeOkValid(a, order, info, a[c].left);
      TreeOkValid(a, order, info, a[c].right);
    }
  }

  /** Every red-black tree the map keeps is accepted by `check`. */
  lemma ValidAccepted(a: Arena, root: NodeRef, order: seq<nat>, info: map<nat, Info>, bh: map<nat, nat>)
    requires Shaped(a, root, order, info) && RedBlack(a, root, bh)
    ensures Accepted(a, order, info, root)
  {
    if root.Some? {
      TreeOkValid(a, order, info, root);
      HeightsBh(a, order, info, bh, root, 0);
    }
  }

  /** The checks at one node, in the order `check` makes them: the colours of a red node's children, then the keys of the children. */
  method CheckNode(a: Arena, c: nat) returns (ok: bool)
    requires c in a && (a[c].left.Some? ==> a[c].left.value in a) && (a[c].right.Some? ==> a[c].right.value in a)
    ensures ok <==> LocalOk(a, c)
  {
    if a[c].color != BLACK && (!BlackLink(a, a[c].left) || !BlackLink(a, a[c].right)) {
      return false;
    }
    if a[c].left.Some? && !(a[c].key > a[a[c].left.value].key) {
      return false;
    }
    if a[c].right.Some? && !(a[c].key < a[a[c].right.value].key) {
      return false;
    }
    return true;
  }

  /**
   * `check` on a linked tree: the stack-driven walk returns true exactly
   * when the tree is accepted.
   */
  method CheckTree(a: Arena, root: NodeRef, ghost order: seq<nat>, ghost info: map<nat, Info>) returns (ok: bool)
    requires Linked(a, order, info) && RootOk(a, root, order, info)
    ensures ok <==> Accepted(a, order, info, root)
  {
    if root.None? {
      return true;
    }
    if a[root.value].color != BLACK {
      return false;
    }
    var maxHeight := 0;
    var stack := [(root, 0)];
    var endFlag := false;
    ghost var done: seq<nat> := [];
    assert Pending(a, order, info, stack) == Heights(a, order, info, root, 0) + Pending(a, order, info, []);
    while stack != []
      invariant InArena(a, stack)
      invariant Heights(a, order, info, root, 0) == done + Pending(a, order, info, stack)
      invariant TreeOk(a, order, info, root) <==> AllTreeOk(a, order, info, stack)
      invariant endFlag <==> |done| > 0
      invariant forall k :: 0 <= k < |done| ==> done[k] == maxHeight
      decreases Weight(a, info, stack)
    {
      WeightNonNeg(a, order, info, stack);
      ghost var s0 := stack;
      var node := stack[|stack| - 1].0;
      var height := stack[|stack| - 1].1;
      stack := stack[..|stack| - 1];
      LastSplit(s0);
      PopFacts(a, order, info, stack, (node, height));
      if node.None? {
        if endFlag {
          if height != maxHeight {
            assert Heights(a, order, info, root, 0)[|done|] == height;
            assert Heights(a, order, info, root, 0)[0] == maxHeight;
            return false;
          }
        } else {
          endFlag := true;
          maxHeight := height;
        }
        done := done + [height];
        continue;
      }
      var c := node.value;
      Kids(a, order, info, c);
      var local := CheckNode(a, c);
      if !local {
        assert !TreeOk(a, order, info, node);
        return false;
      }
      var h := if a[c].color == BLACK then height + 1 else height;
      PushFacts(a, order, info, stack, c, height, h);
      PushRest(a, order, info, stack, c, height, h);
      stack := stack + [(a[c].right, h), (a[c].left, h)];
    }
    return true;
  }

  /** `check` on a map: an empty map passes at once; every map keeping its invariant passes. */
  method Check<V>(t: Map.RBTreeMap<V>) returns (ok: bool)
    requires t.Valid()
    ensures ok
  {
    if t.length == 0 {
      return true;
    }
    ValidAccepted(t.mem.nodes, t.root, t.shape.order, t.shape.info, t.shape.bh);
    ok := CheckTree(t.mem.nodes, t.root, t.shape.order, t.shape.info);
  }
}
