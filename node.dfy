/**
 * Tree nodes and the node-level traversals.
 *
 * Nodes live in an arena: a map from handles to node records. A link
 * (`NodeRef`) is the handle of a live node or None. The ghost bookkeeping
 * describes the tree shape without recursion over the arena: `order` lists
 * the handles in key order, and every node records its position there and
 * the segment [lo, hi) of `order` that its subtree occupies. The local
 * conditions in `LinkOk` tie each node to its children's segments, so a
 * subtree is exactly the handles `order[lo..hi]`.
 */
module Node {
  import opened Wrappers
  import opened Flag

  /** A nullable link: the handle of a node, or None. */
  type NodeRef = Option<nat>

  /**
   * `Node { key_value, next: [left, right, parent], flag }` without the value:
   * the arena keeps the values of the nodes in a map of their own, beside the
   * structural records, so that relinking never touches them. The flag byte is
   * held decoded, as its relation and colour; `FlagByte` re-encodes it.
   */
  datatype Node = Node(key: int, left: NodeRef, right: NodeRef, parent: NodeRef, rela: Rela, color: Color) {

    /** `next[rela as usize]`: index 0 is the left child, 1 the right child, 2 the parent. */
    function Next(r: Rela): NodeRef {
      match r
      case LEFT => left
      case RIGHT => right
      case PARENT => parent
    }

    /** `next[rela as usize] = link` for a child slot. */
    function WithNext(r: Rela, link: NodeRef): (n: Node)
      requires r != PARENT
      ensures n.Next(r) == link && n.key == key && n.rela == rela && n.color == color && n.parent == parent
      ensures r == LEFT ==> n.left == link && n.right == right
      ensures r == RIGHT ==> n.right == link && n.left == left
    {
      if r == LEFT then this.(left := link) else this.(right := link)
    }

    /** `set_parent`: the parent link and the relation bits; everything else is kept. */
    function SetParent(p: NodeRef, r: Rela): (n: Node)
      ensures n.parent == p && n.rela == r && n.color == color
      ensures n.key == key && n.left == left && n.right == right
    {
      this.(parent := p, rela := r)
    }

    /** The colour setters (`set_red`, `set_black`, and `set_color` with the relation-preserving mask). */
    function Paint(c: Color): (n: Node)
      ensures n.color == c && n.rela == rela
      ensures n.key == key && n.left == left && n.right == right && n.parent == parent
    {
      this.(color := c)
    }

    /** `init_from` on the structural record: copies key and flag from `source`, keeps the links. */
    function InitFrom(source: Node): (n: Node)
      ensures n.key == source.key && n.rela == source.rela && n.color == source.color
      ensures n.left == left && n.right == right && n.parent == parent
    {
      this.(key := source.key, rela := source.rela, color := source.color)
    }

    /** The flag byte this node holds: it decodes back to the node's relation and colour. */
    function FlagByte(): (f: Flag)
      ensures f.WellFormed() && f.Rela() == rela && f.Color() == color
    {
      MakeFlag(rela, color)
    }
  }

  /**
   * `Node::new_in`: a zeroed allocation has null links and the zero flag,
   * that is a red left child; its key is written before it is used.
   */
  function Zeroed(): (n: Node)
    ensures n.left.None? && n.right.None? && n.parent.None?
    ensures n.color == NewFlag().Color() && n.rela == NewFlag().Rela()
  {
    Node(0, None, None, None, LEFT, RED)
  }

  type Arena = map<nat, Node>

  /** Ghost facts about one node: its in-order position and the segment [lo, hi) of its subtree. */
  datatype Info = Info(pos: nat, lo: nat, hi: nat)

  /** The child in slot `r` of node `i` is consistent with `i`: back link, relation bits, segment. */
  ghost predicate ChildOk(a: Arena, info: map<nat, Info>, i: nat, r: Rela)
    requires i in a && i in info
  {
    var f := info[i];
    match a[i].Next(r)
    case None =>
      (r == LEFT ==> f.lo == f.pos) && (r == RIGHT ==> f.hi == f.pos + 1)
    case Some(c) =>
      && c in a && c in info
      && a[c].parent == Some(i)
      && a[c].rela == r
      && (r == LEFT ==> info[c].lo == f.lo && info[c].hi == f.pos)
      && (r == RIGHT ==> info[c].lo == f.pos + 1 && info[c].hi == f.hi)
  }

  /** The parent of `i`, if any, points back at `i` in the slot its relation bits name. */
  ghost predicate ParentOk(a: Arena, i: nat)
    requires i in a
  {
    match a[i].parent
    case None => a[i].rela == PARENT
    case Some(p) => p in a && a[i].rela != PARENT && a[p].Next(a[i].rela) == Some(i)
  }

  /**
   * All local conditions of node `i`: it sits at its recorded position of
   * `order`, inside its segment, and is consistent with its children and parent.
   */
  ghost predicate LinkOk(a: Arena, order: seq<nat>, info: map<nat, Info>, i: nat) {
    && i in a && i in info
    && info[i].lo <= info[i].pos < info[i].hi <= |order|
    && order[info[i].pos] == i
    && ChildOk(a, info, i, LEFT)
    && ChildOk(a, info, i, RIGHT)
    && ParentOk(a, i)
  }

  /** `order` lists every node exactly once, and every node's local conditions hold. */
  ghost predicate Linked(a: Arena, order: seq<nat>, info: map<nat, Info>) {
    && a.Keys == info.Keys
    && (forall k :: 0 <= k < |order| ==> order[k] in a && info[order[k]].pos == k)
    && (forall i {:trigger LinkOk(a, order, info, i)} :: i in a ==> LinkOk(a, order, info, i))
  }

  /** The root link: None exactly for the empty tree; the root spans all of `order` and is the only parentless node. */
  ghost predicate RootOk(a: Arena, root: NodeRef, order: seq<nat>, info: map<nat, Info>)
    requires a.Keys == info.Keys
  {
    && (root.None? ==> |order| == 0)
    && (root.Some? ==>
          root.value in a && a[root.value].parent.None? && info[root.value].lo == 0 && info[root.value].hi == |order|)
    && (forall i :: i in a && a[i].parent.None? ==> root == Some(i))
  }

  /** The key at position `k` of `order`. */
  ghost function KeyAt(a: Arena, order: seq<nat>, k: nat): int
    requires k < |order| && order[k] in a
  {
    a[order[k]].key
  }

  /** Keys strictly increase along `order`: full binary-search-tree order. */
  ghost predicate Sorted(a: Arena, order: seq<nat>)
    requires forall k :: 0 <= k < |order| ==> order[k] in a
  {
    forall j, k :: 0 <= j < k < |order| ==> KeyAt(a, order, j) < KeyAt(a, order, k)
  }

  /** Two arenas hold the same handles with the same keys: relinking and repainting change neither. */
  ghost predicate SameKeys(a: Arena, b: Arena) {
    KeysOf(a) == KeysOf(b)
  }

  /** The key of every handle. */
  ghost function KeysOf(a: Arena): (m: map<nat, int>)
    ensures m.Keys == a.Keys
  {
    map i | i in a :: a[i].key
  }

  lemma SameKeysTrans(a: Arena, b: Arena, c: Arena)
    requires SameKeys(a, b) && SameKeys(b, c)
    ensures SameKeys(a, c)
  {
  }

  /** The key order along `order` depends only on the keys of the handles. */
  lemma SortedKept(a: Arena, b: Arena, order: seq<nat>)
    requires SameKeys(a, b) && forall k :: 0 <= k < |order| ==> order[k] in a
    requires Sorted(a, order)
    ensures Sorted(b, order)
  {
    forall j, k | 0 <= j < k < |order| ensures KeyAt(b, order, j) < KeyAt(b, order, k) {
      assert KeyAt(a, order, j) < KeyAt(a, order, k);
      assert KeysOf(a)[order[j]] == KeysOf(b)[order[j]] && KeysOf(a)[order[k]] == KeysOf(b)[order[k]];
    }
  }

  /** The shape of a binary search tree with parent links, described by `order` and `info`. */
  ghost predicate Shaped(a: Arena, root: NodeRef, order: seq<nat>, info: map<nat, Info>) {
    && Linked(a, order, info)
    && RootOk(a, root, order, info)
    && Sorted(a, order)
  }

  /**
   * A key strictly between the neighbours of gap `g` of the segment [lo, hi)
   * of a sorted `order` is below every key after the gap and above every key
   * before it.
   */
  lemma {:induction false} GapBounds(a: Arena, order: seq<nat>, lo: nat, g: nat, hi: nat, key: int)
    requires forall k :: 0 <= k < |order| ==> order[k] in a
    requires Sorted(a, order) && lo <= g <= hi <= |order|
    requires g == lo || a[order[g - 1]].key < key
    requires g == hi || key < a[order[g]].key
    ensures forall k :: lo <= k < g ==> a[order[k]].key < key
    ensures forall k :: g <= k < hi ==> key < a[order[k]].key
  {
    forall k | lo <= k < g ensures a[order[k]].key < key {
      if k < g - 1 {
        assert KeyAt(a, order, k) < KeyAt(a, order, g - 1);
      }
    }
    forall k | g <= k < hi ensures key < a[order[k]].key {
      if g < k {
        assert KeyAt(a, order, g) < KeyAt(a, order, k);
      }
    }
  }

  /** The handles of the subtree under `i`. */
  ghost function Subtree(order: seq<nat>, f: Info): set<nat>
    requires f.lo <= f.hi <= |order|
  {
    set k | f.lo <= k < f.hi :: order[k]
  }

  /**
   * Black count contributed by a link, given the recorded black height `bh` of
   * every node (the black nodes on a path from below the node to a null link):
   * 0 for null, the node's black height plus one if it is not red.
   */
  ghost function Bhc(a: Arena, bh: map<nat, nat>, r: NodeRef): nat {
    match r
    case None => 0
    case Some(c) =>
      if c in a && c in bh then bh[c] + (if a[c].color == RED then 0 else 1) else 0
  }

  /** A link that is null or leads to a node that is not red. */
  ghost predicate NotRed(a: Arena, r: NodeRef) {
    r.None? || (r.value in a && a[r.value].color != RED)
  }

  /** A tree node is red or black; ROOT is the header colour and never occurs in the tree. */
  ghost predicate ColorOk(a: Arena, i: nat)
    requires i in a
  {
    a[i].color == RED || a[i].color == BLACK
  }

  /** No red node has a red child. */
  ghost predicate RedOk(a: Arena, i: nat)
    requires i in a
  {
    a[i].color == RED ==> NotRed(a, a[i].left) && NotRed(a, a[i].right)
  }

  /** Both child links of `i` carry the black height recorded for `i`. */
  ghost predicate BhOk(a: Arena, bh: map<nat, nat>, i: nat)
    requires i in a && i in bh
  {
    Bhc(a, bh, a[i].left) == bh[i] && Bhc(a, bh, a[i].right) == bh[i]
  }

  /** The root, if any, is black. */
  ghost predicate RootBlack(a: Arena, root: NodeRef) {
    root.Some? ==> root.value in a && a[root.value].color == BLACK
  }

  ghost predicate AllColor(a: Arena) {
    forall i {:trigger ColorOk(a, i)} :: i in a ==> ColorOk(a, i)
  }

  ghost predicate AllRed(a: Arena) {
    forall i {:trigger RedOk(a, i)} :: i in a ==> RedOk(a, i)
  }

  ghost predicate AllBh(a: Arena, bh: map<nat, nat>) {
    forall i {:trigger BhOk(a, bh, i)} :: i in a && i in bh ==> BhOk(a, bh, i)
  }

  /**
   * The red-black conditions: black root, only red and black nodes, no red
   * node with a red child, and every path to a null link through the same
   * number of black nodes (witnessed by the recorded black heights).
   */
  ghost predicate RedBlack(a: Arena, root: NodeRef, bh: map<nat, nat>) {
    a.Keys == bh.Keys && RootBlack(a, root) && AllColor(a) && AllRed(a) && AllBh(a, bh)
  }

  /** `search` outcome: the node holding the key, or the last node visited and the empty side. */
  datatype SearchResult = Found(node: nat) | NotFound(node: nat, rela: Rela)

  /** The position in `order` where a key missing from the subtree of `x` would be inserted. */
  ghost function InsertPos(info: map<nat, Info>, r: SearchResult): nat
    requires r.NotFound? && r.node in info
  {
    if r.rela == LEFT then info[r.node].pos else info[r.node].pos + 1
  }

  /**
   * `search`: descend from `x` comparing keys. Either the key is found in the
   * subtree of `x`, or the walk stops at a node whose child on the returned side
   * is null, with LEFT exactly when the key is smaller than that node's key; the
   * key then lies strictly between the neighbours of the insertion position.
   */
  method Search(a: Arena, x: nat, key: int, ghost order: seq<nat>, ghost info: map<nat, Info>)
    returns (r: SearchResult)
    requires Linked(a, order, info) && Sorted(a, order) && x in a
    ensures LinkOk(a, order, info, x) && LinkOk(a, order, info, r.node)
    ensures r.node in a && info[x].lo <= info[r.node].pos < info[x].hi
    ensures r.Found? ==> a[r.node].key == key
    ensures r.NotFound? ==> r.rela != PARENT && a[r.node].Next(r.rela).None?
    ensures r.NotFound? ==> (r.rela == LEFT <==> key < a[r.node].key)
    ensures r.NotFound? ==> info[x].lo <= InsertPos(info, r) <= info[x].hi
    ensures r.NotFound? ==> forall k :: info[x].lo <= k < InsertPos(info, r) ==> a[order[k]].key < key
    ensures r.NotFound? ==> forall k :: InsertPos(info, r) <= k < info[x].hi ==> key < a[order[k]].key
  {
    var cur := x;
    assert LinkOk(a, order, info, x);
    while true
      invariant LinkOk(a, order, info, x) && LinkOk(a, order, info, cur)
      invariant info[x].lo <= info[cur].lo && info[cur].hi <= info[x].hi
      invariant info[cur].lo == info[x].lo || a[order[info[cur].lo - 1]].key < key
      invariant info[cur].hi == info[x].hi || key < a[order[info[cur].hi]].key
      decreases info[cur].hi - info[cur].lo
    {
      var n := a[cur];
      var rela;
      if key == n.key {
        return Found(cur);
      } else if key < n.key {
        rela := LEFT;
      } else {
        rela := RIGHT;
      }
      var next := n.Next(rela);
      if next.None? {
        r := NotFound(cur, rela);
        GapBounds(a, order, info[x].lo, InsertPos(info, r), info[x].hi, key);
        return;
      }
      cur := next.value;
      assert LinkOk(a, order, info, cur);
    }
  }

  /** `min`: follow left links from `x`; the result is the first node of the subtree, with no left child. */
  method Min(a: Arena, x: nat, ghost order: seq<nat>, ghost info: map<nat, Info>) returns (r: nat)
    requires Linked(a, order, info) && x in a
    ensures r in a && a[r].left.None?
    ensures LinkOk(a, order, info, x)
    ensures r == order[info[x].lo]
  {
    r := x;
    var next := a[x].left;
    while next.Some?
      invariant r in a && info[r].lo == info[x].lo && next == a[r].left
      decreases info[r].hi - info[r].lo
    {
      assert LinkOk(a, order, info, r);
      r := next.value;
      next := a[r].left;
    }
    assert LinkOk(a, order, info, r);
  }

  /** `max`: follow right links from `x`; the result is the last node of the subtree, with no right child. */
  method Max(a: Arena, x: nat, ghost order: seq<nat>, ghost info: map<nat, Info>) returns (r: nat)
    requires Linked(a, order, info) && x in a
    ensures r in a && a[r].right.None?
    ensures LinkOk(a, order, info, x)
    ensures r == order[info[x].hi - 1]
  {
    r := x;
    var next := a[x].right;
    while next.Some?
      invariant r in a && info[r].hi == info[x].hi && next == a[r].right
      decreases info[r].hi - info[r].lo
    {
      assert LinkOk(a, order, info, r);
      r := next.value;
      next := a[r].right;
    }
    assert LinkOk(a, order, info, r);
  }

  /**
   * `next_unchecked`: the in-order successor of any node but the last. Without
   * a right subtree it climbs while the node is a right child; the parent of
   * the first left child on the way is the successor.
   */
  method NextUnchecked(a: Arena, ghost root: NodeRef, x: nat, ghost order: seq<nat>, ghost info: map<nat, Info>)
    returns (r: NodeRef)
    requires Linked(a, order, info) && RootOk(a, root, order, info) && x in a
    requires LinkOk(a, order, info, x) && info[x].pos + 1 < |order|
    ensures r == Some(order[info[x].pos + 1])
  {
    assert LinkOk(a, order, info, x);
    if a[x].right.None? {
      if a[x].rela == LEFT {
        r := a[x].parent;
        assert LinkOk(a, order, info, r.value);
      } else {
        var node := a[x].parent.value;
        assert LinkOk(a, order, info, node) && info[node].hi == info[x].hi;
        while a[node].rela == RIGHT
          invariant node in a && info[node].hi == info[x].hi
          decreases |order| - (info[node].hi - info[node].lo)
        {
          assert LinkOk(a, order, info, node);
          node := a[node].parent.value;
          assert LinkOk(a, order, info, node);
        }
        assert LinkOk(a, order, info, node);
        assert a[node].rela == LEFT;
        r := a[node].parent;
        assert LinkOk(a, order, info, r.value);
      }
    } else {
      var m := Min(a, a[x].right.value, order, info);
      r := Some(m);
    }
  }

  /** `next_back_unchecked`: the in-order predecessor of any node but the first (the mirror image). */
  method NextBackUnchecked(a: Arena, ghost root: NodeRef, x: nat, ghost order: seq<nat>, ghost info: map<nat, Info>)
    returns (r: NodeRef)
    requires Linked(a, order, info) && RootOk(a, root, order, info) && x in a
    requires LinkOk(a, order, info, x) && 0 < info[x].pos
    ensures r == Some(order[info[x].pos - 1])
  {
    assert LinkOk(a, order, info, x);
    if a[x].left.None? {
      if a[x].rela == RIGHT {
        r := a[x].parent;
        assert LinkOk(a, order, info, r.value);
      } else {
        var node := a[x].parent.value;
        assert LinkOk(a, order, info, node) && info[node].lo == info[x].lo;
        while a[node].rela == LEFT
          invariant node in a && info[node].lo == info[x].lo
          decreases |order| - (info[node].hi - info[node].lo)
        {
          assert LinkOk(a, order, info, node);
          node := a[node].parent.value;
          assert LinkOk(a, order, info, node);
        }
        assert LinkOk(a, order, info, node);
        assert a[node].rela == RIGHT;
        r := a[node].parent;
        assert LinkOk(a, order, info, r.value);
      }
    } else {
      var m := Max(a, a[x].left.value, order, info);
      r := Some(m);
    }
  }
}
