/**
 * Double-ended in-order iterators over the nodes of a map.
 *
 * An iterator keeps a lazy point at each end: `Ready(root)` before the first
 * step from that end, `Moving(node)` once that end has yielded `node`. A step
 * from the front goes to the root's minimum or to the successor of the last
 * node yielded, a step from the back to the root's maximum or to the
 * predecessor. The count of items still to come stops both ends before they
 * cross, so the successor and predecessor are only asked for where they exist.
 *
 * A `&mut V` handed out by `IterMut` is modelled by the handle of the node,
 * through which the map's value store is written.
 */
module Iteration {
  import opened Wrappers
  import opened Node
  import opened Contents

  /** `LazyPoint`: an end that has not moved yet, or the node it yielded last. */
  datatype LazyPoint = Ready(root: NodeRef) | Moving(node: nat)

  /**
   * The state both iterator kinds share: of the nodes in `order`, `taken` have
   * left from the front and `takenBack` from the back; `length` are to come.
   */
  ghost predicate Cursor(a: Arena, root: NodeRef, order: seq<nat>, info: map<nat, Info>,
                         front: LazyPoint, back: LazyPoint, length: nat, taken: nat, takenBack: nat)
  {
    Shaped(a, root, order, info) && Ends(root, order, front, back, length, taken, takenBack)
  }

  /** Each end is at the root before it moves, else at the last node it yielded. */
  ghost predicate Ends(root: NodeRef, order: seq<nat>, front: LazyPoint, back: LazyPoint, length: nat, taken: nat, takenBack: nat) {
    && taken + takenBack + length == |order|
    && front == (if taken == 0 then Ready(root) else Moving(order[taken - 1]))
    && back == (if takenBack == 0 then Ready(root) else Moving(order[|order| - takenBack]))
  }

  /** The handles still to come, in key order. */
  ghost function Between(order: seq<nat>, taken: nat, takenBack: nat): (s: seq<nat>)
    requires taken + takenBack <= |order|
    ensures |s| == |order| - taken - takenBack
  {
    order[taken .. |order| - takenBack]
  }

  /** The pairs along a segment of `order` are that segment of the pairs along `order`. */
  lemma ItemsOfSlice<V>(a: Arena, vals: map<nat, V>, order: seq<nat>, lo: nat, hi: nat)
    requires forall k :: 0 <= k < |order| ==> order[k] in a && order[k] in vals
    requires lo <= hi <= |order|
    ensures ItemsOf(a, vals, order[lo..hi]) == ItemsOf(a, vals, order)[lo..hi]
  {
    var s := ItemsOf(a, vals, order[lo..hi]);
    var t := ItemsOf(a, vals, order)[lo..hi];
    assert |s| == |t|;
    forall k | 0 <= k < |s| ensures s[k] == t[k] {
      assert order[lo..hi][k] == order[lo + k];
    }
  }

  /** The keys along a segment of a sorted `order` strictly increase. */
  lemma BetweenIncreasing<V>(a: Arena, vals: map<nat, V>, order: seq<nat>, taken: nat, takenBack: nat)
    requires forall k :: 0 <= k < |order| ==> order[k] in a && order[k] in vals
    requires Sorted(a, order) && taken + takenBack <= |order|
    ensures Increasing(ItemsOf(a, vals, Between(order, taken, takenBack)))
  {
    ItemsIncreasing(a, vals, order);
    ItemsOfSlice(a, vals, order, taken, |order| - takenBack);
  }

  /** A step from the front yields the first pair still to come and leaves the rest. */
  lemma FrontItems<V>(a: Arena, vals: map<nat, V>, order: seq<nat>, taken: nat, takenBack: nat)
    requires forall k :: 0 <= k < |order| ==> order[k] in a && order[k] in vals
    requires taken + takenBack < |order|
    ensures var s := ItemsOf(a, vals, Between(order, taken, takenBack));
      && s[0] == (a[order[taken]].key, vals[order[taken]])
      && ItemsOf(a, vals, Between(order, taken + 1, takenBack)) == s[1..]
  {
    var o := Between(order, taken, takenBack);
    assert Between(order, taken + 1, takenBack) == o[1..];
    ItemsOfSlice(a, vals, o, 1, |o|);
  }

  /** A step from the back yields the last pair still to come and leaves the rest. */
  lemma BackItems<V>(a: Arena, vals: map<nat, V>, order: seq<nat>, taken: nat, takenBack: nat)
    requires forall k :: 0 <= k < |order| ==> order[k] in a && order[k] in vals
    requires taken + takenBack < |order|
    ensures var s := ItemsOf(a, vals, Between(order, taken, takenBack));
      && s[|s| - 1] == (a[order[|order| - takenBack - 1]].key, vals[order[|order| - takenBack - 1]])
      && ItemsOf(a, vals, Between(order, taken, takenBack + 1)) == s[..|s| - 1]
  {
    var o := Between(order, taken, takenBack);
    assert Between(order, taken, takenBack + 1) == o[..|o| - 1];
    ItemsOfSlice(a, vals, o, 0, |o| - 1);
  }

  /** A step from the back: the back end is at the node it yielded, one more item has left from the back. */
  lemma EndsBack(root: NodeRef, order: seq<nat>, front: LazyPoint, back: LazyPoint, length: nat, taken: nat, takenBack: nat, n: nat)
    requires Ends(root, order, front, back, length, taken, takenBack) && length > 0 && n == order[|order| - takenBack - 1]
    ensures Ends(root, order, front, Moving(n), length - 1, taken, takenBack + 1)
  {
  }

  /** The node the front end moves to: the minimum of the root on its first step, else the successor of the node it yielded last. */
  method StepFront(a: Arena, ghost root: NodeRef, p: LazyPoint, ghost order: seq<nat>, ghost info: map<nat, Info>, ghost taken: nat)
    returns (n: nat)
    requires Linked(a, order, info) && RootOk(a, root, order, info) && taken < |order|
    requires p == (if taken == 0 then Ready(root) else Moving(order[taken - 1]))
    ensures n == order[taken]
  {
    match p
    case Ready(r) =>
      n := Min(a, r.value, order, info);
    case Moving(b) =>
      assert LinkOk(a, order, info, b);
      var next := NextUnchecked(a, root, b, order, info);
      n := next.value;
  }

  /** The node the back end moves to: the maximum of the root on its first step, else the predecessor of the node it yielded last. */
  method StepBack(a: Arena, ghost root: NodeRef, p: LazyPoint, ghost order: seq<nat>, ghost info: map<nat, Info>, ghost takenBack: nat)
    returns (n: nat)
    requires Linked(a, order, info) && RootOk(a, root, order, info) && takenBack < |order|
    requires p == (if takenBack == 0 then Ready(root) else Moving(order[|order| - takenBack]))
    ensures n == order[|order| - takenBack - 1]
  {
    match p
    case Ready(r) =>
      n := Max(a, r.value, order, info);
    case Moving(e) =>
      assert LinkOk(a, order, info, e);
      var prev := NextBackUnchecked(a, root, e, order, info);
      n := prev.value;
  }

  /** `Iter`: yields the key-value pairs of a map in key order, from either end. */
  class Iter<V> {
    const nodes: Arena
    const vals: map<nat, V>
    ghost const root: NodeRef
    ghost const order: seq<nat>
    ghost const info: map<nat, Info>
    var front: LazyPoint
    var back: LazyPoint
    var length: nat
    ghost var taken: nat
    ghost var takenBack: nat

    ghost predicate Valid()
      reads this
    {
      Cursor(nodes, root, order, info, front, back, length, taken, takenBack) && vals.Keys == nodes.Keys
    }

    /** The pairs still to come, in strictly increasing key order. */
    ghost function Remaining(): (s: seq<(int, V)>)
      reads this
      requires Valid()
      ensures |s| == length && Increasing(s)
    {
      BetweenIncreasing(nodes, vals, order, taken, takenBack);
      ItemsOf(nodes, vals, Between(order, taken, takenBack))
    }

    /** The iterator over `order` with `taken` and `takenBack` items already gone: the struct literal both constructors and `clone` build. */
    constructor Resume(nodes: Arena, vals: map<nat, V>, ghost root: NodeRef, ghost order: seq<nat>, ghost info: map<nat, Info>,
                       front: LazyPoint, back: LazyPoint, length: nat, ghost taken: nat, ghost takenBack: nat)
      requires Cursor(nodes, root, order, info, front, back, length, taken, takenBack) && vals.Keys == nodes.Keys
      ensures Valid() && Remaining() == ItemsOf(nodes, vals, Between(order, taken, takenBack))
      ensures this.nodes == nodes && this.vals == vals && this.root == root && this.order == order && this.info == info
      ensures this.front == front && this.back == back && this.length == length
    {
      this.nodes, this.vals, this.root, this.order, this.info := nodes, vals, root, order, info;
      this.front, this.back, this.length := front, back, length;
      this.taken, this.takenBack := taken, takenBack;
    }

    /** `Iter::new(root, length)`: both ends wait at the root; every pair of the map is to come. */
    constructor New(nodes: Arena, vals: map<nat, V>, root: NodeRef, length: nat, ghost order: seq<nat>, ghost info: map<nat, Info>)
      requires Shaped(nodes, root, order, info) && vals.Keys == nodes.Keys && length == |order|
      ensures Valid() && Remaining() == ItemsOf(nodes, vals, order)
      ensures this.nodes == nodes && this.vals == vals && this.length == length
    {
      this.nodes, this.vals, this.root, this.order, this.info := nodes, vals, root, order, info;
      front, back, this.length := Ready(root), Ready(root), length;
      taken, takenBack := 0, 0;
      new;
      assert Between(order, 0, 0) == order;
    }

    /** `Iter::new_empty`: both ends wait at a null root; nothing is to come. */
    constructor NewEmpty()
      ensures Valid() && Remaining() == [] && length == 0 && nodes == map[] && vals == map[]
    {
      nodes, vals, root, order, info := map[], map[], None, [], map[];
      front, back, length := Ready(None), Ready(None), 0;
      taken, takenBack := 0, 0;
    }

    /** `next`: the first pair still to come, which is then gone; None once nothing is left. */
    method Next() returns (r: Option<(int, V)>)
      requires Valid()
      modifies this
      ensures Valid()
      ensures old(length) == 0 ==> r.None? && Remaining() == old(Remaining())
      ensures old(length) > 0 ==> r == Some(old(Remaining())[0]) && Remaining() == old(Remaining())[1..]
    {
      if length == 0 {
        return None;
      }
      var n := StepFront(nodes, root, front, order, info, taken);
      FrontItems(nodes, vals, order, taken, takenBack);
      front := Moving(n);
      length := length - 1;
      taken := taken + 1;
      r := Some((nodes[n].key, vals[n]));
    }

    /** `next_back`: the last pair still to come, which is then gone; None once nothing is left. */
    method NextBack() returns (r: Option<(int, V)>)
      requires Valid()
      modifies this
      ensures Valid()
      ensures old(length) == 0 ==> r.None? && Remaining() == old(Remaining())
      ensures old(length) > 0 ==> r == Some(old(Remaining())[old(length) - 1]) && Remaining() == old(Remaining())[..old(length) - 1]
    {
      if length == 0 {
        return None;
      }
      var n := StepBack(nodes, root, back, order, info, takenBack);
      BackItems(nodes, vals, order, taken, takenBack);
      EndsBack(root, order, front, back, length, taken, takenBack, n);
      back := Moving(n);
      length := length - 1;
      takenBack := takenBack + 1;
      r := Some((nodes[n].key, vals[n]));
    }

    /** `size_hint`: exact, both bounds are the number of pairs still to come. */
    function SizeHint(): (h: (nat, Option<nat>))
      reads this
      requires Valid()
      ensures h == (|Remaining()|, Some(|Remaining()|))
    {
      (length, Some(length))
    }

    /** `len`: the number of pairs still to come. */
    function Len(): (n: nat)
      reads this
      requires Valid()
      ensures n == |Remaining()|
    {
      length
    }

    /** `last`: the last pair still to come, without consuming it. */
    method Last() returns (r: Option<(int, V)>)
      requires Valid()
      ensures length == 0 ==> r.None?
      ensures length > 0 ==> r == Some(Remaining()[length - 1])
    {
      if length == 0 {
        return None;
      }
      var n := StepBack(nodes, root, back, order, info, takenBack);
      r := Some((nodes[n].key, vals[n]));
    }

    /** `min`: the least pair still to come, which is the first one. */
    method Min() returns (r: Option<(int, V)>)
      requires Valid()
      ensures length == 0 ==> r.None?
      ensures length > 0 ==> r == Some(Remaining()[0])
      ensures r.Some? ==> forall p :: p in Remaining() ==> r.value.0 <= p.0
    {
      if length == 0 {
        return None;
      }
      var n := StepFront(nodes, root, front, order, info, taken);
      r := Some((nodes[n].key, vals[n]));
    }

    /** `max`: the greatest pair still to come, which is the last one. */
    method Max() returns (r: Option<(int, V)>)
      requires Valid()
      ensures length == 0 ==> r.None?
      ensures length > 0 ==> r == Some(Remaining()[length - 1])
      ensures r.Some? ==> forall p :: p in Remaining() ==> p.0 <= r.value.0
    {
      r := Last();
    }

    /** `clone`: an independent iterator at the same two ends. */
    method Clone() returns (c: Iter<V>)
      requires Valid()
      ensures fresh(c) && c.Valid() && c.Remaining() == Remaining()
    {
      c := new Iter.Resume(nodes, vals, root, order, info, front, back, length, taken, takenBack);
    }
  }

  /** `IterMut`: yields each key with write access to its value, in key order, from either end. */
  class IterMut<V> {
    const nodes: Arena
    const vals: map<nat, V>
    ghost const root: NodeRef
    ghost const order: seq<nat>
    ghost const info: map<nat, Info>
    var front: LazyPoint
    var back: LazyPoint
    var length: nat
    ghost var taken: nat
    ghost var takenBack: nat

    ghost predicate Valid()
      reads this
    {
      Cursor(nodes, root, order, info, front, back, length, taken, takenBack) && vals.Keys == nodes.Keys
    }

    /** The handles still to come: live nodes in strictly increasing key order. */
    ghost function Handles(): (s: seq<nat>)
      reads this
      requires Valid()
      ensures |s| == length
      ensures forall k :: 0 <= k < |s| ==> s[k] in nodes
      ensures forall j, k :: 0 <= j < k < |s| ==> nodes[s[j]].key < nodes[s[k]].key
    {
      var s := Between(order, taken, takenBack);
      forall j, k | 0 <= j < k < |s| ensures nodes[s[j]].key < nodes[s[k]].key {
        assert s[j] == order[taken + j] && s[k] == order[taken + k];
        assert KeyAt(nodes, order, taken + j) < KeyAt(nodes, order, taken + k);
      }
      s
    }

    /** `IterMut::new(root, length)`: both ends wait at the root; every node of the map is to come. */
    constructor New(nodes: Arena, vals: map<nat, V>, root: NodeRef, length: nat, ghost order: seq<nat>, ghost info: map<nat, Info>)
      requires Shaped(nodes, root, order, info) && vals.Keys == nodes.Keys && length == |order|
      ensures Valid() && Handles() == order
      ensures this.nodes == nodes && this.vals == vals && this.length == length
    {
      this.nodes, this.vals, this.root, this.order, this.info := nodes, vals, root, order, info;
      front, back, this.length := Ready(root), Ready(root), length;
      taken, takenBack := 0, 0;
      new;
      assert Between(order, 0, 0) == order;
    }

    /** `IterMut::new_empty`: both ends wait at a null root; nothing is to come. */
    constructor NewEmpty()
      ensures Valid() && Handles() == [] && length == 0 && nodes == map[] && vals == map[]
    {
      nodes, vals, root, order, info := map[], map[], None, [], map[];
      front, back, length := Ready(None), Ready(None), 0;
      taken, takenBack := 0, 0;
    }

    /** `next`: the key and value handle of the first node still to come, which is then gone. */
    method Next() returns (r: Option<(int, nat)>)
      requires Valid()
      modifies this
      ensures Valid()
      ensures old(length) == 0 ==> r.None? && Handles() == old(Handles())
      ensures old(length) > 0 ==> r == Some((nodes[old(Handles())[0]].key, old(Handles())[0])) && Handles() == old(Handles())[1..]
    {
      if length == 0 {
        return None;
      }
      var n := StepFront(nodes, root, front, order, info, taken);
      front := Moving(n);
      length := length - 1;
      taken := taken + 1;
      r := Some((nodes[n].key, n));
      assert Between(order, taken, takenBack) == Between(order, taken - 1, takenBack)[1..];
    }

    /** `next_back`: the key and value handle of the last node still to come, which is then gone. */
    method NextBack() returns (r: Option<(int, nat)>)
      requires Valid()
      modifies this
      ensures Valid()
      ensures old(length) == 0 ==> r.None? && Handles() == old(Handles())
      ensures old(length) > 0 ==>
        r == Some((nodes[old(Handles())[old(length) - 1]].key, old(Handles())[old(length) - 1]))
        && Handles() == old(Handles())[..old(length) - 1]
    {
      if length == 0 {
        return None;
      }
      var n := StepBack(nodes, root, back, order, info, takenBack);
      back := Moving(n);
      length := length - 1;
      takenBack := takenBack + 1;
      r := Some((nodes[n].key, n));
      assert Between(order, taken, takenBack) == Between(order, taken, takenBack - 1)[..length];
    }

    /** `size_hint`: exact, both bounds are the number of nodes still to come. */
    function SizeHint(): (h: (nat, Option<nat>))
      reads this
      requires Valid()
      ensures h == (|Handles()|, Some(|Handles()|))
    {
      (length, Some(length))
    }

    /** `len`: the number of nodes still to come. */
    function Len(): (n: nat)
      reads this
      requires Valid()
      ensures n == |Handles()|
    {
      length
    }

    /** `last`: the key and value handle of the last node still to come. */
    method Last() returns (r: Option<(int, nat)>)
      requires Valid()
      ensures length == 0 ==> r.None?
      ensures length > 0 ==> r == Some((nodes[Handles()[length - 1]].key, Handles()[length - 1]))
    {
      if length == 0 {
        return None;
      }
      var n := StepBack(nodes, root, back, order, info, takenBack);
      r := Some((nodes[n].key, n));
    }

    /** `min`: the node of least key still to come, which is the first one. */
    method Min() returns (r: Option<(int, nat)>)
      requires Valid()
      ensures length == 0 ==> r.None?
      ensures length > 0 ==> r == Some((nodes[Handles()[0]].key, Handles()[0]))
      ensures r.Some? ==> forall h :: h in Handles() ==> r.value.0 <= nodes[h].key
    {
      if length == 0 {
        return None;
      }
      var n := StepFront(nodes, root, front, order, info, taken);
      r := Some((nodes[n].key, n));
    }

    /** `max`: the node of greatest key still to come, which is the last one. */
    method Max() returns (r: Option<(int, nat)>)
      requires Valid()
      ensures length == 0 ==> r.None?
      ensures length > 0 ==> r == Some((nodes[Handles()[length - 1]].key, Handles()[length - 1]))
      ensures r.Some? ==> forall h :: h in Handles() ==> nodes[h].key <= r.value.0
    {
      r := Last();
    }

    /** `IterMut::iter`: a shared iterator over the same nodes still to come. */
    method Iter() returns (it: Iter<V>)
      requires Valid()
      ensures fresh(it) && it.Valid() && it.Remaining() == ItemsOf(nodes, vals, Handles())
    {
      it := new Iter.Resume(nodes, vals, root, order, info, front, back, length, taken, takenBack);
    }
  }

  /**
   * `len() == len() && zip(..).all(==)` over two entry iterators: true
   * exactly when they yield the same pairs.
   */
  method AllEqual<V(==)>(it1: Iter<V>, it2: Iter<V>) returns (b: bool)
    requires it1.Valid() && it2.Valid() && it1 != it2
    modifies it1, it2
    ensures b <==> old(it1.Remaining()) == old(it2.Remaining())
  {
    if it1.Len() != it2.Len() {
      return false;
    }
    ghost var s1, s2 := it1.Remaining(), it2.Remaining();
    ghost var i := 0;
    while true
      invariant it1.Valid() && it2.Valid()
      invariant i <= |s1| == |s2| && it1.length == it2.length == |s1| - i
      invariant it1.Remaining() == s1[i..] && it2.Remaining() == s2[i..]
      invariant forall k :: 0 <= k < i ==> s1[k] == s2[k]
      decreases |s1| - i
    {
      var a, c := NextPair(it1, it2);
      if a.None? || c.None? {
        assert s1 == s2;
        return true;
      }
      assert a.value == s1[i] && c.value == s2[i];
      if a.value != c.value {
        return false;
      }
      assert s1[i..][1..] == s1[i + 1..] && s2[i..][1..] == s2[i + 1..];
      i := i + 1;
    }
  }

  /** One step of the `zip` in `AllEqual`: both iterators, of equal length, yield their next pair. */
  method NextPair<V>(it1: Iter<V>, it2: Iter<V>) returns (a: Option<(int, V)>, c: Option<(int, V)>)
    requires it1.Valid() && it2.Valid() && it1 != it2 && it1.length == it2.length
    modifies it1, it2
    ensures it1.Valid() && it2.Valid() && it1.length == it2.length
    ensures old(it1.length) == 0 ==> a.None? && c.None?
    ensures old(it1.length) > 0 ==> a == Some(old(it1.Remaining())[0]) && c == Some(old(it2.Remaining())[0])
    ensures old(it1.length) > 0 ==> it1.Remaining() == old(it1.Remaining())[1..] && it2.Remaining() == old(it2.Remaining())[1..]
  {
    a := it1.Next();
    c := it2.Next();
  }
}
