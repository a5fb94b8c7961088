/**
 * `RBTreeMap`: an ordered map from integer keys to values on a red-black
 * tree. The tree's records live in an arena owned by the map; `root` is the
 * explicit root link and `length` the number of entries. Fresh handles come
 * from a counter, so a handle is never reused while its node is live.
 */
module Map {
  import opened Wrappers
  import opened Flag
  import opened Node
  import opened Contents
  import opened Insertion
  import opened Rotation
  import opened Walk
  import opened KeySort
  import opened Removal
  import opened RemoveFix
  import Iteration
  import MapValues

  /** `NodeDesc`: the outcome of `raw_search`. */
  datatype NodeDesc = Found(node: nat) | NotFound(at: Vacancy)

  /** `Entry`: an occupied entry holds the node of the key; a vacant one the key and where it goes. */
  datatype Entry = Occupied(node: nat) | Vacant(key: int, at: Vacancy)

  /** The pairs after a vacant insertion: the new pair at the vacancy's position. */
  lemma ModelInserted<V>(a: Arena, vals: map<nat, V>, order: seq<nat>, info: map<nat, Info>, root: NodeRef,
                         b: Arena, k: nat, n: nat, key: int, v: V)
    requires Linked(a, order, info) && Sorted(a, order) && vals.Keys == a.Keys && n !in a
    requires k <= |order|
    requires forall j :: 0 <= j < k ==> a[order[j]].key < key
    requires forall j :: k <= j < |order| ==> key < a[order[j]].key
    requires KeysOf(b) == KeysOf(a)[n := key]
    ensures var o := InsertedOrder(order, k, n);
      && (forall j :: 0 <= j < |o| ==> o[j] in b && o[j] in vals[n := v])
      && ToMap(ItemsOf(b, vals[n := v], o)) == ToMap(ItemsOf(a, vals, order))[key := v]
  {
    var o := InsertedOrder(order, k, n);
    var vals2 := vals[n := v];
    var s := ItemsOf(a, vals, order);
    assert forall j :: 0 <= j < |order| ==> order[j] in a && order[j] in vals by {
      forall j | 0 <= j < |order| ensures order[j] in a && order[j] in vals {
        assert order[j] in a;
      }
    }
    assert forall h :: h in a ==> b[h].key == KeysOf(b)[h] == a[h].key;
    assert b[n].key == KeysOf(b)[n] == key;
    var t := ItemsOf(b, vals2, o);
    forall j | 0 <= j < k ensures t[j] == s[j] {
      assert o[j] == order[j] != n;
    }
    forall j | k < j < |t| ensures t[j] == s[j - 1] {
      assert o[j] == order[j - 1] != n;
    }
    ItemsIncreasing(a, vals, order);
    ToMapInserted(s, t, k, key, v);
  }

  /** The memory a map owns: the arena of tree records and the value of each record. */
  datatype Mem<V> = Mem(nodes: Arena, vals: map<nat, V>)

  /** Ghost shape of a tree: the in-order handles, each node's segment, each node's black height. */
  datatype Shape = Shape(order: seq<nat>, info: map<nat, Info>, bh: map<nat, nat>)

  /** The map's invariant, over the values of its fields. */
  ghost predicate Inv<V>(mem: Mem<V>, root: NodeRef, length: nat, alloc: nat, shape: Shape)
  {
    && Shaped(mem.nodes, root, shape.order, shape.info) && RedBlack(mem.nodes, root, shape.bh)
    && mem.vals.Keys == mem.nodes.Keys && length == |shape.order|
    && (forall h :: h in mem.nodes ==> h < alloc)
  }

  /** The entries of a tree in ascending key order. */
  ghost function ItemsIn<V>(mem: Mem<V>, shape: Shape): seq<(int, V)>
    requires forall k :: 0 <= k < |shape.order| ==> shape.order[k] in mem.nodes && shape.order[k] in mem.vals
  {
    ItemsOf(mem.nodes, mem.vals, shape.order)
  }

  /** After `RawInsert` of the fresh handle `alloc` the invariant holds again and the map gains `key`. */
  lemma InsertedInv<V>(mem: Mem<V>, root: NodeRef, length: nat, alloc: nat, shape: Shape, at: Vacancy, key: int, v: V,
                       b: Arena, root2: NodeRef, shape2: Shape)
    requires Inv(mem, root, length, alloc, shape) && VacancyFor(mem.nodes, root, shape.order, shape.info, at, key)
    requires VacancyPos(shape.info, at) <= |shape.order| && shape2.order == InsertedOrder(shape.order, VacancyPos(shape.info, at), alloc)
    requires Shaped(b, root2, shape2.order, shape2.info) && RedBlack(b, root2, shape2.bh)
    requires KeysOf(b) == KeysOf(mem.nodes)[alloc := key]
    ensures Inv(Mem(b, mem.vals[alloc := v]), root2, length + 1, alloc + 1, shape2)
    ensures alloc in b && b[alloc].key == key && alloc !in mem.nodes
  {
    assert alloc !in mem.nodes;
    assert KeysOf(b)[alloc] == key;
    assert b.Keys == mem.nodes.Keys + {alloc} by {
      assert KeysOf(b).Keys == b.Keys && KeysOf(mem.nodes).Keys == mem.nodes.Keys;
    }
    assert mem.vals[alloc := v].Keys == b.Keys;
    assert |shape2.order| == length + 1;
  }

  /** `RawInsert` of the handle `alloc` at the vacancy, on the field values of a map. */
  method InsertAt<V>(mem: Mem<V>, root: NodeRef, length: nat, alloc: nat, ghost shape: Shape, at: Vacancy, key: int, v: V)
    returns (mem2: Mem<V>, root2: NodeRef, ghost shape2: Shape)
    requires Inv(mem, root, length, alloc, shape) && VacancyFor(mem.nodes, root, shape.order, shape.info, at, key)
    ensures Inv(mem2, root2, length + 1, alloc + 1, shape2)
    ensures ToMap(ItemsIn(mem2, shape2)) == ToMap(ItemsIn(mem, shape))[key := v]
    ensures alloc in mem2.nodes && mem2.nodes[alloc].key == key && mem2.vals[alloc] == v && alloc !in mem.nodes
  {
    var b;
    ghost var order2, info2, bh2;
    b, root2, order2, info2, bh2 := RawInsert(mem.nodes, root, at, alloc, key, shape.order, shape.info, shape.bh);
    shape2 := Shape(order2, info2, bh2);
    InsertedInv(mem, root, length, alloc, shape, at, key, v, b, root2, shape2);
    ModelInsertedAt(mem.nodes, mem.vals, shape.order, shape.info, root, at, b, alloc, key, v);
    mem2 := Mem(b, mem.vals[alloc := v]);
  }

  /** `raw_remove` of the node `n`, on the field values of a map: the map loses exactly the key of `n`. */
  method RemoveAt<V>(mem: Mem<V>, root: NodeRef, length: nat, alloc: nat, ghost shape: Shape, n: nat)
    returns (mem2: Mem<V>, root2: NodeRef, ghost shape2: Shape)
    requires Inv(mem, root, length, alloc, shape) && n in mem.nodes
    ensures length >= 1 && Inv(mem2, root2, length - 1, alloc, shape2)
    ensures ToMap(ItemsIn(mem2, shape2)) == ToMap(ItemsIn(mem, shape)) - {mem.nodes[n].key}
  {
    var b, vs;
    ghost var order2, info2, bh2;
    b, vs, root2, order2, info2, bh2 := RawRemove(mem.nodes, mem.vals, root, n, shape.order, shape.info, shape.bh);
    shape2 := Shape(order2, info2, bh2);
    mem2 := Mem(b, vs);
    var s := ItemsIn(mem, shape);
    ItemsIncreasing(mem.nodes, mem.vals, shape.order);
    assert LinkOk(mem.nodes, shape.order, shape.info, n);
    assert s[shape.info[n].pos].0 == mem.nodes[n].key;
    ToMapRemoved(s, ItemsIn(mem2, shape2), shape.info[n].pos);
  }

  class RBTreeMap<V> {
    var mem: Mem<V>
    var root: NodeRef
    var length: nat
    var alloc: nat
    ghost var shape: Shape

    /**
     * The map's invariant: a linked binary search tree over exactly the live
     * handles, satisfying the red-black conditions, with a value per node,
     * `length` nodes, and every handle below the allocation counter.
     */
    ghost predicate Valid()
      reads this
    {
      Inv(mem, root, length, alloc, shape)
    }

    /** The entries in ascending key order. */
    ghost function Items(): (s: seq<(int, V)>)
      reads this
      requires Valid()
      ensures |s| == |shape.order| && Increasing(s)
    {
      ItemsIncreasing(mem.nodes, mem.vals, shape.order);
      ItemsIn(mem, shape)
    }

    /** The key-value map the tree denotes. */
    ghost function Model(): map<int, V>
      reads this
      requires Valid()
    {
      ToMap(Items())
    }

    /** `new`/`new_in`: the empty map. */
    constructor New()
      ensures Valid() && Items() == [] && Model() == map[] && length == 0
      ensures mem == Mem(map[], map[]) && root == None && alloc == 0
    {
      mem, root, length, alloc := Mem(map[], map[]), None, 0, 0;
      shape := Shape([], map[], map[]);
    }

    /** A map over the given fields, which must satisfy the invariant. */
    constructor Assemble(mem: Mem<V>, root: NodeRef, length: nat, alloc: nat, ghost shape: Shape)
      requires Inv(mem, root, length, alloc, shape)
      ensures Valid() && this.mem == mem && this.root == root && this.length == length
      ensures this.alloc == alloc && this.shape == shape
    {
      this.mem, this.root, this.length, this.alloc, this.shape := mem, root, length, alloc, shape;
    }

    /**
     * `clone`: an empty map gives a new empty map; otherwise the root is
     * copied and every node is copied below the copy of its parent, with its
     * key, value and flag, and the length is carried over. The copy is a
     * fresh map with the same tree and the same entries.
     */
    method Clone() returns (c: RBTreeMap<V>)
      requires Valid()
      ensures fresh(c) && c.Valid() && c.Items() == Items() && c.Model() == Model()
      ensures c.mem == mem && c.root == root && c.length == length
    {
      if length == 0 {
        EmptyTree(mem, root, length, alloc, shape);
        c := new RBTreeMap.New();
        return;
      }
      assert root.Some? by {
        assert shape.order[0] in mem.nodes;
      }
      var b, vs := CopyTree(mem.nodes, mem.vals, root, shape.order, shape.info);
      c := new RBTreeMap.Assemble(Mem(b, vs), root, length, alloc, shape);
    }

    /** `len`: the number of entries of the map. */
    function Len(): (n: nat)
      reads this
      requires Valid()
      ensures n == |Items()| == |Model()|
    {
      ItemsIncreasing(mem.nodes, mem.vals, shape.order);
      ToMapSize(Items());
      length
    }

    /** `is_empty`. */
    function IsEmpty(): (b: bool)
      reads this
      requires Valid()
      ensures b <==> Model() == map[]
    {
      ItemsIncreasing(mem.nodes, mem.vals, shape.order);
      ToMapSize(Items());
      length == 0
    }

    /**
     * `raw_search`: the empty tree reports its root as the vacancy; otherwise
     * the search from the root finds the key's node or the empty slot where
     * it belongs. The key is found exactly when it is in the map.
     */
    method RawSearch(key: int) returns (d: NodeDesc)
      requires Valid()
      ensures d.Found? <==> key in Model()
      ensures d.Found? ==> d.node in mem.nodes && mem.nodes[d.node].key == key && Model()[key] == mem.vals[d.node]
      ensures d.NotFound? ==> VacancyFor(mem.nodes, root, shape.order, shape.info, d.at, key)
    {
      d := SearchIn(mem, root, length, alloc, shape, key);
    }

    /** `get`: the value of the key, if present. */
    method Get(key: int) returns (r: Option<V>)
      requires Valid()
      ensures r.Some? <==> key in Model()
      ensures r.Some? ==> r.value == Model()[key]
    {
      var d := RawSearch(key);
      match d
      case Found(x) => r := Some(mem.vals[x]);
      case NotFound(_) => r := None;
    }

    /** `get_key_value`: the stored key and its value, if present. */
    method GetKeyValue(key: int) returns (r: Option<(int, V)>)
      requires Valid()
      ensures r.Some? <==> key in Model()
      ensures r.Some? ==> r.value == (key, Model()[key])
    {
      var d := RawSearch(key);
      match d
      case Found(x) => r := Some((mem.nodes[x].key, mem.vals[x]));
      case NotFound(_) => r := None;
    }

    /** `contains_key`. */
    method ContainsKey(key: int) returns (b: bool)
      requires Valid()
      ensures b <==> key in Model()
    {
      var r := Get(key);
      b := r.Some?;
    }

    /** `Index`: the value of a key that must be present (the source panics otherwise). */
    method Index(key: int) returns (v: V)
      requires Valid() && key in Model()
      ensures v == Model()[key]
    {
      var r := Get(key);
      v := r.value;
    }

    /**
     * `get_mut`: a mutable reference to the key's value, if present,
     * modelled as the handle of the key's node; `WriteValue` writes through it.
     */
    method GetMut(key: int) returns (r: Option<nat>)
      requires Valid()
      ensures r.Some? <==> key in Model()
      ensures r.Some? ==> r.value in mem.nodes && mem.nodes[r.value].key == key && mem.vals[r.value] == Model()[key]
    {
      var d := RawSearch(key);
      match d
      case Found(x) => r := Some(x);
      case NotFound(_) => r := None;
    }

    /**
     * A write through a mutable value reference (`*r = v`): the key's value
     * becomes `v`; keys, structure and length stay.
     */
    method WriteValue(h: nat, v: V)
      requires Valid() && h in mem.nodes
      modifies this
      ensures Valid() && mem == old(mem).(vals := old(mem.vals)[h := v])
      ensures root == old(root) && length == old(length) && alloc == old(alloc) && shape == old(shape)
      ensures Model() == old(Model())[mem.nodes[h].key := v]
    {
      WrittenModel(mem, root, length, alloc, shape, h, v);
      mem := mem.(vals := mem.vals[h := v]);
    }

    /** `raw_first`: the node of the least key (`min` from the root), None for the empty map. */
    method RawFirst() returns (r: Option<nat>)
      requires Valid()
      ensures r.None? <==> Model() == map[]
      ensures r.Some? ==> 0 < |shape.order| && r.value == shape.order[0]
    {
      ItemsIncreasing(mem.nodes, mem.vals, shape.order);
      ToMapSize(Items());
      if length == 0 {
        return None;
      }
      assert root.Some? by {
        assert shape.order[0] in mem.nodes;
      }
      var m := Min(mem.nodes, root.value, shape.order, shape.info);
      r := Some(m);
    }

    /** `raw_last`: the node of the greatest key (`max` from the root), None for the empty map. */
    method RawLast() returns (r: Option<nat>)
      requires Valid()
      ensures r.None? <==> Model() == map[]
      ensures r.Some? ==> 0 < |shape.order| && r.value == shape.order[|shape.order| - 1]
    {
      ItemsIncreasing(mem.nodes, mem.vals, shape.order);
      ToMapSize(Items());
      if length == 0 {
        return None;
      }
      assert root.Some? by {
        assert shape.order[0] in mem.nodes;
      }
      var m := Max(mem.nodes, root.value, shape.order, shape.info);
      r := Some(m);
    }

    /** `first_key_value`: the entry of the least key, None for the empty map. */
    method FirstKeyValue() returns (r: Option<(int, V)>)
      requires Valid()
      ensures r.None? <==> Model() == map[]
      ensures r.Some? ==> r.value.0 in Model() && Model()[r.value.0] == r.value.1
      ensures r.Some? ==> forall key :: key in Model() ==> r.value.0 <= key
    {
      var x := RawFirst();
      match x
      case None => r := None;
      case Some(n) =>
        r := Some((mem.nodes[n].key, mem.vals[n]));
        ItemsIncreasing(mem.nodes, mem.vals, shape.order);
        ToMapAt(Items(), 0);
        ToMapBounds(Items());
    }

    /** `last_key_value`: the entry of the greatest key, None for the empty map. */
    method LastKeyValue() returns (r: Option<(int, V)>)
      requires Valid()
      ensures r.None? <==> Model() == map[]
      ensures r.Some? ==> r.value.0 in Model() && Model()[r.value.0] == r.value.1
      ensures r.Some? ==> forall key :: key in Model() ==> key <= r.value.0
    {
      var x := RawLast();
      match x
      case None => r := None;
      case Some(n) =>
        r := Some((mem.nodes[n].key, mem.vals[n]));
        ItemsIncreasing(mem.nodes, mem.vals, shape.order);
        ToMapAt(Items(), |shape.order| - 1);
        ToMapBounds(Items());
    }

    /** `entry`: the occupied entry of a present key, or the vacant entry with its vacancy. */
    method GetEntry(key: int) returns (e: Entry)
      requires Valid()
      ensures e.Occupied? <==> key in Model()
      ensures e.Occupied? ==> e.node in mem.nodes && mem.nodes[e.node].key == key && Model()[key] == mem.vals[e.node]
      ensures e.Vacant? ==> e.key == key && VacancyFor(mem.nodes, root, shape.order, shape.info, e.at, key)
    {
      var d := RawSearch(key);
      match d
      case Found(x) => e := Occupied(x);
      case NotFound(at) => e := Vacant(key, at);
    }

    /**
     * `raw_insert` on the map (for `VacantEntry::insert`): a fresh node holds
     * the pair, `length` grows by one, and the map gains exactly `key`.
     */
    method InsertVacant(key: int, at: Vacancy, v: V) returns (h: nat)
      requires Valid() && VacancyFor(mem.nodes, root, shape.order, shape.info, at, key)
      modifies this
      ensures Valid() && length == old(length) + 1
      ensures Model() == old(Model())[key := v]
      ensures h in mem.nodes && mem.nodes[h].key == key && mem.vals[h] == v && h !in old(mem.nodes)
    {
      h := alloc;
      var mem2, root2, shape2 := InsertAt(mem, root, length, alloc, shape, at, key, v);
      mem, root, length, alloc, shape := mem2, root2, length + 1, alloc + 1, shape2;
    }

    /**
     * `clear`: every node is freed with its value and the map is empty; an
     * empty map is left as it is. The source leaves its root link dangling
     * (every later read is guarded by the length); the model resets it.
     */
    method Clear()
      requires Valid()
      modifies this
      ensures Valid() && Model() == map[] && length == 0
      ensures mem == Mem(map[], map[]) && root == None && alloc == old(alloc)
    {
      if length == 0 {
        EmptyTree(mem, root, length, alloc, shape);
        return;
      }
      var live, vs;
      ghost var trail;
      live, vs, trail := FreeAll(mem.nodes, mem.vals, root, shape.order, shape.info);
      mem, root, length, shape := Mem(live, vs), None, 0, Shape([], map[], map[]);
    }

    /**
     * `insert`: through the entry, an occupied key gets the new value and the
     * old one is returned; a vacant key is added and None is returned.
     */
    method Insert(key: int, v: V) returns (r: Option<V>)
      requires Valid()
      modifies this
      ensures Valid()
      ensures Model() == old(Model())[key := v]
      ensures r == if key in old(Model()) then Some(old(Model())[key]) else None
      ensures length == old(length) + if r.None? then 1 else 0
    {
      var e := GetEntry(key);
      match e
      case Occupied(x) =>
        r := Some(mem.vals[x]);
        WriteValue(x, v);
      case Vacant(_, at) =>
        var _ := InsertVacant(key, at, v);
        r := None;
    }

    /**
     * `raw_remove`: the node is freed and its pair returned; `length` drops
     * by one and the map loses exactly that key.
     */
    method RawRemove(n: nat) returns (kv: (int, V))
      requires Valid() && n in mem.nodes
      modifies this
      ensures Valid() && length == old(length) - 1 && alloc == old(alloc)
      ensures kv == (old(mem.nodes[n].key), old(mem.vals[n]))
      ensures kv.0 in old(Model()) && old(Model())[kv.0] == kv.1
      ensures Model() == old(Model()) - {kv.0}
    {
      kv := (mem.nodes[n].key, mem.vals[n]);
      ModelAtNode(mem.nodes, mem.vals, shape.order, shape.info, n);
      var mem2, root2, shape2 := RemoveAt(mem, root, length, alloc, shape, n);
      mem, root, length, shape := mem2, root2, length - 1, shape2;
    }

    /** `remove_entry`: a present key is removed and its pair returned; a missing one gives None and changes nothing. */
    method RemoveEntry(key: int) returns (r: Option<(int, V)>)
      requires Valid()
      modifies this
      ensures Valid() && Model() == old(Model()) - {key}
      ensures r == if key in old(Model()) then Some((key, old(Model())[key])) else None
      ensures length == old(length) - if r.Some? then 1 else 0
    {
      var d := RawSearch(key);
      match d
      case Found(x) =>
        var kv := RawRemove(x);
        r := Some(kv);
      case NotFound(_) =>
        r := None;
    }

    /** `remove`: the value of a present key, which is removed; None for a missing key. */
    method Remove(key: int) returns (r: Option<V>)
      requires Valid()
      modifies this
      ensures Valid() && Model() == old(Model()) - {key}
      ensures r == if key in old(Model()) then Some(old(Model())[key]) else None
    {
      var e := RemoveEntry(key);
      r := if e.Some? then Some(e.value.1) else None;
    }

    /** `first_entry`: the occupied entry of the least key, None for the empty map. */
    method FirstEntry() returns (r: Option<Entry>)
      requires Valid()
      ensures r.None? <==> Model() == map[]
      ensures r.Some? ==> r.value.Occupied? && r.value.node in mem.nodes && mem.nodes[r.value.node].key in Model()
      ensures r.Some? ==> forall key :: key in Model() ==> mem.nodes[r.value.node].key <= key
    {
      var x := RawFirst();
      match x
      case None => r := None;
      case Some(n) =>
        r := Some(Occupied(n));
        ItemsIncreasing(mem.nodes, mem.vals, shape.order);
        ToMapAt(Items(), 0);
        ToMapBounds(Items());
    }

    /** `last_entry`: the occupied entry of the greatest key, None for the empty map. */
    method LastEntry() returns (r: Option<Entry>)
      requires Valid()
      ensures r.None? <==> Model() == map[]
      ensures r.Some? ==> r.value.Occupied? && r.value.node in mem.nodes && mem.nodes[r.value.node].key in Model()
      ensures r.Some? ==> forall key :: key in Model() ==> key <= mem.nodes[r.value.node].key
    {
      var x := RawLast();
      match x
      case None => r := None;
      case Some(n) =>
        r := Some(Occupied(n));
        ItemsIncreasing(mem.nodes, mem.vals, shape.order);
        ToMapAt(Items(), |shape.order| - 1);
        ToMapBounds(Items());
    }

    /** `pop_first`: the entry of the least key is removed and returned; None for the empty map. */
    method PopFirst() returns (r: Option<(int, V)>)
      requires Valid()
      modifies this
      ensures Valid()
      ensures r.None? <==> old(Model()) == map[]
      ensures r.None? ==> Model() == old(Model())
      ensures r.Some? ==> r.value.0 in old(Model()) && old(Model())[r.value.0] == r.value.1
      ensures r.Some? ==> (forall key :: key in old(Model()) ==> r.value.0 <= key) && Model() == old(Model()) - {r.value.0}
    {
      var e := FirstEntry();
      match e
      case None => r := None;
      case Some(en) =>
        var kv := RawRemove(en.node);
        r := Some(kv);
    }

    /** `pop_last`: the entry of the greatest key is removed and returned; None for the empty map. */
    method PopLast() returns (r: Option<(int, V)>)
      requires Valid()
      modifies this
      ensures Valid()
      ensures r.None? <==> old(Model()) == map[]
      ensures r.None? ==> Model() == old(Model())
      ensures r.Some? ==> r.value.0 in old(Model()) && old(Model())[r.value.0] == r.value.1
      ensures r.Some? ==> (forall key :: key in old(Model()) ==> key <= r.value.0) && Model() == old(Model()) - {r.value.0}
    {
      var e := LastEntry();
      match e
      case None => r := None;
      case Some(en) =>
        var kv := RawRemove(en.node);
        r := Some(kv);
    }

    /** `extend`: inserts the pairs in turn, so a later pair overrides an earlier one with the same key. */
    method Extend(pairs: seq<(int, V)>)
      requires Valid()
      modifies this
      ensures Valid() && Model() == old(Model()) + ToMap(pairs)
    {
      ghost var m := Model();
      for i := 0 to |pairs|
        invariant Valid() && Model() == m + ToMap(pairs[..i])
      {
        MergedStep(m, pairs, i);
        var _ := Insert(pairs[i].0, pairs[i].1);
      }
      assert pairs[..|pairs|] == pairs;
    }

    /** `bulk_build_from_sorted_iter`: a new map into which the pairs are inserted in turn. */
    static method BulkBuild(pairs: seq<(int, V)>) returns (t: RBTreeMap<V>)
      ensures fresh(t) && t.Valid() && t.Model() == ToMap(pairs)
    {
      t := new RBTreeMap.New();
      for i := 0 to |pairs|
        invariant fresh(t) && t.Valid() && t.Model() == ToMap(pairs[..i])
      {
        assert pairs[..i + 1][..i] == pairs[..i];
        var _ := t.Insert(pairs[i].0, pairs[i].1);
      }
      assert pairs[..|pairs|] == pairs;
    }

    /**
     * `From<[(K, V); N]>`: no pairs give `new()`; otherwise the pairs are
     * stably sorted by key and bulk-built. For a repeated key the pair that
     * comes last in the array wins.
     */
    static method From(arr: seq<(int, V)>) returns (t: RBTreeMap<V>)
      ensures fresh(t) && t.Valid() && t.Model() == ToMap(arr)
    {
      if |arr| == 0 {
        t := new RBTreeMap.New();
        return;
      }
      var sorted := SortByKey(arr);
      SortByKeyMap(arr);
      t := BulkBuild(sorted);
    }

    /** `iter`: an empty map gives `Iter::new_empty`, otherwise both ends start at the root; every entry is to come, in key order. */
    method Iter() returns (it: Iteration.Iter<V>)
      requires Valid()
      ensures fresh(it) && it.Valid() && it.Remaining() == Items()
    {
      if IsEmpty() {
        it := new Iteration.Iter.NewEmpty();
      } else {
        it := new Iteration.Iter.New(mem.nodes, mem.vals, root, length, shape.order, shape.info);
      }
    }

    /** `iter_mut`: like `iter`, over the handles of the nodes, through which the values are written. */
    method IterMut() returns (it: Iteration.IterMut<V>)
      requires Valid()
      ensures fresh(it) && it.Valid() && it.nodes == mem.nodes && it.vals == mem.vals && it.Handles() == shape.order
    {
      if IsEmpty() {
        EmptyTree(mem, root, length, alloc, shape);
        it := new Iteration.IterMut.NewEmpty();
      } else {
        it := new Iteration.IterMut.New(mem.nodes, mem.vals, root, length, shape.order, shape.info);
      }
    }

    /** `values`: the values of `iter`'s entries, in key order. */
    method Values() returns (vs: MapValues.Values<V>)
      requires Valid()
      ensures fresh(vs) && fresh(vs.inner) && vs.Valid() && vs.Remaining() == MapValues.Seconds(Items())
    {
      var it := Iter();
      vs := new MapValues.Values.New(it);
    }

    /** `values_mut`: the value handles of `iter_mut`'s entries, in key order. */
    method ValuesMut() returns (vs: MapValues.ValuesMut<V>)
      requires Valid()
      ensures fresh(vs) && fresh(vs.inner) && vs.Valid() && vs.inner.nodes == mem.nodes && vs.Handles() == shape.order
    {
      var it := IterMut();
      vs := new MapValues.ValuesMut.New(it);
    }
  }

  /** One more pair inserted after a prefix of `pairs` has been merged into `m`. */
  lemma MergedStep<V>(m: map<int, V>, pairs: seq<(int, V)>, i: nat)
    requires i < |pairs|
    ensures (m + ToMap(pairs[..i]))[pairs[i].0 := pairs[i].1] == m + ToMap(pairs[..i + 1])
  {
    assert pairs[..i + 1][..i] == pairs[..i];
  }

  /**
   * `eq`: equal lengths, and the entry iterators of the two maps agree pair by
   * pair (the lengths are compared on the iterators, which start with the
   * maps' lengths). Two maps are equal exactly when they hold the same entries.
   */
  method Equal<V(==)>(m1: RBTreeMap<V>, m2: RBTreeMap<V>) returns (b: bool)
    requires m1.Valid() && m2.Valid()
    ensures b <==> old(m1.Model()) == old(m2.Model())
  {
    ToMapDetermines(m1.Items(), m2.Items());
    var it1 := m1.Iter();
    var it2 := m2.Iter();
    b := Iteration.AllEqual(it1, it2);
  }

  /** A tree of no entries has no nodes, no values and no root. */
  lemma EmptyTree<V>(mem: Mem<V>, root: NodeRef, length: nat, alloc: nat, shape: Shape)
    requires Inv(mem, root, length, alloc, shape) && length == 0
    ensures mem == Mem(map[], map[]) && root == None
  {
    assert forall i :: i in mem.nodes ==> LinkOk(mem.nodes, shape.order, shape.info, i);
    assert mem.nodes.Keys == {} && mem.vals.Keys == {};
  }

  /** `raw_search` on the field values of a map. */
  method SearchIn<V>(mem: Mem<V>, root: NodeRef, length: nat, alloc: nat, ghost shape: Shape, key: int) returns (d: NodeDesc)
    requires Inv(mem, root, length, alloc, shape)
    ensures d.Found? <==> key in ToMap(ItemsIn(mem, shape))
    ensures d.Found? ==> d.node in mem.nodes && mem.nodes[d.node].key == key && ToMap(ItemsIn(mem, shape))[key] == mem.vals[d.node]
    ensures d.NotFound? ==> VacancyFor(mem.nodes, root, shape.order, shape.info, d.at, key)
  {
    if length == 0 {
      assert root.Some? ==> LinkOk(mem.nodes, shape.order, shape.info, root.value);
      return NodeDesc.NotFound(Root);
    }
    assert root.Some? by {
      assert shape.order[0] in mem.nodes;
    }
    var r := Search(mem.nodes, root.value, key, shape.order, shape.info);
    match r
    case Found(x) =>
      ModelAtNode(mem.nodes, mem.vals, shape.order, shape.info, x);
      d := NodeDesc.Found(x);
    case NotFound(x, rela) =>
      d := NodeDesc.NotFound(Normal(x, rela));
      ModelMissing(mem.nodes, mem.vals, shape.order, key);
  }

  /** Writing one value keeps the invariant and replaces that key's value in the map. */
  lemma WrittenModel<V>(mem: Mem<V>, root: NodeRef, length: nat, alloc: nat, shape: Shape, h: nat, v: V)
    requires Inv(mem, root, length, alloc, shape) && h in mem.nodes
    ensures Inv(mem.(vals := mem.vals[h := v]), root, length, alloc, shape)
    ensures ToMap(ItemsIn(mem.(vals := mem.vals[h := v]), shape)) == ToMap(ItemsIn(mem, shape))[mem.nodes[h].key := v]
  {
    var s := ItemsIn(mem, shape);
    assert LinkOk(mem.nodes, shape.order, shape.info, h);
    var k := shape.info[h].pos;
    assert ItemsIn(mem.(vals := mem.vals[h := v]), shape) == s[k := (s[k].0, v)];
    ItemsIncreasing(mem.nodes, mem.vals, shape.order);
    ToMapReplace(s, k, v);
  }

  /** A key with a vacancy is in no node. */
  lemma VacantMissing<V>(a: Arena, vals: map<nat, V>, order: seq<nat>, info: map<nat, Info>, root: NodeRef, at: Vacancy, key: int)
    requires Linked(a, order, info) && RootOk(a, root, order, info) && vals.Keys == a.Keys
    requires VacancyFor(a, root, order, info, at, key)
    ensures key !in ToMap(ItemsOf(a, vals, order))
  {
    if at.Root? {
      assert |order| == 0;
    }
    ModelMissing(a, vals, order, key);
  }

  /** `ModelInserted` at a vacancy. */
  lemma ModelInsertedAt<V>(a: Arena, vals: map<nat, V>, order: seq<nat>, info: map<nat, Info>, root: NodeRef, at: Vacancy,
                           b: Arena, n: nat, key: int, v: V)
    requires Linked(a, order, info) && RootOk(a, root, order, info) && Sorted(a, order) && vals.Keys == a.Keys && n !in a
    requires VacancyFor(a, root, order, info, at, key)
    requires KeysOf(b) == KeysOf(a)[n := key]
    ensures var o := InsertedOrder(order, VacancyPos(info, at), n);
      && (forall j :: 0 <= j < |o| ==> o[j] in b && o[j] in vals[n := v])
      && ToMap(ItemsOf(b, vals[n := v], o)) == ToMap(ItemsOf(a, vals, order))[key := v]
  {
    if at.Root? {
      assert |order| == 0;
    }
    ModelInserted(a, vals, order, info, root, b, VacancyPos(info, at), n, key, v);
  }
}
