/**
 * The entry API of `RBTreeMap`: an entry is the occupied node of a key or the
 * vacancy where a missing key belongs, and every operation on it acts on the
 * map it was taken from. A `&mut V` the source hands out is modelled as the
 * handle of the node, through which `RBTreeMap.WriteValue` writes.
 */
module MapEntry {
  import opened Wrappers
  import opened Node
  import opened Insertion
  import opened Contents
  import opened Map

  /** An entry of the current state of `t`: a live node, or a vacancy for its key. */
  ghost predicate EntryOf<V>(t: RBTreeMap<V>, e: Entry)
    reads t
    requires t.Valid()
  {
    match e
    case Occupied(x) => x in t.mem.nodes
    case Vacant(key, at) => VacancyFor(t.mem.nodes, t.root, t.shape.order, t.shape.info, at, key)
  }

  /** The key of an occupied entry is in the map; the key of a vacant one is not. */
  lemma EntryKeyIn<V>(t: RBTreeMap<V>, e: Entry)
    requires t.Valid() && EntryOf(t, e)
    ensures e.Occupied? ==> t.mem.nodes[e.node].key in t.Model() && t.Model()[t.mem.nodes[e.node].key] == t.mem.vals[e.node]
    ensures e.Vacant? ==> e.key !in t.Model()
  {
    if e.Occupied? {
      ModelAtNode(t.mem.nodes, t.mem.vals, t.shape.order, t.shape.info, e.node);
    } else {
      VacantMissing(t.mem.nodes, t.mem.vals, t.shape.order, t.shape.info, t.root, e.at, e.key);
    }
  }

  /** `Entry::key`: the key of the node, or the key the vacancy was found for. */
  function Key<V>(t: RBTreeMap<V>, e: Entry): (k: int)
    reads t
    requires t.Valid() && EntryOf(t, e)
    ensures e.Occupied? <==> k in t.Model()
    ensures e.Vacant? ==> k == e.key
    ensures e.Occupied? ==> t.mem.vals[e.node] == t.Model()[k]
  {
    EntryKeyIn(t, e);
    match e
    case Occupied(x) => t.mem.nodes[x].key
    case Vacant(key, _) => key
  }

  /**
   * `or_insert`: an occupied entry gives its value's handle; a vacant one
   * inserts `default` first. Either way the key then maps to the value
   * behind the returned handle, and only a vacant key changes the map.
   */
  method OrInsert<V>(t: RBTreeMap<V>, e: Entry, default: V) returns (h: nat)
    requires t.Valid() && EntryOf(t, e)
    modifies t
    ensures t.Valid() && h in t.mem.nodes && t.mem.nodes[h].key == old(Key(t, e))
    ensures t.Model() == if e.Occupied? then old(t.Model()) else old(t.Model())[e.key := default]
    ensures t.mem.vals[h] == t.Model()[t.mem.nodes[h].key]
    ensures e.Vacant? ==> t.mem.vals[h] == default
  {
    match e {
      case Occupied(x) =>
        h := x;
      case Vacant(key, at) =>
        h := t.InsertVacant(key, at, default);
    }
    ModelAtNode(t.mem.nodes, t.mem.vals, t.shape.order, t.shape.info, h);
  }

  /** `or_insert_with`: `or_insert`, with the default computed only for a vacant entry. */
  method OrInsertWith<V>(t: RBTreeMap<V>, e: Entry, default: () -> V) returns (h: nat)
    requires t.Valid() && EntryOf(t, e)
    modifies t
    ensures t.Valid() && h in t.mem.nodes && t.mem.nodes[h].key == old(Key(t, e))
    ensures t.Model() == if e.Occupied? then old(t.Model()) else old(t.Model())[e.key := default()]
    ensures t.mem.vals[h] == t.Model()[t.mem.nodes[h].key]
  {
    match e
    case Occupied(x) =>
      h := OrInsert(t, e, t.mem.vals[x]);
    case Vacant(_, _) =>
      h := OrInsert(t, e, default());
  }

  /** `or_insert_with_key`: `or_insert`, with the default computed from the entry's key only for a vacant entry. */
  method OrInsertWithKey<V>(t: RBTreeMap<V>, e: Entry, default: int -> V) returns (h: nat)
    requires t.Valid() && EntryOf(t, e)
    modifies t
    ensures t.Valid() && h in t.mem.nodes && t.mem.nodes[h].key == old(Key(t, e))
    ensures t.Model() == if e.Occupied? then old(t.Model()) else old(t.Model())[e.key := default(e.key)]
    ensures t.mem.vals[h] == t.Model()[t.mem.nodes[h].key]
  {
    match e
    case Occupied(x) =>
      h := OrInsert(t, e, t.mem.vals[x]);
    case Vacant(key, _) =>
      var v := default(Key(t, e));
      h := OrInsert(t, e, v);
  }

  /** `and_modify`: an occupied entry's value is replaced by `f` of it; a vacant entry changes nothing. The entry is handed back. */
  method AndModify<V>(t: RBTreeMap<V>, e: Entry, f: V -> V) returns (e2: Entry)
    requires t.Valid() && EntryOf(t, e)
    modifies t
    ensures t.Valid() && EntryOf(t, e2) && e2 == e
    ensures t.Model() == if e.Occupied? then old(t.Model())[old(Key(t, e)) := f(old(t.Model())[old(Key(t, e))])] else old(t.Model())
  {
    if e.Occupied? {
      t.WriteValue(e.node, f(t.mem.vals[e.node]));
    }
    e2 := e;
  }

  /** `OccupiedEntry::get`: the value of the entry's key. */
  function OccupiedGet<V>(t: RBTreeMap<V>, x: nat): (v: V)
    reads t
    requires t.Valid() && x in t.mem.nodes
    ensures t.mem.nodes[x].key in t.Model() && v == t.Model()[t.mem.nodes[x].key]
  {
    EntryKeyIn(t, Occupied(x));
    t.mem.vals[x]
  }

  /**
   * `OccupiedEntry::insert`: the entry's key gets the new value and the old
   * value is returned; nothing else changes.
   */
  method OccupiedInsert<V>(t: RBTreeMap<V>, x: nat, v: V) returns (prev: V)
    requires t.Valid() && x in t.mem.nodes
    modifies t
    ensures t.Valid() && x in t.mem.nodes && t.mem.nodes == old(t.mem.nodes) && t.length == old(t.length)
    ensures old(t.mem.nodes[x].key in t.Model())
    ensures prev == old(t.Model())[old(t.mem.nodes[x].key)]
    ensures t.Model() == old(t.Model())[old(t.mem.nodes[x].key) := v]
  {
    prev := OccupiedGet(t, x);
    t.WriteValue(x, v);
  }

  /** `OccupiedEntry::remove_entry`: the entry's pair is removed from the map and returned. */
  method OccupiedRemoveEntry<V>(t: RBTreeMap<V>, x: nat) returns (kv: (int, V))
    requires t.Valid() && x in t.mem.nodes
    modifies t
    ensures t.Valid() && t.length == old(t.length) - 1
    ensures kv.0 == old(t.mem.nodes[x].key) && kv.0 in old(t.Model()) && old(t.Model())[kv.0] == kv.1
    ensures t.Model() == old(t.Model()) - {kv.0}
  {
    kv := t.RawRemove(x);
  }

  /** `VacantEntry::insert`: the entry's key is added with the value, whose handle is returned. */
  method VacantInsert<V>(t: RBTreeMap<V>, key: int, at: Vacancy, v: V) returns (h: nat)
    requires t.Valid() && EntryOf(t, Vacant(key, at))
    modifies t
    ensures t.Valid() && t.length == old(t.length) + 1 && key !in old(t.Model())
    ensures t.Model() == old(t.Model())[key := v]
    ensures h in t.mem.nodes && t.mem.nodes[h].key == key && t.mem.vals[h] == v
  {
    EntryKeyIn(t, Vacant(key, at));
    h := t.InsertVacant(key, at, v);
  }
}
