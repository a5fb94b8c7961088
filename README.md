# A verified model of the `RBTreeMap` red-black tree and the trie fuzzy finder

This project models the red-black tree map of `src/collections/rbtree/` in
Dafny, together with the trie-based fuzzy finder of
`src/collections/fuzzy/finder/v1.rs`, and proves what that code promises.

The model covers these parts of the map:

- the flag byte, which packs a node's relation to its parent and its colour;
- the node engine, which provides `search`, `min`/`max`, in-order stepping,
  `single_rotate`, the insertion fix-up `double_red_adjust` and the deletion
  fix-up `rasie`;
- the map container, with `raw_remove` and its case analysis, `clear`,
  `clone` and the public API;
- the entry API;
- the double-ended iterators and the `Values` projections;
- the invariant checker `check`.

## How the model is built

Raw node pointers become handles into an arena of node records,
`map<nat, Node>`. A record holds:

- a key;
- left, right and parent links, each an `Option<nat>`;
- a relation;
- a colour.

The values live in a second map from handles to values.

Ghost data describes the shape of the tree:

- `order` is the in-order sequence of handles;
- `info` gives each node its position in `order` and the segment
  `[lo, hi)` of `order` its subtree covers;
- `bh` gives each node's black height.

Purely local conditions at each node (`LinkOk`) tie the links to this ghost
data. `Sorted` (keys strictly increase along `order`) is full
binary-search-tree order. `RedBlack` holds these conditions:

- black root;
- red and black nodes only;
- no red node with a red child;
- equal black counts on all paths, witnessed by `bh`.

The map `RBTreeMap` is a class with these fields:

- the arena and the values;
- the root link;
- `length`;
- the allocation counter;
- the ghost shape.

Its `Valid()` is the invariant of all of the above. `Items()` is the sequence
of entries in key order. `Model()` is the `map<int, V>` the tree denotes.
Every public operation is specified against `Model()`.

The imperative code stays imperative:

- the node walks, the rotations, both fix-ups and `raw_remove` are methods
  that rewrite the arena value step by step, the way the source rewrites
  `next[]` links and flag bytes;
- `clear`, `clone`, `check` and the finder's `search_prefix` keep their
  explicit stacks and their `while` loops;
- the iterators are classes whose `next`/`next_back` methods update the
  cursor fields.

Each method's postcondition ties its result to the specification state:

- `Model()`;
- `Remaining()` for an iterator;
- `Lookup` for the finder;
- `Linked`/`RootOk`/`Sorted`/`RedBlack` for the arena.

Lemmas prove the properties of those specifications.

Decisions where the sources disagree or are incomplete:

- **Explicit root.** The tree has an explicit root link (`new_in`'s design)
  and no sentinel header node.
  - The root is canonically BLACK.
  - The ROOT colour exists only at the flag level (`Flag.Color.ROOT`).
  - A node the source promotes to the root with `set_root`
    (`map.rs:866`, `map.rs:917`, `map.rs:928`, `map.rs:942`) is painted BLACK.
  - An `is_root()` test on a parent reads as "the parent has no parent".
  - With ROOT-coloured real roots, `set_color` would copy the header colour
    onto inner nodes (`map.rs:922`, `map.rs:933`). Their `is_black()` would
    then be false, and `rasie` would take the wrong branch.
- **`raw_insert`.** It is not defined in the source files
  (`entry.rs:396-398` calls it). `Insertion.RawInsert` is written from the
  vacant-entry contract and `double_red_adjust`:
  1. link a fresh node at the vacancy, or as the root;
  2. colour it red, or black as the root;
  3. run the fix-up when the parent is red;
  4. add one to `length`.
- **`search`.** `node.rs` returns a tuple from `search`, while `map.rs`
  expects a `SearchResult`. The model uses
  `SearchResult = Found(node) | NotFound(node, rela)`. `raw_search` wraps it
  as `Found(node) | NotFound(vacancy)`. A vacancy is `Root` or
  `Normal(node, rela)`.
- **`rasie`'s result.** `rasie` returns `()`, but `map.rs:907` matches an
  `Option` on it. The model returns the new root link from the fix-up
  instead.
- **`set_color`'s mask.** The tree uses the relation-preserving
  `set_color`; see "## Findings".
- **`clear`.** It also resets the root link. The source leaves it dangling;
  every later read of it is guarded by `length == 0`.

## Model

| member | source | states |
|---|---|---|
| Flag.Rela.Toggle | src/collections/rbtree/flag.rs:43-49 | LEFT and RIGHT swap and PARENT stays PARENT: the result is PARENT exactly when the input is, and otherwise differs from it |
| Flag.Rela.Code | src/collections/rbtree/flag.rs:24-26 | `rela as u8` gives a code that `Rela::from` accepts and that decodes back to the same relation |
| Flag.RelaFrom | src/collections/rbtree/flag.rs:14-21 | `Rela::from` maps code 0 to LEFT, 1 to RIGHT and 2 to PARENT, in both directions; any other code is excluded, where the source reaches `unreachable!` |
| Flag.Color.Toggle | src/collections/rbtree/flag.rs:83-89 | RED and BLACK swap and ROOT stays ROOT |
| Flag.Color.Code | src/collections/rbtree/flag.rs:69-71 | `color as u8` gives a code `Color::from` accepts and decodes back to the same colour |
| Flag.ColorFrom | src/collections/rbtree/flag.rs:59-66 | `Color::from` maps 0 to RED, 4 to BLACK and 8 to ROOT, in both directions |
| Flag.Flag.Rela | src/collections/rbtree/flag.rs:144-146 | on a well-formed byte, `rela()` is LEFT exactly when `is_left()` holds and RIGHT exactly when `is_right()` does |
| Flag.Flag.Color | src/collections/rbtree/flag.rs:147-149 | on a well-formed byte, `color()` agrees with `is_red`/`is_black`/`is_root` in both directions |
| Flag.Flag.Set | src/collections/rbtree/flag.rs:95-97 | `set` replaces the whole byte |
| Flag.Flag.Clear | src/collections/rbtree/flag.rs:98-100 | the cleared byte is well formed and reads as a red left child |
| Flag.Flag.SetRela | src/collections/rbtree/flag.rs:116-119 | only bits 0-1 change, and they hold the relation's code; on a well-formed byte `rela()` is then the new relation and `color()` is unchanged |
| Flag.Flag.SetLeft | src/collections/rbtree/flag.rs:136-139 | is `set_rela(LEFT)`: afterwards `is_left()` holds and the colour is kept |
| Flag.Flag.SetRight | src/collections/rbtree/flag.rs:140-143 | is `set_rela(RIGHT)`: afterwards `is_right()` holds and the colour is kept |
| Flag.Flag.SetColorAsWritten | src/collections/rbtree/flag.rs:120-123 | the source's mask keeps only bits 4-7, so afterwards the colour is the new one and the relation is always LEFT |
| Flag.Flag.SetColor | src/collections/rbtree/flag.rs:120-123 | the corrected setter: only bits 2-3 change; afterwards the colour is the new one and the relation is kept |
| Flag.Flag.SetRed | src/collections/rbtree/flag.rs:124-127 | is `set_color(RED)` with the relation-keeping mask: afterwards `is_red()` holds and `rela()` is unchanged |
| Flag.Flag.SetBlack | src/collections/rbtree/flag.rs:128-131 | afterwards `is_black()` holds and `rela()` is unchanged |
| Flag.Flag.SetRoot | src/collections/rbtree/flag.rs:132-135 | afterwards `is_root()` holds and `rela()` is unchanged |
| Flag.NewFlag | src/collections/rbtree/flag.rs:92-94 | `Flag::new` gives the zero byte, which is well formed and decodes as RED and LEFT |
| Flag.MakeFlag | src/collections/rbtree/flag.rs:116-123 | a byte built by the setters from any relation and colour is well formed and decodes back to both |
| Flag.ToggleInvolution | src/collections/rbtree/flag.rs:43-49 | toggling a relation twice, or a colour twice, gives back the original |
| Flag.ExactlyOneColor | src/collections/rbtree/flag.rs:101-115 | on a well-formed byte exactly one of `is_red`/`is_black`/`is_root` holds, and `is_left` and `is_right` exclude each other |
| Flag.DecodeEncode | src/collections/rbtree/flag.rs:14-26 | `Rela::from(r as u8) == r` with codes 0/1/2 and `Color::from(c as u8) == c` with codes 0/4/8 |
| Flag.EncodeDecode | src/collections/rbtree/flag.rs:59-71 | every accepted code is the encoding of what it decodes to |
| Flag.SetColorAsWrittenLosesRela | src/collections/rbtree/flag.rs:120-123 | concrete counterexample: a black right child (0x05) painted red by the as-written `set_color` reads as a left child, while the corrected one keeps RIGHT |
| Node.Node.WithNext | src/collections/rbtree/node.rs:22-26 | writing `next[r]` for a child slot sets that link and keeps the key, the other links and the flag |
| Node.Node.SetParent | src/collections/rbtree/node.rs:143-146 | `set_parent` sets the parent link and the relation, and keeps the key, both child links and the colour |
| Node.Node.Paint | src/collections/rbtree/flag.rs:124-135 | the colour setters on a node change only its colour |
| Node.Node.InitFrom | src/collections/rbtree/node.rs:124-127 | `init_from` copies the key and the flag (relation and colour) of the source and keeps the node's own links |
| Node.Node.FlagByte | src/collections/rbtree/node.rs:22-26 | the node's flag byte is well formed and decodes to its relation and colour |
| Node.Zeroed | src/collections/rbtree/node.rs:130-140 | a zeroed allocation has three null links and the zero flag, so it is a red left child |
| Node.Search | src/collections/rbtree/node.rs:193-219 | either it finds the node holding the key, or it stops at a node whose child on the returned side is null, with LEFT exactly when the key is smaller; the key then lies between the neighbours of the insertion position within the searched subtree |
| Node.Min | src/collections/rbtree/node.rs:254-264 | the result has no left child and is the first node of the subtree's in-order segment, so it holds the subtree's least key |
| Node.Max | src/collections/rbtree/node.rs:265-275 | the result has no right child and is the last node of the subtree's segment |
| Node.NextUnchecked | src/collections/rbtree/node.rs:276-290 | for any node but the last, the in-order successor: the next handle of `order` |
| Node.NextBackUnchecked | src/collections/rbtree/node.rs:291-305 | for any node but the first, the in-order predecessor |
| Node.GapBounds | src/collections/rbtree/node.rs:193-219 | a key between the neighbours of a gap of a sorted segment is above every key before the gap and below every key after it |
| Node.SortedKept | src/collections/rbtree/node.rs:147-166 | in-order key order depends only on the keys, so relinking and repainting keep it |
| Rotation.SingleRotate | src/collections/rbtree/node.rs:147-166 | the child takes the parent's old slot, with the parent's old relation, and the parent becomes its child on the other side; the inner grandchild is re-parented and no other node changes; the tree stays linked over the same in-order sequence, keys are kept, and the child becomes the root exactly when the parent was |
| Rotation.RotatedLinked | src/collections/rbtree/node.rs:147-166 | the four rewritten records leave every node's local link conditions true, with only the two rotated segments changed |
| Rotation.RotatedRootOk | src/collections/rbtree/node.rs:160-162 | the root link is right after a rotation: the child is the new root exactly when the parent had no parent |
| Rotation.RotatedSameKeys | src/collections/rbtree/node.rs:147-166 | a rotation changes links only, never keys |
| RedFix.DoubleRedAdjust | src/collections/rbtree/node.rs:167-192 | called on a red node under a red parent in an otherwise red-black tree, it ends with a linked tree over the same in-order sequence and keys that satisfies every red-black condition; it recurses only from the grandparent, so it terminates |
| RedFix.AdjustInner | src/collections/rbtree/node.rs:174-179 | black uncle, inner child: two rotations and the repaints give a red-black tree over the same keys in the same order |
| RedFix.AdjustOuter | src/collections/rbtree/node.rs:174-179 | black uncle, outer child: one rotation and the repaint give a red-black tree over the same keys in the same order |
| RedFix.AdjustRecolour | src/collections/rbtree/node.rs:180-191 | red uncle: recolouring, then the fix-up again from the grandparent if needed, gives a red-black tree |
| Insertion.AttachLeaf | src/collections/rbtree/entry.rs:392-400 | the new node hangs at the vacancy, which is the insertion position in `order`; the tree stays a sorted linked tree with one more key; it is red-black, or has exactly one red-red pair at the new node when the parent is red |
| Insertion.AttachedAll | src/collections/rbtree/entry.rs:392-400 | the facts about the attached arena: linked, sorted, with the new key, and with colours as in `AttachLeaf` |
| Insertion.RawInsert | src/collections/rbtree/entry.rs:392-400 | inserting at a vacancy gives a sorted red-black tree whose in-order sequence is the old one with the new node at the vacancy's position, and whose keys are the old ones plus the new key |
| Removal.Without | src/collections/rbtree/map.rs:826-960 | the sequence with one position dropped: the elements before it are kept, and those after it move down by one |
| Removal.Replace | src/collections/rbtree/map.rs:828-843 | `replace` changes only keys and values and ends at a childless node; dropping that node's position from the copied pairs equals dropping the start node's position from the original pairs |
| Removal.UnlinkedRedBlack | src/collections/rbtree/map.rs:853-856 | freeing a red leaf keeps every red-black condition |
| Removal.UnlinkedShort | src/collections/rbtree/map.rs:857-861 | freeing a black leaf below a parent leaves a linked tree that is red-black except that the parent, of black height 1, is one black node short on the leaf's side |
| Rebalance.Rasie | src/collections/rbtree/node.rs:220-253 | for a node one black short on one side, with black height at least 2 (so the brother and, for a black brother, both nephews exist), the result is a red-black tree with the same keys in the same order; it terminates, climbing only in the black-brother, black-parent case and repeating once after a red brother |
| Rebalance.RasieBlack | src/collections/rbtree/node.rs:224-246 | the black-brother half of `rasie` (outer nephew red, inner nephew red, or neither) ends with a red-black tree |
| Rebalance.RedBrother | src/collections/rbtree/node.rs:247-252 | a red brother rotates over the short node; the black heights stay, the short node is red and still short, and its new brother is black |
| Rebalance.BlackBrother | src/collections/rbtree/node.rs:239-246 | painting a black brother with no red child red (and a red short node black) lowers the node's black height by one; the tree is red-black unless the node was black and has a parent, which is then one black short |
| Rebalance.OuterRed | src/collections/rbtree/node.rs:229-233 | a red outer nephew: one rotation and the repaints make the tree red-black again |
| Rebalance.InnerRed | src/collections/rbtree/node.rs:234-238 | a red inner nephew: two rotations and the repaints make the tree red-black again |
| Rebalance.InnerFirst | src/collections/rbtree/node.rs:234-236 | the first rotation of the inner-nephew case keeps the tree linked and the keys unchanged |
| RemoveFix.FixRed | src/collections/rbtree/map.rs:864-897 | red brother after a black leaf was freed: the rotation, then the case of the new nephew (no near child, both, or the near one only), gives a red-black tree with the same keys in the same order |
| RemoveFix.Turn | src/collections/rbtree/map.rs:878-881 | red brother with a nephew that has no near child: one more rotation and no repaints make the tree red-black |
| RemoveFix.OuterOnly | src/collections/rbtree/map.rs:915-925 | black brother with only a red outer child: the brother rotates over the parent, the nephew takes the parent's colour, and the tree is red-black |
| RemoveFix.BothFirst | src/collections/rbtree/map.rs:926-939 | the first rotation of the both-nephews case keeps the tree linked and the keys unchanged |
| RemoveFix.BothNephews | src/collections/rbtree/map.rs:926-939 | black brother with two red children (also the red-brother subcase at `map.rs:882-888`): the rotations and repaints make the tree red-black |
| RemoveFix.FixLeaf | src/collections/rbtree/map.rs:861-957 | the whole brother/nephew case analysis after a black leaf is freed ends with a red-black tree over the same keys in the same order; the childless black brother moves the shortage up through `rasie` |
| RemoveFix.FreeLeaf | src/collections/rbtree/map.rs:844-863 | freeing the childless node: a red one just clears its parent's link, the only node empties the tree, and a black one is repaired; every other node keeps its key and value |
| RemoveFix.RawRemove | src/collections/rbtree/map.rs:826-960 | the result is a sorted red-black tree with one handle fewer, whose entries in order are the old entries without the removed node's |
| RemoveFix.RemovedSorted | src/collections/rbtree/map.rs:826-960 | entries that are a sorted sequence without one pair are still sorted |
| Walk.FreeAll | src/collections/rbtree/map.rs:292-313 | the explicit-stack loop of `clear` frees every node, and its value, exactly once: afterwards nothing is live, and the ghost `trail` of freed handles lists every node of the tree with no repeats |
| Walk.Reached | src/collections/rbtree/map.rs:292-313 | every node is reached from the root by child links, so a set closed under "child of a member" holds them all |
| Walk.NewBranch | src/collections/rbtree/map.rs:181-210 | `new_branch` adds one record copying the source child's key and flag, below `dst` in slot `r`, and links `dst` to it; other records are kept |
| Walk.CopyTree | src/collections/rbtree/map.rs:211-235 | the explicit-stack walk of `clone` copies the root, then below each popped node its left and then right child; the result equals the original tree with every value |
| Contents.ToMapKeys | src/collections/rbtree/map.rs:961-975 | a key is in the denoted map exactly when some pair carries it; used, through the missing-key lemmas, by `Map.SearchIn`, the model of `search` |
| Contents.ToMapAt | src/collections/rbtree/map.rs:602-611 | with increasing keys, each pair's key maps to that pair's value; used by `get` (through the node lemma) and by the first and last entries |
| Contents.ToMapSize | src/collections/rbtree/map.rs:343-345 | with increasing keys the map has one entry per pair; used by `Map.RBTreeMap.Len`, so `len` counts both |
| Contents.ToMapInjective | src/collections/rbtree/map.rs:119-121 | an increasing sequence of pairs is determined by its map; used, through `Contents.ToMapDetermines`, by `Map.Equal`, the model of `eq` |
| Contents.ToMapDetermines | src/collections/rbtree/map.rs:119-121 | two increasing sequences are equal exactly when they denote the same map, so comparing in-order pairs compares maps; used by `Map.Equal`, the model of `eq` |
| Contents.ToMapInsert | src/collections/rbtree/entry.rs:392-400 | a pair inserted between smaller and larger keys keeps the keys increasing and adds exactly its key to the map |
| Contents.ToMapRemove | src/collections/rbtree/map.rs:705-714 | dropping one pair keeps the keys increasing and removes exactly its key |
| Contents.ItemsIncreasing | src/collections/rbtree/map/tests.rs:39-44 | the entries of a sorted tree have strictly increasing keys |
| KeySort.InsertByKey | src/collections/rbtree/map.rs:57-65 | stable insertion by key gives a permutation of the sequence plus the pair |
| KeySort.SortByKey | src/collections/rbtree/map.rs:62-63 | the stable sort gives a permutation of its input |
| KeySort.InsertByKeySorted | src/collections/rbtree/map.rs:62-63 | inserting into a non-decreasing sequence keeps it non-decreasing |
| KeySort.InsertByKeyMap | src/collections/rbtree/map.rs:62-63 | stable insertion updates the denoted map with the new pair: it is placed after every equal key |
| KeySort.SortByKeyMap | src/collections/rbtree/map.rs:57-65 | the sorted sequence is non-decreasing and denotes the same map as the input, so for a repeated key the pair that comes last still wins |
| Map.InsertAt | src/collections/rbtree/entry.rs:392-400 | `raw_insert` on the map's fields keeps the invariant with one more node and adds exactly the key's pair to the map |
| Map.RemoveAt | src/collections/rbtree/map.rs:826-960 | `raw_remove` on the map's fields keeps the invariant with one node fewer and removes exactly the node's key |
| Map.SearchIn | src/collections/rbtree/map.rs:961-975 | the key is found exactly when it is in the map, at the node holding its value; otherwise the result is the key's vacancy |
| Map.InsertedInv | src/collections/rbtree/entry.rs:392-400 | after linking the fresh handle, the invariant holds with `length + 1` and the allocation counter advanced |
| Map.ModelInserted | src/collections/rbtree/entry.rs:392-400 | placing the new node at the insertion position adds exactly its pair to the map |
| Map.WrittenModel | src/collections/rbtree/entry.rs:263-296 | a write through a value handle keeps the invariant and replaces exactly that key's value |
| Map.VacantMissing | src/collections/rbtree/entry.rs:339-351 | a key that has a vacancy is in no node of the tree |
| Map.RBTreeMap.New | src/collections/rbtree/map.rs:782-802 | the new map is valid and empty, with no root |
| Map.RBTreeMap.Clone | src/collections/rbtree/map.rs:180-235 | the clone is fresh and valid, with the same tree, the same length, the same entries in the same order, and the same colours and relations |
| Map.RBTreeMap.Len | src/collections/rbtree/map.rs:343-345 | `len` is the number of entries of the map |
| Map.RBTreeMap.IsEmpty | src/collections/rbtree/map.rs:327-329 | true exactly when the map has no entries |
| Map.RBTreeMap.RawSearch | src/collections/rbtree/map.rs:961-975 | `Found` exactly when the key is present, at the node holding it; otherwise the vacancy where the key belongs, the root vacancy for an empty tree |
| Map.RBTreeMap.Get | src/collections/rbtree/map.rs:602-611 | `Some` exactly when the key is present, with its value |
| Map.RBTreeMap.GetKeyValue | src/collections/rbtree/map.rs:678-687 | `Some((key, value))` exactly when the key is present |
| Map.RBTreeMap.ContainsKey | src/collections/rbtree/map.rs:656-662 | true exactly when the key is present |
| Map.RBTreeMap.Index | src/collections/rbtree/map.rs:161-163 | the value of a present key; a missing key is excluded, where the source panics |
| Map.RBTreeMap.GetMut | src/collections/rbtree/map.rs:630-639 | the handle of the key's node exactly when the key is present; it holds the key's value |
| Map.RBTreeMap.WriteValue | src/collections/rbtree/entry.rs:263-296 | a write through a value handle changes only that key's value; keys, structure and length stay |
| Map.RBTreeMap.RawFirst | src/collections/rbtree/map.rs:976-981 | None exactly for the empty map, otherwise the first node in key order |
| Map.RBTreeMap.RawLast | src/collections/rbtree/map.rs:982-987 | None exactly for the empty map, otherwise the last node in key order |
| Map.RBTreeMap.FirstKeyValue | src/collections/rbtree/map.rs:382-384 | None exactly for the empty map; otherwise an entry of the map whose key is the least |
| Map.RBTreeMap.LastKeyValue | src/collections/rbtree/map.rs:398-400 | None exactly for the empty map; otherwise the entry with the greatest key |
| Map.RBTreeMap.GetEntry | src/collections/rbtree/map.rs:576-581 | occupied exactly when the key is present, at its node; vacant with the key and its vacancy otherwise |
| Map.RBTreeMap.InsertVacant | src/collections/rbtree/entry.rs:392-400 | a fresh node holds the pair, the length grows by one and the map gains exactly the key |
| Map.RBTreeMap.Clear | src/collections/rbtree/map.rs:292-313 | afterwards the map is valid and empty, with length 0 and every node freed |
| Map.RBTreeMap.Insert | src/collections/rbtree/map.rs:549-557 | the key maps to the new value and nothing else changes; the old value is returned for a present key and None for a missing one, when the length grows by one |
| Map.RBTreeMap.RawRemove | src/collections/rbtree/map.rs:826-960 | the node's pair is returned, the length drops by one and the map loses exactly that key |
| Map.RBTreeMap.RemoveEntry | src/collections/rbtree/map.rs:705-714 | a present key's pair is returned and removed, and the length drops by one; a missing key gives None and changes nothing |
| Map.RBTreeMap.Remove | src/collections/rbtree/map.rs:731-737 | a present key's value is returned and the key removed; a missing key gives None with the map unchanged |
| Map.RBTreeMap.FirstEntry | src/collections/rbtree/map.rs:365-367 | None exactly for the empty map; otherwise the occupied entry of the least key |
| Map.RBTreeMap.LastEntry | src/collections/rbtree/map.rs:421-423 | None exactly for the empty map; otherwise the occupied entry of the greatest key |
| Map.RBTreeMap.PopFirst | src/collections/rbtree/map.rs:442-444 | None exactly for the empty map; otherwise the least entry is returned and removed, and every remaining key is larger |
| Map.RBTreeMap.PopLast | src/collections/rbtree/map.rs:463-465 | None exactly for the empty map; otherwise the greatest entry is returned and removed |
| Map.RBTreeMap.Extend | src/collections/rbtree/map.rs:144-148 | the pairs are inserted in turn: the map becomes the old map overridden by the pairs, with a later pair for the same key winning |
| Map.RBTreeMap.BulkBuild | src/collections/rbtree/map.rs:808-819 | a new map into which the pairs are inserted in turn denotes the pairs' map |
| Map.RBTreeMap.From | src/collections/rbtree/map.rs:57-65 | with no pairs, `new()`; otherwise the stable sort and bulk build denote the array's map, with the last pair for a repeated key winning |
| Map.RBTreeMap.Iter | src/collections/rbtree/map.rs:485-491 | a fresh iterator whose entries to come are all entries of the map, in ascending key order |
| Map.RBTreeMap.IterMut | src/collections/rbtree/map.rs:512-518 | a fresh mutable iterator over the map's nodes, in ascending key order |
| Map.RBTreeMap.Values | src/collections/rbtree/map.rs:752-754 | the values of the map's entries in ascending key order |
| Map.RBTreeMap.ValuesMut | src/collections/rbtree/map.rs:774-776 | the value handles of the map's nodes in ascending key order |
| Map.MergedStep | src/collections/rbtree/map.rs:144-148 | inserting the next pair after a merged prefix merges the prefix one longer |
| Map.Equal | src/collections/rbtree/map.rs:119-121 | two maps are equal exactly when they hold the same entries |
| MapEntry.EntryKeyIn | src/collections/rbtree/entry.rs:167-169 | an occupied entry's key is in the map with the node's value; a vacant entry's key is not in the map |
| MapEntry.Key | src/collections/rbtree/entry.rs:115-120 | the key the entry was looked up with: in the map exactly for an occupied entry, the vacant entry's own key otherwise |
| MapEntry.OrInsert | src/collections/rbtree/entry.rs:37-42 | an occupied entry gives its value's handle with the map unchanged; a vacant one first inserts the default; either way the key then maps to the value behind the handle |
| MapEntry.OrInsertWith | src/collections/rbtree/entry.rs:60-65 | `or_insert` with the default computed only for a vacant entry |
| MapEntry.OrInsertWithKey | src/collections/rbtree/entry.rs:87-98 | `or_insert` with the default computed from the entry's key, only for a vacant entry |
| MapEntry.AndModify | src/collections/rbtree/entry.rs:142-153 | an occupied key's value becomes `f` of the old value, applied once; a vacant entry changes nothing; the same entry is handed back |
| MapEntry.OccupiedGet | src/collections/rbtree/entry.rs:228-230 | the value the map holds for the entry's key |
| MapEntry.OccupiedInsert | src/collections/rbtree/entry.rs:319-322 | the old value is returned and the key gets the new one; the nodes, the structure and the length stay |
| MapEntry.OccupiedRemoveEntry | src/collections/rbtree/entry.rs:206-208 | the entry's pair is returned and removed from the map, which has one entry fewer |
| MapEntry.VacantInsert | src/collections/rbtree/entry.rs:392-400 | the key, absent before, is added with the value; the length grows by one and the returned handle holds exactly that pair |
| Iteration.Iter.New | src/collections/rbtree/iter.rs:37-43 | both ends wait at the root; every entry of the tree is to come, in key order |
| Iteration.Iter.NewEmpty | src/collections/rbtree/iter.rs:44-50 | nothing is to come |
| Iteration.Iter.Next | src/collections/rbtree/iter.rs:55-67 | None exactly when nothing is left, with nothing changed; otherwise the first entry to come, which is then gone |
| Iteration.Iter.NextBack | src/collections/rbtree/iter.rs:108-120 | None exactly when nothing is left; otherwise the last entry to come, which is then gone |
| Iteration.Iter.SizeHint | src/collections/rbtree/iter.rs:68-70 | both bounds equal the number of entries to come |
| Iteration.Iter.Len | src/collections/rbtree/iter.rs:124-126 | the number of entries to come |
| Iteration.Iter.Last | src/collections/rbtree/iter.rs:71-82 | what `next_back` would return: the last entry to come |
| Iteration.Iter.Min | src/collections/rbtree/iter.rs:83-97 | what `next` would return: the first entry to come, whose key is the least of those to come |
| Iteration.Iter.Max | src/collections/rbtree/iter.rs:98-103 | the last entry to come, whose key is the greatest |
| Iteration.Iter.Clone | src/collections/rbtree/iter.rs:27-33 | an independent iterator with the same entries to come |
| Iteration.IterMut.New | src/collections/rbtree/iter.rs:135-141 | every node of the tree is to come, in key order |
| Iteration.IterMut.NewEmpty | src/collections/rbtree/iter.rs:142-148 | nothing is to come |
| Iteration.IterMut.Next | src/collections/rbtree/iter.rs:160-172 | None exactly when nothing is left; otherwise the key and value handle of the first node to come, which is then gone |
| Iteration.IterMut.NextBack | src/collections/rbtree/iter.rs:211-223 | None exactly when nothing is left; otherwise the key and value handle of the last node to come |
| Iteration.IterMut.SizeHint | src/collections/rbtree/iter.rs:173-175 | both bounds equal the number of nodes to come |
| Iteration.IterMut.Len | src/collections/rbtree/iter.rs:226-228 | the number of nodes to come |
| Iteration.IterMut.Last | src/collections/rbtree/iter.rs:176-187 | the last node to come |
| Iteration.IterMut.Min | src/collections/rbtree/iter.rs:188-202 | the first node to come, of least key |
| Iteration.IterMut.Max | src/collections/rbtree/iter.rs:203-208 | the last node to come, of greatest key |
| Iteration.IterMut.Iter | src/collections/rbtree/iter.rs:149-155 | a shared iterator over exactly the entries of the nodes still to come |
| Iteration.AllEqual | src/collections/rbtree/map.rs:119-121 | comparing lengths and then the entries pair by pair is true exactly when both iterators have the same entries to come |
| MapValues.Values.New | src/collections/rbtree/map/values.rs:51-53 | the values to come are the values of the inner iterator's entries |
| MapValues.Values.Next | src/collections/rbtree/map/values.rs:65-67 | the value of the inner `next`: None when nothing is left, else the first value, which is then gone |
| MapValues.Values.NextBack | src/collections/rbtree/map/values.rs:79-81 | the value of the inner `next_back` |
| MapValues.Values.Last | src/collections/rbtree/map/values.rs:73-75 | the value of the largest key still to come |
| MapValues.Values.SizeHint | src/collections/rbtree/map/values.rs:69-71 | that of the inner iterator |
| MapValues.Values.Len | src/collections/rbtree/map/values.rs:85-87 | that of the inner iterator |
| MapValues.Values.Clone | src/collections/rbtree/map/values.rs:93-97 | an independent projection with the same values to come |
| MapValues.ValuesMut.New | src/collections/rbtree/map/values.rs:7-9 | the handles to come are the inner iterator's |
| MapValues.ValuesMut.Next | src/collections/rbtree/map/values.rs:21-23 | the handle from the inner `next` |
| MapValues.ValuesMut.NextBack | src/collections/rbtree/map/values.rs:34-36 | the handle from the inner `next_back` |
| MapValues.ValuesMut.Last | src/collections/rbtree/map/values.rs:29-31 | the handle of the largest key still to come |
| MapValues.ValuesMut.SizeHint | src/collections/rbtree/map/values.rs:25-27 | that of the inner iterator |
| MapValues.ValuesMut.Len | src/collections/rbtree/map/values.rs:39-41 | that of the inner iterator |
| Checker.CheckNode | src/collections/rbtree/map/tests.rs:27-44 | the checks at one node pass exactly when a red node has no red child and the children's keys are below and above the node's key |
| Checker.CheckTree | src/collections/rbtree/map/tests.rs:7-48 | the stack walk accepts exactly the empty tree, or a tree with a black root whose nodes all pass the local checks and whose null links are all reached with the same black count |
| Checker.Check | src/collections/rbtree/map/tests.rs:7-48 | every map that keeps its invariant passes `check` |
| Checker.HeightsBh | src/collections/rbtree/map/tests.rs:18-28 | in a red-black tree every null link is reached with the same black count |
| Checker.TreeOkValid | src/collections/rbtree/map/tests.rs:29-44 | a sorted tree with only red and black nodes and no red node over a red child passes the local checks everywhere |
| Checker.ValidAccepted | src/collections/rbtree/map/tests.rs:7-48 | every red-black tree the map keeps is accepted by `check` |
| Finder.LowerChar | src/collections/fuzzy/finder/v1.rs:14-18 | the result is never a capital (ASCII `A`-`Z` or Latin-1 U+00C0-U+00DE other than U+00D7); capitals move down by 32 and every other character is kept |
| Finder.Fold | src/collections/fuzzy/finder/v1.rs:14-18 | folding keeps the length and folds each character |
| Finder.FoldFold | src/collections/fuzzy/finder/v1.rs:59 | folding is idempotent, so a folded word is searched as itself |
| Finder.Get | src/collections/fuzzy/finder/v1.rs:82 | `children.get(&c)`: a child entry under `c` if there is one, and None only when no entry carries `c` |
| Finder.Put | src/collections/fuzzy/finder/v1.rs:61-64 | `entry(c).or_insert` on a missing character: the list stays sorted and gains exactly the new entry |
| Finder.GetIn | src/collections/fuzzy/finder/v1.rs:82 | in a sorted children list `get` finds the one child of a character |
| Finder.GetPut | src/collections/fuzzy/finder/v1.rs:61-64 | after adding, the new character leads to the new child and every other character to its old child |
| Finder.Walk | src/collections/fuzzy/finder/v1.rs:80-87 | following the characters stays inside the trie, and the empty word stays at the start node |
| Finder.WalkInjective | src/collections/fuzzy/finder/v1.rs:60-66 | two words reach the same node only if they are the same word, so a node holds the values of one word |
| Finder.InsertLookup | src/collections/fuzzy/finder/v1.rs:57-67 | appending to the word's node adds the value after the word's old values and changes no other word |
| Finder.FitsBounds | src/collections/fuzzy/finder/v1.rs:113-118 | a word fitting the pattern is no shorter than it, at most `MISS_COUNT` characters longer per pattern character, and ends on the pattern's last character |
| Finder.FitsSelf | src/collections/fuzzy/finder/v1.rs:113-115 | a pattern fits itself with no misses |
| Finder.MatchesFit | src/collections/fuzzy/finder/v1.rs:108-127 | the first phase records exactly the nodes reached by a word fitting the pattern, with at most `MISS_COUNT` skipped characters before each matched one |
| Finder.HitSpec | src/collections/fuzzy/finder/v1.rs:102-148 | `search_prefix` collects exactly the nodes with values whose word extends a word fitting the pattern |
| Finder.PrefixHit | src/collections/fuzzy/finder/v1.rs:102-148 | every stored word that starts with the pattern has its values collected |
| Finder.FuzzyFinder.constructor | src/collections/fuzzy/finder/v1.rs:48-55 | a root with no children and no values: no word has values |
| Finder.FuzzyFinder.Insert | src/collections/fuzzy/finder/v1.rs:57-67 | the folded word gains the value after its earlier values; every other word is unchanged |
| Finder.FuzzyFinder.Descend | src/collections/fuzzy/finder/v1.rs:60-65 | the cursor loop creates missing nodes only, and ends at the node the folded word leads to |
| Finder.FuzzyFinder.Extend | src/collections/fuzzy/finder/v1.rs:36-40 | each word gains the values of its pairs, in order |
| Finder.FuzzyFinder.Search | src/collections/fuzzy/finder/v1.rs:78-89 | the values of the folded word in insertion order, or None when the path is missing or its node holds no values |
| Finder.FuzzyFinder.SearchPrefix | src/collections/fuzzy/finder/v1.rs:102-148 | the values of the collected nodes, each node once; None exactly when no node is collected |
| Finder.FuzzyFinder.Matched | src/collections/fuzzy/finder/v1.rs:104-127 | the first loop yields each matched node once, and exactly the matched nodes |
| Finder.FuzzyFinder.Collect | src/collections/fuzzy/finder/v1.rs:128-137 | the second loop yields, each once, exactly the nodes with values in the subtrees of the matched nodes |

## Left out

- Memory management is not modelled:
  - the allocator and its leak counter;
  - allocation failure (`handle_alloc_error`);
  - `transmute_copy`, `copy_nonoverlapping` and `drop_in_place`;
  - `Drop`, lifetimes and `PhantomData`.

  Nodes are arena records, and freeing removes a handle.
- Keys are `int`; the generic `K: Ord` and the `Borrow<Q>` lookup are not
  modelled. The allocator type parameter is dropped.
- `Debug` and `Display` formatting are output only and are not modelled.
- `extend` over pairs of references (`map.rs:169-171`) copies the pairs and
  extends with them. It is the same as `Map.RBTreeMap.Extend` on the copied
  pairs and is not modelled separately.
- Mutable references (`get_mut`, `iter_mut`, `values_mut`, `into_mut`,
  `OccupiedEntry::get_mut`, `or_insert`'s result) become node handles.
  - A write through one is `Map.RBTreeMap.WriteValue`.
  - Borrow-checking of those references is not modelled.
- `into_iter` (`map.rs:109-111`) is modelled by `Map.RBTreeMap.Iter`; the
  consumption of the map is not modelled.
- `parent.parent.set_child(..)` and `toggle_rela` are not defined in the
  source files. The model folds each `set_child` into the link writes of
  one rotation (`Rotation.SingleRotate`).
- Some `raw_remove` cases are written inline in the source as direct link
  writes. They are modelled as the sequence of `single_rotate` calls and
  repaints that gives the same final links and colours. Both the
  red-brother cases (`map.rs:864-894`) and the black-brother cases
  (`map.rs:915-956`) are modelled this way.
- The inner-nephew cases of `raw_remove` (`map.rs:889-896` after a red
  brother, `map.rs:940-956` for a black one) give the same final links and
  colours as `rasie`'s inner-nephew case, and are modelled by
  `Rebalance.InnerRed`. The childless black brother (`map.rs:903-914`) is
  `Rebalance.BlackBrother`, followed by `Rebalance.Rasie` at the parent.
- `check`'s failing asserts (panics) are modelled as a `false` result of
  `Checker.CheckTree`.
- `Rebalance.Rasie` requires a black height of at least 2 at the short node.
  Below that, the source dereferences a missing brother or nephew unchecked,
  and no caller reaches it.
- The header-node design of `new` (`map.rs:791-802`) is not modelled. Both
  `new` and `new_in` give `Map.RBTreeMap.New`, an empty map with a null
  root.
- Finder.Fold: the finder's `to_lowercase` is Unicode lower-casing. The
  model folds ASCII and Latin-1 capitals only. Every operation applies the same `Fold`,
  and the properties use only that it is the same function everywhere and
  idempotent.
- Finder.LowerChar: lowers only the ASCII capitals and the Latin-1 capitals
  U+00C0-U+00DE (except U+00D7). Unicode `to_lowercase` also lowers the
  capitals of other scripts (Greek, Cyrillic, Latin Extended and more) and
  may map one character to several; the Unicode case tables are not part of
  this model, so those characters are kept.
- Map.RBTreeMap.Index: the missing-key panic of `index` (`map.rs:161-163`)
  is excluded by the precondition `key in Model()`; the model does not treat
  the panic as a result. A caller unsure of the key uses `Get`.
- The build-script parameter file of the finder (`v1.rs:1-9`) is not
  modelled; `MISS_COUNT` is its default, 3.
- The children of a finder node are an `RBTreeMap<char, Node>` in the
  source. The model keeps them as a character-sorted association list, with
  the trie nodes in an arena. The tree map's own behaviour is proved
  separately.
- The `HashSet` of node pointers in `search_prefix` is modelled as a set of
  node indices.
- Finder.FuzzyFinder.SearchPrefix: the order of the result is stated as
  `Gather` over the list of collected nodes. The exact order of that list
  (the pop order of both stacks) is not pinned down; its contents and its
  freedom from duplicates are.
- `bulk_build_from_sorted_iter` is modelled as `Map.RBTreeMap.BulkBuild`: the
  pairs are inserted in turn, the same as in the source.

## Findings

| source | as written | input that shows it | evidently intended | confidence | as-written member | corrected member |
|---|---|---|---|---|---|---|
| src/collections/rbtree/flag.rs:120-123 | `set_color` masks the byte with `0b11110000`, which clears the relation bits 0-1 as well as the colour bits 2-3 | flag `0x05` (a black right child) after `set_color(RED)` reads as a red LEFT child | mask `0b11110011`, keeping the relation as `set_red`/`set_black`/`set_root` do | not executed | Flag.Flag.SetColorAsWritten, Flag.SetColorAsWrittenLosesRela | Flag.Flag.SetColor |
