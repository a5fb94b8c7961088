/**
 * The fuzzy finder (version 1): a trie over characters whose nodes hold the
 * values stored for the word spelled on the path to them. `insert` and the
 * exact `search` follow that path; `search_prefix` matches a pattern while
 * allowing up to `MISS_COUNT` consecutive trie characters to be skipped
 * before each matched pattern character, and then collects the values of
 * every node below a matched node.
 *
 * The trie lives in an arena: node 0 is the root, and a node's children are
 * later nodes. A node's children form an association list sorted by
 * character, which is the order in which the source's `RBTreeMap` of
 * children iterates.
 */
module Finder {
  import opened Wrappers

  /** The number of consecutive trie characters the prefix search may skip. */
  const MISS_COUNT: nat := 3

  /** A trie node: its children by character, and the values stored for its word. */
  datatype TNode<T> = TNode(children: seq<(char, nat)>, values: seq<T>)

  // ---------------------------------------------------------------------------
  // Case folding

  /**
   * The capitals the model lower-cases: the ASCII letters `A`-`Z` and the
   * Latin-1 letters from U+00C0 to U+00DE except the multiplication sign
   * U+00D7. Each lies 32 code points above its small letter.
   */
  predicate Capital(c: char) {
    'A' <= c <= 'Z' || ('\U{C0}' <= c <= '\U{DE}' && c != '\U{D7}')
  }

  /** Lower-case of a capital; every other character is kept. */
  function LowerChar(c: char): (d: char)
    ensures !Capital(d)
    ensures !Capital(c) ==> d == c
    ensures Capital(c) ==> d as int - c as int == 32
  {
    if Capital(c) then (c as int + 32) as char else c
  }

  /** The case folding every operation applies to its word first. */
  function Fold(w: string): (f: string)
    ensures |f| == |w|
    ensures forall i :: 0 <= i < |f| ==> f[i] == LowerChar(w[i])
  {
    seq(|w|, i requires 0 <= i < |w| => LowerChar(w[i]))
  }

  /** Folding twice is folding once, so a folded word is searched as itself. */
  lemma FoldFold(w: string)
    ensures Fold(Fold(w)) == Fold(w)
  {
    var f := Fold(w);
    assert forall i :: 0 <= i < |f| ==> LowerChar(f[i]) == f[i];
  }

  // ---------------------------------------------------------------------------
  // Children lists

  /** Characters strictly increase along a children list. */
  ghost predicate KidsSorted(kids: seq<(char, nat)>) {
    forall i, j :: 0 <= i < j < |kids| ==> kids[i].0 < kids[j].0
  }

  /** `children.get(&c)`: the child under `c`, if there is one. */
  function Get(kids: seq<(char, nat)>, c: char): (r: Option<nat>)
    ensures r.Some? ==> (c, r.value) in kids
    ensures r.None? ==> forall e :: e in kids ==> e.0 != c
  {
    if kids == [] then None
    else if kids[0].0 == c then Some(kids[0].1)
    else Get(kids[1..], c)
  }

  /** In a sorted list a character has at most one child; `Get` finds it. */
  lemma {:induction false} GetIn(kids: seq<(char, nat)>, c: char, x: nat)
    requires KidsSorted(kids) && (c, x) in kids
    ensures Get(kids, c) == Some(x)
  {
    if kids[0] != (c, x) {
      var j :| 0 <= j < |kids| && kids[j] == (c, x);
      assert kids[0].0 < kids[j].0;
      assert kids[1..][j - 1] == (c, x);
      GetIn(kids[1..], c, x);
    }
  }

  /** The children list with `(c, x)` added at its place in character order (`entry(c).or_insert`). */
  function Put(kids: seq<(char, nat)>, c: char, x: nat): (r: seq<(char, nat)>)
    requires KidsSorted(kids) && Get(kids, c).None?
    ensures KidsSorted(r) && |r| == |kids| + 1
    ensures forall e :: e in r <==> e in kids || e == (c, x)
  {
    if kids == [] || c < kids[0].0 then
      [(c, x)] + kids
    else
      var rest := Put(kids[1..], c, x);
      assert forall e :: e in kids <==> e == kids[0] || e in kids[1..];
      assert forall e :: e in rest ==> kids[0].0 < e.0 by {
        forall e | e in rest ensures kids[0].0 < e.0 {
          if e in kids[1..] {
            var j :| 0 <= j < |kids[1..]| && kids[1..][j] == e;
            assert kids[j + 1] == e;
          }
        }
      }
      ConsSorted(kids[0], rest);
      assert forall e :: e in [kids[0]] + rest <==> e == kids[0] || e in rest;
      [kids[0]] + rest
  }

  /** A head below every character of a sorted list keeps it sorted. */
  lemma ConsSorted(h: (char, nat), rest: seq<(char, nat)>)
    requires KidsSorted(rest) && forall e :: e in rest ==> h.0 < e.0
    ensures KidsSorted([h] + rest)
  {
    var l := [h] + rest;
    forall i, j | 0 <= i < j < |l| ensures l[i].0 < l[j].0 {
      if i == 0 {
        assert l[j] == rest[j - 1] && rest[j - 1] in rest;
      } else {
        assert l[i] == rest[i - 1] && l[j] == rest[j - 1];
      }
    }
  }

  /** After `Put` the new character leads to the new child and every other character to its old child. */
  lemma GetPut(kids: seq<(char, nat)>, c: char, x: nat, d: char)
    requires KidsSorted(kids) && Get(kids, c).None?
    ensures Get(Put(kids, c, x), d) == if d == c then Some(x) else Get(kids, d)
  {
    var r := Put(kids, c, x);
    if d == c {
      GetIn(r, c, x);
    } else if Get(kids, d).Some? {
      GetIn(r, d, Get(kids, d).value);
    }
  }

  // ---------------------------------------------------------------------------
  // The trie arena

  /**
   * A well-formed trie: node 0 exists, children lists are sorted, every child
   * is a later node, and no node is the child of two entries (so the arena is
   * a tree rooted at node 0).
   */
  ghost predicate Trie<T>(nodes: seq<TNode<T>>) {
    && |nodes| > 0
    && (forall i :: 0 <= i < |nodes| ==> KidsSorted(nodes[i].children))
    && (forall i, e :: 0 <= i < |nodes| && e in nodes[i].children ==> i < e.1 < |nodes|)
    && (forall i1, i2, c1, c2, x ::
          0 <= i1 < |nodes| && 0 <= i2 < |nodes| && (c1, x) in nodes[i1].children && (c2, x) in nodes[i2].children
          ==> i1 == i2 && c1 == c2)
  }

  /** The child of node `n` under `c`. */
  function Child<T>(nodes: seq<TNode<T>>, n: nat, c: char): (r: Option<nat>)
    requires Trie(nodes) && n < |nodes|
    ensures r.Some? ==> n < r.value < |nodes|
  {
    Get(nodes[n].children, c)
  }

  /** The node reached from `n` by the characters of `s`, if the trie has that path. */
  function Walk<T>(nodes: seq<TNode<T>>, n: nat, s: string): (r: Option<nat>)
    requires Trie(nodes) && n < |nodes|
    ensures r.Some? ==> n <= r.value < |nodes|
    ensures s == [] ==> r == Some(n)
    decreases |s|
  {
    if s == [] then Some(n)
    else
      match Child(nodes, n, s[0])
      case None => None
      case Some(c) => Walk(nodes, c, s[1..])
  }

  /** Walking `s + t` is walking `s`, then `t`. */
  lemma {:induction false} WalkAppend<T>(nodes: seq<TNode<T>>, n: nat, s: string, t: string)
    requires Trie(nodes) && n < |nodes|
    ensures Walk(nodes, n, s + t) == match Walk(nodes, n, s) case None => None case Some(y) => Walk(nodes, y, t)
    decreases |s|
  {
    if s == [] {
      assert s + t == t;
    } else {
      assert (s + t)[0] == s[0] && (s + t)[1..] == s[1..] + t;
      match Child(nodes, n, s[0])
      case None =>
      case Some(c) => WalkAppend(nodes, c, s[1..], t);
    }
  }

  /** The prefix one character longer is the prefix followed by that character. */
  lemma PrefixStep(w: string, k: nat)
    requires k < |w|
    ensures w[..k + 1] == w[..k] + [w[k]]
  {
  }

  /** The last step of a non-empty walk: the walk of all but the last character reaches a parent holding the node under the last character. */
  lemma WalkLast<T>(nodes: seq<TNode<T>>, n: nat, s: string)
    requires Trie(nodes) && n < |nodes| && s != [] && Walk(nodes, n, s).Some?
    ensures Walk(nodes, n, s[..|s| - 1]).Some?
    ensures (s[|s| - 1], Walk(nodes, n, s).value) in nodes[Walk(nodes, n, s[..|s| - 1]).value].children
    ensures n < Walk(nodes, n, s).value
  {
    var a, c := s[..|s| - 1], s[|s| - 1];
    assert s == a + [c];
    WalkAppend(nodes, n, a, [c]);
    var y := Walk(nodes, n, a).value;
    assert Walk(nodes, y, [c]) == Child(nodes, y, c);
  }

  /** Two words lead from `n` to the same node only if they are the same word. */
  lemma {:induction false} WalkInjective<T>(nodes: seq<TNode<T>>, n: nat, s1: string, s2: string)
    requires Trie(nodes) && n < |nodes|
    requires Walk(nodes, n, s1).Some? && Walk(nodes, n, s1) == Walk(nodes, n, s2)
    ensures s1 == s2
    decreases |s1| + |s2|
  {
    if s1 == [] || s2 == [] {
      if s1 != [] { WalkLast(nodes, n, s1); }
      if s2 != [] { WalkLast(nodes, n, s2); }
    } else {
      WalkLast(nodes, n, s1);
      WalkLast(nodes, n, s2);
      WalkInjective(nodes, n, s1[..|s1| - 1], s2[..|s2| - 1]);
      assert s1 == s1[..|s1| - 1] + [s1[|s1| - 1]] && s2 == s2[..|s2| - 1] + [s2[|s2| - 1]];
    }
  }

  /** The values stored for the (already folded) word `w`; none when the trie has no path for it. */
  ghost function LookupIn<T>(nodes: seq<TNode<T>>, w: string): seq<T>
    requires Trie(nodes)
  {
    match Walk(nodes, 0, w)
    case None => []
    case Some(x) => nodes[x].values
  }

  // ---------------------------------------------------------------------------
  // Growth of the trie during `insert`

  /**
   * `nodes2` only adds to `nodes`: old nodes keep their values and their
   * children, a character an old node had no child for leads nowhere or to a
   * new node, and new nodes hold no values.
   */
  ghost predicate Grows<T>(nodes: seq<TNode<T>>, nodes2: seq<TNode<T>>)
    requires Trie(nodes) && Trie(nodes2)
  {
    && |nodes| <= |nodes2|
    && (forall i :: 0 <= i < |nodes| ==> nodes2[i].values == nodes[i].values)
    && (forall i :: |nodes| <= i < |nodes2| ==> nodes2[i].values == [])
    && (forall i, c :: 0 <= i < |nodes| && Child(nodes, i, c).Some? ==> Child(nodes2, i, c) == Child(nodes, i, c))
    && (forall i, c :: 0 <= i < |nodes| && Child(nodes, i, c).None? && Child(nodes2, i, c).Some? ==> Child(nodes2, i, c).value >= |nodes|)
  }

  lemma GrowsSelf<T>(nodes: seq<TNode<T>>)
    requires Trie(nodes)
    ensures Grows(nodes, nodes)
  {
  }

  lemma GrowsTrans<T>(n0: seq<TNode<T>>, n1: seq<TNode<T>>, n2: seq<TNode<T>>)
    requires Trie(n0) && Trie(n1) && Trie(n2) && Grows(n0, n1) && Grows(n1, n2)
    ensures Grows(n0, n2)
  {
    forall i, c | 0 <= i < |n0| && Child(n0, i, c).None? && Child(n2, i, c).Some?
      ensures Child(n2, i, c).value >= |n0|
    {
      if Child(n1, i, c).Some? {
        assert Child(n2, i, c) == Child(n1, i, c);
      }
    }
  }

  /** A walk that exists before growth leads to the same node after; one that did not exist leads nowhere or to a new node. */
  lemma {:induction false} WalkGrows<T>(n0: seq<TNode<T>>, n1: seq<TNode<T>>, n: nat, s: string)
    requires Trie(n0) && Trie(n1) && Grows(n0, n1) && n < |n1|
    ensures n < |n0| && Walk(n0, n, s).Some? ==> Walk(n1, n, s) == Walk(n0, n, s)
    ensures (n >= |n0| || Walk(n0, n, s).None?) && Walk(n1, n, s).Some? ==> Walk(n1, n, s).value >= |n0|
    decreases |s|
  {
    if s != [] {
      match Child(n1, n, s[0])
      case None =>
      case Some(c) => WalkGrows(n0, n1, c, s[1..]);
    }
  }

  /** A new childless node under `c` of node `cur`, appended at the end of the arena. */
  function AddChild<T>(nodes: seq<TNode<T>>, cur: nat, c: char): (r: seq<TNode<T>>)
    requires Trie(nodes) && cur < |nodes| && Child(nodes, cur, c).None?
    ensures |r| == |nodes| + 1 && r[..|nodes|][cur := nodes[cur]] == nodes && r[|nodes|] == TNode([], [])
    ensures r[cur] == TNode(Put(nodes[cur].children, c, |nodes|), nodes[cur].values)
  {
    nodes[cur := TNode(Put(nodes[cur].children, c, |nodes|), nodes[cur].values)] + [TNode([], [])]
  }

  /** Adding a child keeps the arena a trie. */
  lemma AddChildTrie<T>(nodes: seq<TNode<T>>, cur: nat, c: char)
    requires Trie(nodes) && cur < |nodes| && Child(nodes, cur, c).None?
    ensures Trie(AddChild(nodes, cur, c))
  {
    var r := AddChild(nodes, cur, c);
    forall i | 0 <= i < |nodes| && i != cur ensures r[i] == nodes[i] {
      assert r[..|nodes|][cur := nodes[cur]][i] == nodes[i];
    }
  }

  /** Adding a child grows the arena, and the new node is the child under `c`. */
  lemma AddChildGrows<T>(nodes: seq<TNode<T>>, cur: nat, c: char)
    requires Trie(nodes) && cur < |nodes| && Child(nodes, cur, c).None?
    ensures Trie(AddChild(nodes, cur, c)) && Grows(nodes, AddChild(nodes, cur, c))
    ensures Child(AddChild(nodes, cur, c), cur, c) == Some(|nodes|)
  {
    AddChildTrie(nodes, cur, c);
    var r := AddChild(nodes, cur, c);
    forall i, d | 0 <= i < |nodes| ensures Get(r[i].children, d) == if i == cur && d == c then Some(|nodes|) else Get(nodes[i].children, d) {
      if i == cur {
        GetPut(nodes[cur].children, c, |nodes|, d);
      } else {
        assert r[..|nodes|][cur := nodes[cur]][i] == nodes[i];
      }
    }
    forall i | 0 <= i < |nodes| ensures r[i].values == nodes[i].values {
      if i != cur { assert r[..|nodes|][cur := nodes[cur]][i] == nodes[i]; }
    }
  }

  /** One added child in the `insert` loop: the arena still grows from where it started, and the walk so far is kept. */
  lemma AddStep<T>(n0: seq<TNode<T>>, n1: seq<TNode<T>>, cur: nat, s: string, c: char)
    requires Trie(n0) && Trie(n1) && Grows(n0, n1) && cur < |n1| && Child(n1, cur, c).None? && Walk(n1, 0, s) == Some(cur)
    ensures Trie(AddChild(n1, cur, c)) && Grows(n0, AddChild(n1, cur, c))
    ensures Walk(AddChild(n1, cur, c), 0, s) == Some(cur) && Child(AddChild(n1, cur, c), cur, c) == Some(|n1|)
  {
    AddChildGrows(n1, cur, c);
    GrowsTrans(n0, n1, AddChild(n1, cur, c));
    WalkGrows(n1, AddChild(n1, cur, c), 0, s);
  }

  /** Appending `v` to the node of the word `w` after growth: `w` gains `v`, no other word changes. */
  lemma InsertLookup<T>(n0: seq<TNode<T>>, n1: seq<TNode<T>>, cur: nat, w: string, v: T)
    requires Trie(n0) && Trie(n1) && Grows(n0, n1) && Walk(n1, 0, w) == Some(cur)
    ensures Trie(n1[cur := TNode(n1[cur].children, n1[cur].values + [v])])
    ensures forall u ::
              LookupIn(n1[cur := TNode(n1[cur].children, n1[cur].values + [v])], u) ==
              (if u == w then LookupIn(n0, u) + [v] else LookupIn(n0, u))
  {
    var n2 := n1[cur := TNode(n1[cur].children, n1[cur].values + [v])];
    assert Trie(n2) by {
      assert forall i :: 0 <= i < |n1| ==> n2[i].children == n1[i].children;
    }
    forall u ensures LookupIn(n2, u) == if u == w then LookupIn(n0, u) + [v] else LookupIn(n0, u) {
      SameWalk(n1, n2, 0, u);
      WalkGrows(n0, n1, 0, u);
      if Walk(n1, 0, u).Some? && u != w {
        if Walk(n1, 0, u).value == cur {
          WalkInjective(n1, 0, u, w);
        }
      }
    }
  }

  /** Walks only depend on the children lists. */
  lemma {:induction false} SameWalk<T>(n1: seq<TNode<T>>, n2: seq<TNode<T>>, n: nat, s: string)
    requires Trie(n1) && Trie(n2) && |n1| == |n2| && n < |n1|
    requires forall i :: 0 <= i < |n1| ==> n2[i].children == n1[i].children
    ensures Walk(n2, n, s) == Walk(n1, n, s)
    decreases |s|
  {
    if s != [] {
      match Child(n1, n, s[0])
      case None =>
      case Some(c) => SameWalk(n1, n2, c, s[1..]);
    }
  }

  // ---------------------------------------------------------------------------
  // The prefix search, as sets

  /** A match: `s` spells pattern `q`, skipping at most `MISS_COUNT` characters (`m` already spent) before each matched one, and ends on the last matched character. */
  ghost predicate Fits(s: string, q: string, m: nat)
    decreases |s|
  {
    if q == [] then s == []
    else |s| > 0 && ((s[0] == q[0] && Fits(s[1..], q[1..], 0)) || (m < MISS_COUNT && Fits(s[1..], q, m + 1)))
  }

  /** A pattern fits itself, and a fitting word is no shorter than the pattern and at most `MISS_COUNT` longer per pattern character. */
  lemma {:induction false} FitsBounds(s: string, q: string, m: nat)
    requires m <= MISS_COUNT && Fits(s, q, m)
    ensures |q| <= |s| && (q != [] ==> |s| + m <= |q| * (MISS_COUNT + 1) && s[|s| - 1] == q[|q| - 1])
    decreases |s|
  {
    if q != [] {
      if s[0] == q[0] && Fits(s[1..], q[1..], 0) {
        FitsBounds(s[1..], q[1..], 0);
        if q[1..] == [] { assert s[1..] == []; }
      } else {
        FitsBounds(s[1..], q, m + 1);
      }
    }
  }

  lemma {:induction false} FitsSelf(q: string)
    ensures Fits(q, q, 0)
    decreases |q|
  {
    if q != [] {
      FitsSelf(q[1..]);
    }
  }

  /** One entry of the stack of the first phase: the node reached, the pattern position `k` still to match, and `m` consecutive misses so far. */
  datatype Probe = Probe(node: nat, k: nat, m: nat)

  ghost predicate ProbeOk<T>(nodes: seq<TNode<T>>, p: string, e: Probe) {
    e.node < |nodes| && e.k <= |p|
  }

  /**
   * The nodes the first phase records, started from `n` at pattern position
   * `k` with `m` misses: `n` itself once the pattern is used up; otherwise
   * what the children contribute.
   */
  ghost function Matches<T>(nodes: seq<TNode<T>>, p: string, n: nat, k: nat, m: nat): set<nat>
    requires Trie(nodes) && n < |nodes| && k <= |p|
    decreases |nodes| - n, 1, 0
  {
    if k == |p| then {n} else MatchFrom(nodes, p, n, k, m, 0)
  }

  /** What the children `j..` of `n` contribute: a child whose character is the pattern's resets the misses; while misses remain, any child may be skipped. */
  ghost function MatchFrom<T>(nodes: seq<TNode<T>>, p: string, n: nat, k: nat, m: nat, j: nat): set<nat>
    requires Trie(nodes) && n < |nodes| && k < |p| && j <= |nodes[n].children|
    decreases |nodes| - n, 0, |nodes[n].children| - j
  {
    if j == |nodes[n].children| then {}
    else
      var e := nodes[n].children[j];
      assert e in nodes[n].children;
      MatchKid(nodes, p, e, k, m) + MatchFrom(nodes, p, n, k, m, j + 1)
  }

  /** What one child entry `e` of a node contributes at pattern position `k` with `m` misses. */
  ghost function MatchKid<T>(nodes: seq<TNode<T>>, p: string, e: (char, nat), k: nat, m: nat): set<nat>
    requires Trie(nodes) && e.1 < |nodes| && k < |p|
    decreases |nodes| - e.1, 2, 0
  {
    (if e.0 == p[k] then Matches(nodes, p, e.1, k + 1, 0) else {}) +
    (if m < MISS_COUNT then Matches(nodes, p, e.1, k, m + 1) else {})
  }

  /** The number of stack entries the first phase pops for an entry, counted like `Matches`. */
  ghost function Work<T>(nodes: seq<TNode<T>>, p: string, n: nat, k: nat, m: nat): nat
    requires Trie(nodes) && n < |nodes| && k <= |p|
    decreases |nodes| - n, 1, 0
  {
    if k == |p| then 1 else 1 + WorkFrom(nodes, p, n, k, m, 0)
  }

  ghost function WorkFrom<T>(nodes: seq<TNode<T>>, p: string, n: nat, k: nat, m: nat, j: nat): nat
    requires Trie(nodes) && n < |nodes| && k < |p| && j <= |nodes[n].children|
    decreases |nodes| - n, 0, |nodes[n].children| - j
  {
    if j == |nodes[n].children| then 0
    else
      var e := nodes[n].children[j];
      assert e in nodes[n].children;
      WorkKid(nodes, p, e, k, m) + WorkFrom(nodes, p, n, k, m, j + 1)
  }

  ghost function WorkKid<T>(nodes: seq<TNode<T>>, p: string, e: (char, nat), k: nat, m: nat): nat
    requires Trie(nodes) && e.1 < |nodes| && k < |p|
    decreases |nodes| - e.1, 2, 0
  {
    (if e.0 == p[k] then Work(nodes, p, e.1, k + 1, 0) else 0) +
    (if m < MISS_COUNT then Work(nodes, p, e.1, k, m + 1) else 0)
  }

  /** The work and the matches still owed by a stack of probes. */
  ghost predicate ProbesOk<T>(nodes: seq<TNode<T>>, p: string, stack: seq<Probe>) {
    forall i :: 0 <= i < |stack| ==> ProbeOk(nodes, p, stack[i])
  }

  ghost function Owed<T>(nodes: seq<TNode<T>>, p: string, stack: seq<Probe>): set<nat>
    requires Trie(nodes) && ProbesOk(nodes, p, stack)
  {
    if stack == [] then {}
    else
      var e := stack[|stack| - 1];
      assert ProbeOk(nodes, p, e);
      Owed(nodes, p, stack[..|stack| - 1]) + Matches(nodes, p, e.node, e.k, e.m)
  }

  ghost function OwedWork<T>(nodes: seq<TNode<T>>, p: string, stack: seq<Probe>): nat
    requires Trie(nodes) && ProbesOk(nodes, p, stack)
  {
    if stack == [] then 0
    else
      var e := stack[|stack| - 1];
      assert ProbeOk(nodes, p, e);
      OwedWork(nodes, p, stack[..|stack| - 1]) + Work(nodes, p, e.node, e.k, e.m)
  }

  /** Pushing one probe onto a stack adds its matches and its work. */
  lemma PushProbe<T>(nodes: seq<TNode<T>>, p: string, stack: seq<Probe>, e: Probe)
    requires Trie(nodes) && ProbesOk(nodes, p, stack) && ProbeOk(nodes, p, e)
    ensures ProbesOk(nodes, p, stack + [e])
    ensures Owed(nodes, p, stack + [e]) == Owed(nodes, p, stack) + Matches(nodes, p, e.node, e.k, e.m)
    ensures OwedWork(nodes, p, stack + [e]) == OwedWork(nodes, p, stack) + Work(nodes, p, e.node, e.k, e.m)
  {
    var s := stack + [e];
    assert s[..|s| - 1] == stack;
  }

  /** The nodes of the subtree of `n`. */
  ghost function Desc<T>(nodes: seq<TNode<T>>, n: nat): set<nat>
    requires Trie(nodes) && n < |nodes|
    decreases |nodes| - n, 1
  {
    {n} + DescFrom(nodes, n, 0)
  }

  /** The nodes of the subtrees of the children `j..` of `n`. */
  ghost function DescFrom<T>(nodes: seq<TNode<T>>, n: nat, j: nat): set<nat>
    requires Trie(nodes) && n < |nodes| && j <= |nodes[n].children|
    decreases |nodes| - n, 0, |nodes[n].children| - j
  {
    if j == |nodes[n].children| then {}
    else
      assert nodes[n].children[j] in nodes[n].children;
      Desc(nodes, nodes[n].children[j].1) + DescFrom(nodes, n, j + 1)
  }

  /** The number of nodes of the subtree of `n`, counted like `Desc`. */
  ghost function Size<T>(nodes: seq<TNode<T>>, n: nat): nat
    requires Trie(nodes) && n < |nodes|
    decreases |nodes| - n, 1
  {
    1 + SizeFrom(nodes, n, 0)
  }

  ghost function SizeFrom<T>(nodes: seq<TNode<T>>, n: nat, j: nat): nat
    requires Trie(nodes) && n < |nodes| && j <= |nodes[n].children|
    decreases |nodes| - n, 0, |nodes[n].children| - j
  {
    if j == |nodes[n].children| then 0
    else
      assert nodes[n].children[j] in nodes[n].children;
      Size(nodes, nodes[n].children[j].1) + SizeFrom(nodes, n, j + 1)
  }

  ghost predicate InTrie<T>(nodes: seq<TNode<T>>, s: seq<nat>) {
    forall i :: 0 <= i < |s| ==> s[i] < |nodes|
  }

  /** The subtrees of the nodes on a stack, and their total size. */
  ghost function DescAll<T>(nodes: seq<TNode<T>>, s: seq<nat>): set<nat>
    requires Trie(nodes) && InTrie(nodes, s)
  {
    if s == [] then {} else DescAll(nodes, s[..|s| - 1]) + Desc(nodes, s[|s| - 1])
  }

  ghost function SizeAll<T>(nodes: seq<TNode<T>>, s: seq<nat>): nat
    requires Trie(nodes) && InTrie(nodes, s)
  {
    if s == [] then 0 else SizeAll(nodes, s[..|s| - 1]) + Size(nodes, s[|s| - 1])
  }

  lemma PushNode<T>(nodes: seq<TNode<T>>, s: seq<nat>, x: nat)
    requires Trie(nodes) && InTrie(nodes, s) && x < |nodes|
    ensures InTrie(nodes, s + [x])
    ensures DescAll(nodes, s + [x]) == DescAll(nodes, s) + Desc(nodes, x)
    ensures SizeAll(nodes, s + [x]) == SizeAll(nodes, s) + Size(nodes, x)
  {
    var t := s + [x];
    assert t[..|t| - 1] == s;
  }

  /** A node is in the subtrees of a stack exactly when it is in the subtree of one of its nodes. */
  lemma {:induction false} DescAllHas<T>(nodes: seq<TNode<T>>, s: seq<nat>, x: nat)
    requires Trie(nodes) && InTrie(nodes, s)
    ensures x in DescAll(nodes, s) <==> exists i :: 0 <= i < |s| && x in Desc(nodes, s[i])
    decreases |s|
  {
    if s != [] {
      var t := s[..|s| - 1];
      DescAllHas(nodes, t, x);
      assert forall i :: 0 <= i < |t| ==> t[i] == s[i];
    }
  }

  /** The nodes with values among `x`. */
  ghost function Stored<T>(nodes: seq<TNode<T>>, xs: set<nat>): set<nat> {
    set x | x in xs && 0 <= x < |nodes| && nodes[x].values != []
  }

  /**
   * What `search_prefix` collects for the folded pattern `p`: a node with
   * values in the subtree of a node the first phase matched.
   */
  ghost predicate Hit<T>(nodes: seq<TNode<T>>, p: string, x: nat)
    requires Trie(nodes)
  {
    && 0 <= x < |nodes| && nodes[x].values != []
    && exists y :: y in Matches(nodes, p, 0, 0, 0) && y < |nodes| && x in Desc(nodes, y)
  }

  /** No element of `s` occurs twice. */
  ghost predicate Distinct(s: seq<nat>) {
    forall i, j :: 0 <= i < j < |s| ==> s[i] != s[j]
  }

  /** Popping `n` in the second phase: the stored nodes of the subtree of `n` are `n` if it has values, and those below its children. */
  lemma StoredSplit<T>(nodes: seq<TNode<T>>, xs: set<nat>, n: nat)
    requires Trie(nodes) && n < |nodes|
    ensures Stored(nodes, xs + Desc(nodes, n)) == Stored(nodes, {n}) + Stored(nodes, xs + DescFrom(nodes, n, 0))
  {
  }

  /** One turn of the second phase: the stored nodes still owed move from `n`'s subtree to `dedup` and `n`'s children. */
  lemma CollectStep<T>(nodes: seq<TNode<T>>, target: set<nat>, d0: set<nat>, d1: set<nat>, xs: set<nat>, n: nat)
    requires Trie(nodes) && n < |nodes|
    requires target == d0 + Stored(nodes, xs + Desc(nodes, n))
    requires forall x :: x in d1 <==> x in d0 || (x == n && nodes[n].values != [])
    ensures target == d1 + Stored(nodes, xs + DescFrom(nodes, n, 0))
  {
    StoredSplit(nodes, xs, n);
  }

  /** The values of the nodes of `over`, last node first: `over.iter().rev().map(values).flatten()`. */
  function Gather<T>(nodes: seq<TNode<T>>, over: seq<nat>): seq<T>
    requires InTrie(nodes, over)
  {
    if over == [] then [] else nodes[over[|over| - 1]].values + Gather(nodes, over[..|over| - 1])
  }

  // ---------------------------------------------------------------------------
  // The sets against the word-level reading of a match

  /** A child entry at `j..` contributes to `MatchFrom(j)`. */
  lemma {:induction false} MatchFromHas<T>(nodes: seq<TNode<T>>, p: string, n: nat, k: nat, m: nat, j: nat, j2: nat)
    requires Trie(nodes) && n < |nodes| && k < |p| && j <= j2 < |nodes[n].children|
    ensures nodes[n].children[j2] in nodes[n].children
    ensures MatchKid(nodes, p, nodes[n].children[j2], k, m) <= MatchFrom(nodes, p, n, k, m, j)
    decreases j2 - j
  {
    if j < j2 {
      MatchFromHas(nodes, p, n, k, m, j + 1, j2);
    }
  }

  /** Every node of `MatchFrom(j)` comes from one child entry at `j..`. */
  lemma {:induction false} MatchFromSome<T>(nodes: seq<TNode<T>>, p: string, n: nat, k: nat, m: nat, j: nat, x: nat) returns (j2: nat)
    requires Trie(nodes) && n < |nodes| && k < |p| && j <= |nodes[n].children|
    requires x in MatchFrom(nodes, p, n, k, m, j)
    ensures j <= j2 < |nodes[n].children| && nodes[n].children[j2] in nodes[n].children
    ensures x in MatchKid(nodes, p, nodes[n].children[j2], k, m)
    decreases |nodes[n].children| - j
  {
    assert nodes[n].children[j] in nodes[n].children;
    if x in MatchKid(nodes, p, nodes[n].children[j], k, m) {
      j2 := j;
    } else {
      j2 := MatchFromSome(nodes, p, n, k, m, j + 1, x);
    }
  }

  /** A node the first phase records is reached by a word fitting the rest of the pattern. */
  lemma {:induction false} MatchesWitness<T>(nodes: seq<TNode<T>>, p: string, n: nat, k: nat, m: nat, x: nat) returns (s: string)
    requires Trie(nodes) && n < |nodes| && k <= |p| && x in Matches(nodes, p, n, k, m)
    ensures Walk(nodes, n, s) == Some(x) && Fits(s, p[k..], m)
    decreases |nodes| - n
  {
    if k == |p| {
      s := [];
    } else {
      var j := MatchFromSome(nodes, p, n, k, m, 0, x);
      var e := nodes[n].children[j];
      GetIn(nodes[n].children, e.0, e.1);
      var rest: string;
      if e.0 == p[k] && x in Matches(nodes, p, e.1, k + 1, 0) {
        rest := MatchesWitness(nodes, p, e.1, k + 1, 0, x);
        assert p[k..][1..] == p[k + 1..];
      } else {
        rest := MatchesWitness(nodes, p, e.1, k, m + 1, x);
      }
      s := [e.0] + rest;
      assert s[1..] == rest;
    }
  }

  /** A node reached by a word fitting the rest of the pattern is recorded by the first phase. */
  lemma {:induction false} MatchesComplete<T>(nodes: seq<TNode<T>>, p: string, n: nat, k: nat, m: nat, s: string)
    requires Trie(nodes) && n < |nodes| && k <= |p|
    requires Walk(nodes, n, s).Some? && Fits(s, p[k..], m)
    ensures Walk(nodes, n, s).value in Matches(nodes, p, n, k, m)
    decreases |s|
  {
    if k < |p| {
      var c := Child(nodes, n, s[0]).value;
      var j :| 0 <= j < |nodes[n].children| && nodes[n].children[j] == (s[0], c);
      MatchFromHas(nodes, p, n, k, m, 0, j);
      assert p[k..][0] == p[k] && p[k..][1..] == p[k + 1..];
      if s[0] == p[k] && Fits(s[1..], p[k + 1..], 0) {
        MatchesComplete(nodes, p, c, k + 1, 0, s[1..]);
      } else {
        MatchesComplete(nodes, p, c, k, m + 1, s[1..]);
      }
    }
  }

  /** The first phase records exactly the nodes reached by a word fitting the pattern. */
  lemma MatchesFit<T>(nodes: seq<TNode<T>>, p: string, x: nat)
    requires Trie(nodes)
    ensures x in Matches(nodes, p, 0, 0, 0) <==> exists s :: Walk(nodes, 0, s) == Some(x) && Fits(s, p, 0)
  {
    assert p[0..] == p;
    if x in Matches(nodes, p, 0, 0, 0) {
      var s := MatchesWitness(nodes, p, 0, 0, 0, x);
    }
    if s :| Walk(nodes, 0, s) == Some(x) && Fits(s, p, 0) {
      MatchesComplete(nodes, p, 0, 0, 0, s);
    }
  }

  lemma {:induction false} DescFromHas<T>(nodes: seq<TNode<T>>, n: nat, j: nat, j2: nat)
    requires Trie(nodes) && n < |nodes| && j <= j2 < |nodes[n].children|
    ensures nodes[n].children[j2] in nodes[n].children
    ensures Desc(nodes, nodes[n].children[j2].1) <= DescFrom(nodes, n, j)
    decreases j2 - j
  {
    if j < j2 {
      DescFromHas(nodes, n, j + 1, j2);
    }
  }

  lemma {:induction false} DescFromSome<T>(nodes: seq<TNode<T>>, n: nat, j: nat, x: nat) returns (j2: nat)
    requires Trie(nodes) && n < |nodes| && j <= |nodes[n].children| && x in DescFrom(nodes, n, j)
    ensures j <= j2 < |nodes[n].children| && nodes[n].children[j2] in nodes[n].children
    ensures x in Desc(nodes, nodes[n].children[j2].1)
    decreases |nodes[n].children| - j
  {
    assert nodes[n].children[j] in nodes[n].children;
    if x in Desc(nodes, nodes[n].children[j].1) {
      j2 := j;
    } else {
      j2 := DescFromSome(nodes, n, j + 1, x);
    }
  }

  /** The subtree of `n` holds exactly the nodes some word leads to from `n`. */
  lemma {:induction false} DescWitness<T>(nodes: seq<TNode<T>>, n: nat, x: nat) returns (q: string)
    requires Trie(nodes) && n < |nodes| && x in Desc(nodes, n)
    ensures Walk(nodes, n, q) == Some(x)
    decreases |nodes| - n
  {
    if x == n {
      q := [];
    } else {
      var j := DescFromSome(nodes, n, 0, x);
      var e := nodes[n].children[j];
      GetIn(nodes[n].children, e.0, e.1);
      var rest := DescWitness(nodes, e.1, x);
      q := [e.0] + rest;
      assert q[1..] == rest;
    }
  }

  lemma {:induction false} DescComplete<T>(nodes: seq<TNode<T>>, n: nat, q: string)
    requires Trie(nodes) && n < |nodes| && Walk(nodes, n, q).Some?
    ensures Walk(nodes, n, q).value in Desc(nodes, n)
    decreases |q|
  {
    if q != [] {
      var c := Child(nodes, n, q[0]).value;
      var j :| 0 <= j < |nodes[n].children| && nodes[n].children[j] == (q[0], c);
      DescFromHas(nodes, n, 0, j);
      DescComplete(nodes, c, q[1..]);
    }
  }

  /**
   * What `search_prefix` collects, stated over words: exactly the nodes
   * holding values whose word extends a word fitting the pattern.
   */
  lemma HitSpec<T>(nodes: seq<TNode<T>>, p: string, x: nat)
    requires Trie(nodes)
    ensures Hit(nodes, p, x) <==>
      0 <= x < |nodes| && nodes[x].values != [] && exists s, q :: Fits(s, p, 0) && Walk(nodes, 0, s + q) == Some(x)
  {
    if Hit(nodes, p, x) {
      var y :| y in Matches(nodes, p, 0, 0, 0) && y < |nodes| && x in Desc(nodes, y);
      MatchesFit(nodes, p, y);
      var s :| Walk(nodes, 0, s) == Some(y) && Fits(s, p, 0);
      var q := DescWitness(nodes, y, x);
      WalkAppend(nodes, 0, s, q);
    }
    if 0 <= x < |nodes| && nodes[x].values != [] && exists s, q :: Fits(s, p, 0) && Walk(nodes, 0, s + q) == Some(x) {
      var s, q :| Fits(s, p, 0) && Walk(nodes, 0, s + q) == Some(x);
      WalkAppend(nodes, 0, s, q);
      var y := Walk(nodes, 0, s).value;
      MatchesFit(nodes, p, y);
      DescComplete(nodes, y, q);
    }
  }

  /** Every stored word that starts with the pattern is collected by `search_prefix`. */
  lemma PrefixHit<T>(nodes: seq<TNode<T>>, p: string, q: string)
    requires Trie(nodes) && LookupIn(nodes, p + q) != []
    ensures Hit(nodes, p, Walk(nodes, 0, p + q).value)
  {
    FitsSelf(p);
    HitSpec(nodes, p, Walk(nodes, 0, p + q).value);
  }

  // ---------------------------------------------------------------------------
  // The finder

  /** The values of the pairs of `items` whose word folds to `w`, in order. */
  ghost function ValuesFor<T>(items: seq<(string, T)>, w: string): seq<T> {
    if items == [] then []
    else ValuesFor(items[..|items| - 1], w) + (if Fold(items[|items| - 1].0) == w then [items[|items| - 1].1] else [])
  }

  class FuzzyFinder<T> {
    var nodes: seq<TNode<T>>

    ghost predicate Valid()
      reads this
    {
      Trie(nodes)
    }

    /** The values stored for the folded word `w`, in insertion order. */
    ghost function Lookup(w: string): seq<T>
      reads this
      requires Valid()
    {
      LookupIn(nodes, w)
    }

    /** `new`/`default`: a root with no children and no values; no word has values. */
    constructor ()
      ensures Valid() && nodes == [TNode([], [])]
      ensures forall w :: Lookup(w) == []
    {
      nodes := [TNode([], [])];
      new;
      forall w ensures Lookup(w) == [] {
        if w != [] {
          assert Child(nodes, 0, w[0]).None?;
        }
      }
    }

    /**
     * `insert`: the folded word's path is created where missing, and `value`
     * is appended to the values of its last node; no other word changes.
     */
    method Insert(word: string, value: T)
      requires Valid()
      modifies this
      ensures Valid()
      ensures forall w :: Lookup(w) == if w == Fold(word) then old(Lookup(w)) + [value] else old(Lookup(w))
    {
      var w := Fold(word);
      ghost var n0 := nodes;
      var cur := Descend(w);
      InsertLookup(n0, nodes, cur, w, value);
      nodes := nodes[cur := TNode(nodes[cur].children, nodes[cur].values + [value])];
    }

    /** The cursor loop of `insert`: follows `w` from the root, adding a childless node wherever a character has no child. */
    method Descend(w: string) returns (cur: nat)
      requires Valid()
      modifies this
      ensures Valid() && Grows(old(nodes), nodes) && cur < |nodes| && Walk(nodes, 0, w) == Some(cur)
    {
      ghost var n0 := nodes;
      GrowsSelf(n0);
      cur := 0;
      for k := 0 to |w|
        invariant Trie(nodes) && Grows(n0, nodes) && cur < |nodes|
        invariant Walk(nodes, 0, w[..k]) == Some(cur)
      {
        PrefixStep(w, k);
        ghost var n1 := nodes;
        cur := StepDown(cur, w[..k], w[k]);
        GrowsTrans(n0, n1, nodes);
      }
      assert w[..|w|] == w;
    }

    /** One turn of the cursor loop: the child of `cur` under `c`, created childless if missing. */
    method StepDown(cur: nat, ghost s: string, c: char) returns (next: nat)
      requires Valid() && cur < |nodes| && Walk(nodes, 0, s) == Some(cur)
      modifies this
      ensures Valid() && Grows(old(nodes), nodes) && next < |nodes| && Walk(nodes, 0, s + [c]) == Some(next)
    {
      var got := Get(nodes[cur].children, c);
      if got.None? {
        var added := |nodes|;
        AddStep(nodes, nodes, cur, s, c);
        nodes := AddChild(nodes, cur, c);
        got := Some(added);
      } else {
        GrowsSelf(nodes);
      }
      WalkAppend(nodes, 0, s, [c]);
      assert Walk(nodes, cur, [c]) == Child(nodes, cur, c);
      next := got.value;
    }

    /** `extend`: the pairs are inserted in order, so each word gains the values of its pairs, in order. */
    method Extend(items: seq<(string, T)>)
      requires Valid()
      modifies this
      ensures Valid()
      ensures forall w :: Lookup(w) == old(Lookup(w)) + ValuesFor(items, w)
    {
      for i := 0 to |items|
        invariant Valid()
        invariant forall w :: Lookup(w) == old(Lookup(w)) + ValuesFor(items[..i], w)
      {
        Insert(items[i].0, items[i].1);
        assert items[..i + 1][..i] == items[..i];
      }
      assert items[..|items|] == items;
    }

    /**
     * `search`: the values of the folded word, or None when the trie has no
     * path for it or its node holds no values.
     */
    method Search(word: string) returns (r: Option<seq<T>>)
      requires Valid()
      ensures Walk(nodes, 0, Fold(word)).None? ==> r.None?
      ensures r == if Lookup(Fold(word)) == [] then None else Some(Lookup(Fold(word)))
    {
      var w := Fold(word);
      var cur := 0;
      for k := 0 to |w|
        invariant cur < |nodes| && Walk(nodes, 0, w[..k]) == Some(cur)
      {
        assert w[..k + 1] == w[..k] + [w[k]];
        WalkAppend(nodes, 0, w[..k], [w[k]]);
        assert Walk(nodes, cur, [w[k]]) == Child(nodes, cur, w[k]);
        var next := Get(nodes[cur].children, w[k]);
        if next.None? {
          assert w == w[..k + 1] + w[k + 1..];
          WalkAppend(nodes, 0, w[..k + 1], w[k + 1..]);
          return None;
        }
        cur := next.value;
      }
      assert w[..|w|] == w;
      if nodes[cur].values == [] {
        return None;
      }
      return Some(nodes[cur].values);
    }

    /**
     * `search_prefix`: the values of every node with values below a node the
     * pattern matches, each such node once, or None when there is none.
     * `over` is the list of those nodes the result is gathered from.
     */
    method SearchPrefix(word: string) returns (r: Option<seq<T>>, ghost over: seq<nat>)
      requires Valid()
      ensures InTrie(nodes, over) && Distinct(over)
      ensures forall x :: x in over <==> Hit(nodes, Fold(word), x)
      ensures r.None? <==> forall x :: !Hit(nodes, Fold(word), x)
      ensures r.Some? ==> r.value == Gather(nodes, over)
    {
      var p := Fold(word);
      var valid := Matched(p);
      var found := Collect(valid);
      forall x ensures x in found <==> Hit(nodes, p, x) {
        DescAllHas(nodes, valid, x);
        if x in found {
          var i :| 0 <= i < |valid| && x in Desc(nodes, valid[i]);
          assert valid[i] in Matches(nodes, p, 0, 0, 0);
        }
      }
      over := found;
      if found == [] {
        return None, over;
      }
      assert Hit(nodes, p, found[0]);
      return Some(Gather(nodes, found)), over;
    }

    /** The first loop of `search_prefix`: the nodes the pattern matches, each once. */
    method Matched(p: string) returns (valid: seq<nat>)
      requires Valid()
      ensures InTrie(nodes, valid) && Distinct(valid)
      ensures forall x :: x in valid <==> x in Matches(nodes, p, 0, 0, 0)
    {
      valid := [];
      var dedup: set<nat> := {};
      var stack := [Probe(0, 0, 0)];
      PushProbe(nodes, p, [], Probe(0, 0, 0));
      assert [] + [Probe(0, 0, 0)] == stack;
      while stack != []
        invariant ProbesOk(nodes, p, stack) && InTrie(nodes, valid) && Distinct(valid)
        invariant forall x :: x in dedup <==> x in valid
        invariant Matches(nodes, p, 0, 0, 0) == dedup + Owed(nodes, p, stack)
        decreases OwedWork(nodes, p, stack)
      {
        var top := stack[|stack| - 1];
        assert ProbeOk(nodes, p, top);
        ghost var s0 := stack;
        stack := stack[..|stack| - 1];
        PushProbe(nodes, p, stack, top);
        assert stack + [top] == s0;
        if top.k == |p| {
          if top.node !in dedup {
            dedup := dedup + {top.node};
            valid := valid + [top.node];
          }
        } else {
          stack := Expand(p, stack, top);
        }
      }
    }

    /** The inner loop of the first phase: for each child, last character first, the probe for a match and then, while misses remain, the probe for a skip. */
    method Expand(p: string, stack: seq<Probe>, top: Probe) returns (stack2: seq<Probe>)
      requires Valid() && ProbesOk(nodes, p, stack) && ProbeOk(nodes, p, top) && top.k < |p|
      ensures ProbesOk(nodes, p, stack2)
      ensures Owed(nodes, p, stack2) == Owed(nodes, p, stack) + Matches(nodes, p, top.node, top.k, top.m)
      ensures OwedWork(nodes, p, stack2) + 1 == OwedWork(nodes, p, stack) + Work(nodes, p, top.node, top.k, top.m)
    {
      var n, k, m := top.node, top.k, top.m;
      var kids := nodes[n].children;
      stack2 := stack;
      var j := |kids|;
      while j > 0
        invariant 0 <= j <= |kids| && ProbesOk(nodes, p, stack2)
        invariant Owed(nodes, p, stack2) == Owed(nodes, p, stack) + MatchFrom(nodes, p, n, k, m, j)
        invariant OwedWork(nodes, p, stack2) == OwedWork(nodes, p, stack) + WorkFrom(nodes, p, n, k, m, j)
      {
        j := j - 1;
        var e := kids[j];
        assert e in nodes[n].children;
        stack2 := PushKid(p, stack2, e, k, m);
      }
    }

    /** The probes one child entry `e` adds: a match if its character is the pattern's, then a skip while misses remain. */
    method PushKid(p: string, stack: seq<Probe>, e: (char, nat), k: nat, m: nat) returns (stack2: seq<Probe>)
      requires Valid() && ProbesOk(nodes, p, stack) && e.1 < |nodes| && k < |p|
      ensures ProbesOk(nodes, p, stack2)
      ensures Owed(nodes, p, stack2) == Owed(nodes, p, stack) + MatchKid(nodes, p, e, k, m)
      ensures OwedWork(nodes, p, stack2) == OwedWork(nodes, p, stack) + WorkKid(nodes, p, e, k, m)
    {
      stack2 := stack;
      if e.0 == p[k] {
        PushProbe(nodes, p, stack2, Probe(e.1, k + 1, 0));
        stack2 := stack2 + [Probe(e.1, k + 1, 0)];
      }
      if m < MISS_COUNT {
        PushProbe(nodes, p, stack2, Probe(e.1, k, m + 1));
        stack2 := stack2 + [Probe(e.1, k, m + 1)];
      }
    }

    /** The second loop of `search_prefix`: the nodes with values in the subtrees of `valid`, each once. */
    method Collect(valid: seq<nat>) returns (over: seq<nat>)
      requires Valid() && InTrie(nodes, valid)
      ensures InTrie(nodes, over) && Distinct(over)
      ensures forall x :: x in over <==> x in Stored(nodes, DescAll(nodes, valid))
    {
      var pending := valid;
      over := [];
      var dedup: set<nat> := {};
      while pending != []
        invariant InTrie(nodes, pending) && InTrie(nodes, over) && Distinct(over)
        invariant forall x :: x in dedup <==> x in over
        invariant Stored(nodes, DescAll(nodes, valid)) == dedup + Stored(nodes, DescAll(nodes, pending))
        decreases SizeAll(nodes, pending)
      {
        var n := pending[|pending| - 1];
        ghost var p0 := pending;
        pending := pending[..|pending| - 1];
        PushNode(nodes, pending, n);
        assert pending + [n] == p0;
        ghost var d0, base := dedup, pending;
        dedup, over := Visit(n, dedup, over);
        pending := PushChildren(pending, n);
        CollectStep(nodes, Stored(nodes, DescAll(nodes, valid)), d0, dedup, DescAll(nodes, base), n);
      }
    }

    /** `if !n.values.is_empty() && dedup.insert(n) { over.push(n) }`: `n` is added once if it holds values. */
    method Visit(n: nat, dedup: set<nat>, over: seq<nat>) returns (dedup2: set<nat>, over2: seq<nat>)
      requires Valid() && n < |nodes| && InTrie(nodes, over) && Distinct(over)
      requires forall x :: x in dedup <==> x in over
      ensures InTrie(nodes, over2) && Distinct(over2)
      ensures forall x :: x in dedup2 <==> x in over2
      ensures forall x :: x in dedup2 <==> x in dedup || (x == n && nodes[n].values != [])
    {
      dedup2, over2 := dedup, over;
      if nodes[n].values != [] && n !in dedup {
        dedup2 := dedup + {n};
        over2 := over + [n];
      }
    }

    /** `for node in n.children.values()`: the children of `n` pushed in character order. */
    method PushChildren(pending: seq<nat>, n: nat) returns (pending2: seq<nat>)
      requires Valid() && InTrie(nodes, pending) && n < |nodes|
      ensures InTrie(nodes, pending2)
      ensures DescAll(nodes, pending2) == DescAll(nodes, pending) + DescFrom(nodes, n, 0)
      ensures SizeAll(nodes, pending2) == SizeAll(nodes, pending) + SizeFrom(nodes, n, 0)
    {
      var kids := nodes[n].children;
      pending2 := pending;
      for j := 0 to |kids|
        invariant InTrie(nodes, pending2)
        invariant DescAll(nodes, pending2) + DescFrom(nodes, n, j) == DescAll(nodes, pending) + DescFrom(nodes, n, 0)
        invariant SizeAll(nodes, pending2) + SizeFrom(nodes, n, j) == SizeAll(nodes, pending) + SizeFrom(nodes, n, 0)
      {
        assert kids[j] in nodes[n].children;
        PushNode(nodes, pending2, kids[j].1);
        pending2 := pending2 + [kids[j].1];
      }
    }
  }
}
