/**
 * The whole-tree walks of the map, each driven by an explicit stack of
 * links: `clear`, which frees every node, and `clone`, which copies every
 * node below a copy of its parent.
 */
module Walk {
  import opened Wrappers
  import opened Flag
  import opened Node
  import opened Rotation

  /**
   * Every node is reached from the root by child links: a set holding the
   * root and closed under going from a parent to its children holds them all.
   */
  lemma {:induction false} Reached(a: Arena, order: seq<nat>, info: map<nat, Info>, root: NodeRef, s: set<nat>, i: nat)
    requires Linked(a, order, info) && RootOk(a, root, order, info) && i in a
    requires root.Some? ==> root.value in s
    requires forall j :: j in a && a[j].parent.Some? && a[j].parent.value in s ==> j in s
    ensures i in s
    decreases |order| - Size(info, i)
  {
    if a[i].parent.Some? {
      ParentOf(a, order, info, i);
      Reached(a, order, info, root, s, a[i].parent.value);
    } else {
      assert root == Some(i);
    }
  }

  /**
   * The freed part of the state of the loop of `clear`: the live nodes and
   * values are the original ones less the freed handles, and the parent of a
   * freed node is freed.
   */
  ghost predicate Freeing<V>(a: Arena, vals: map<nat, V>, live: Arena, vs: map<nat, V>, freed: set<nat>) {
    && freed <= a.Keys && live == a - freed && vs == vals - freed
    && (forall j :: j in freed && a[j].parent.Some? ==> a[j].parent.value in freed)
  }

  /** The stack of `clear` holds live links, distinct ones, each the root or hanging from a freed node. */
  ghost predicate Stacked(a: Arena, live: Arena, stack: seq<NodeRef>, freed: set<nat>) {
    && (forall k :: 0 <= k < |stack| && stack[k].Some? ==> stack[k].value in live)
    && (forall k :: 0 <= k < |stack| && stack[k].Some? && stack[k].value in a ==>
          a[stack[k].value].parent.None? || a[stack[k].value].parent.value in freed)
    && (forall j, k :: 0 <= j < k < |stack| && stack[j].Some? ==> stack[j] != stack[k])
  }

  /** Nothing is lost by `clear`: the root and every child of a freed node are freed or stacked. */
  ghost predicate Covered(a: Arena, root: NodeRef, stack: seq<NodeRef>, freed: set<nat>) {
    && (root.None? || root.value in freed || root in stack)
    && (forall j :: j in a && a[j].parent.Some? && a[j].parent.value in freed ==> j in freed || Some(j) in stack)
  }

  /** The state of the loop of `clear`. */
  ghost predicate Clearing<V>(a: Arena, vals: map<nat, V>, root: NodeRef,
                              live: Arena, vs: map<nat, V>, stack: seq<NodeRef>, freed: set<nat>)
  {
    Freeing(a, vals, live, vs, freed) && Stacked(a, live, stack, freed) && Covered(a, root, stack, freed)
  }

  /** Popping an empty link keeps the loop state of `clear`. */
  lemma ClearSkip<V>(a: Arena, vals: map<nat, V>, root: NodeRef,
                     live: Arena, vs: map<nat, V>, stack: seq<NodeRef>, freed: set<nat>)
    requires Clearing(a, vals, root, live, vs, stack, freed) && |stack| > 0 && stack[|stack| - 1].None?
    ensures Clearing(a, vals, root, live, vs, stack[..|stack| - 1], freed)
  {
    var rest := stack[..|stack| - 1];
    assert forall k :: 0 <= k < |rest| ==> rest[k] == stack[k];
    forall j | j in a && a[j].parent.Some? && a[j].parent.value in freed && j !in freed
      ensures Some(j) in rest
    {
      assert Some(j) in stack;
    }
    assert root.Some? && root.value !in freed ==> root in rest by {
      if root.Some? && root.value !in freed {
        assert root in stack;
      }
    }
  }

  /** The node on top of the stack of `clear` is live, and its children are live, distinct and not stacked. */
  lemma ClearChildren<V>(a: Arena, order: seq<nat>, info: map<nat, Info>, vals: map<nat, V>, root: NodeRef,
                         live: Arena, vs: map<nat, V>, stack: seq<NodeRef>, freed: set<nat>, n: nat)
    requires Linked(a, order, info)
    requires Clearing(a, vals, root, live, vs, stack, freed) && |stack| > 0 && stack[|stack| - 1] == Some(n)
    ensures n in live && live[n] == a[n] && (a[n].parent.None? || a[n].parent.value in freed)
    ensures forall r :: r != PARENT && a[n].Next(r).Some? ==>
      var c := a[n].Next(r).value; c in live && c != n && a[c].parent == Some(n) && Some(c) !in stack
    ensures a[n].left.Some? ==> a[n].left != a[n].right
  {
    forall r | r != PARENT && a[n].Next(r).Some?
      ensures var c := a[n].Next(r).value; c in live && c != n && a[c].parent == Some(n) && Some(c) !in stack
    {
      ChildOf(a, order, info, n, r);
    }
    assert LinkOk(a, order, info, n);
  }

  /** The children of the popped node `n`, as the facts `ClearChildren` gives. */
  ghost predicate Popped(a: Arena, live: Arena, stack: seq<NodeRef>, freed: set<nat>, n: nat) {
    && n in a && n in live && live[n] == a[n] && (a[n].parent.None? || a[n].parent.value in freed)
    && (forall r :: r != PARENT && a[n].Next(r).Some? ==>
          var c := a[n].Next(r).value; c in live && c in a && c != n && a[c].parent == Some(n) && Some(c) !in stack)
    && (a[n].left.Some? ==> a[n].left != a[n].right)
  }

  /** Freeing the popped node keeps the freed part of the loop state. */
  lemma ClearStepFreeing<V>(a: Arena, vals: map<nat, V>, live: Arena, vs: map<nat, V>, stack: seq<NodeRef>, freed: set<nat>, n: nat)
    requires Freeing(a, vals, live, vs, freed) && Popped(a, live, stack, freed, n)
    ensures Freeing(a, vals, live - {n}, vs - {n}, freed + {n})
  {
  }

  /** Pushing the children of the popped node keeps the stack part of the loop state. */
  lemma ClearStepStacked(a: Arena, live: Arena, stack: seq<NodeRef>, freed: set<nat>, n: nat)
    requires Stacked(a, live, stack, freed) && |stack| > 0 && stack[|stack| - 1] == Some(n)
    requires Popped(a, live, stack, freed, n) && live.Keys <= a.Keys
    ensures Stacked(a, live - {n}, stack[..|stack| - 1] + [a[n].left, a[n].right], freed + {n})
  {
    var rest := stack[..|stack| - 1];
    var stack2 := rest + [a[n].left, a[n].right];
    assert forall k :: 0 <= k < |rest| ==> rest[k] == stack[k] && stack2[k] == stack[k];
    assert stack2[|rest|] == a[n].left && stack2[|rest| + 1] == a[n].right;
    assert a[n].Next(LEFT) == a[n].left && a[n].Next(RIGHT) == a[n].right;
  }

  /** Pushing the children of the popped node and freeing it keeps every node freed or stacked. */
  lemma ClearStepCovered(a: Arena, root: NodeRef, live: Arena, stack: seq<NodeRef>, freed: set<nat>, n: nat)
    requires Covered(a, root, stack, freed) && |stack| > 0 && stack[|stack| - 1] == Some(n) && n in a
    requires forall j :: j in a && a[j].parent == Some(n) ==> a[n].Next(a[j].rela) == Some(j) && a[j].rela != PARENT
    ensures Covered(a, root, stack[..|stack| - 1] + [a[n].left, a[n].right], freed + {n})
  {
    var rest := stack[..|stack| - 1];
    var stack2 := rest + [a[n].left, a[n].right];
    var freed2 := freed + {n};
    assert forall k :: 0 <= k < |rest| ==> rest[k] == stack[k] && stack2[k] == stack[k];
    assert stack2[|rest|] == a[n].left && stack2[|rest| + 1] == a[n].right;
    forall j | j in a && a[j].parent.Some? && a[j].parent.value in freed2 && j !in freed2
      ensures Some(j) in stack2
    {
      if a[j].parent.value == n {
        assert a[n].Next(a[j].rela) == Some(j);
      } else {
        assert Some(j) in stack;
        assert Some(j) in rest;
      }
    }
    assert root.Some? && root.value !in freed2 ==> root in rest by {
      if root.Some? && root.value !in freed2 {
        assert root in stack;
      }
    }
  }

  /** Popping the link of node `n`, pushing its children and freeing it keeps the loop state of `clear`. */
  lemma ClearStep<V>(a: Arena, order: seq<nat>, info: map<nat, Info>, vals: map<nat, V>, root: NodeRef,
                     live: Arena, vs: map<nat, V>, stack: seq<NodeRef>, freed: set<nat>, n: nat)
    requires Linked(a, order, info)
    requires Clearing(a, vals, root, live, vs, stack, freed) && |stack| > 0 && stack[|stack| - 1] == Some(n)
    ensures n in live && live[n] == a[n]
    ensures Clearing(a, vals, root, live - {n}, vs - {n}, stack[..|stack| - 1] + [a[n].left, a[n].right], freed + {n})
    ensures |live - {n}| < |live|
  {
    ClearChildren(a, order, info, vals, root, live, vs, stack, freed, n);
    ClearStepFreeing(a, vals, live, vs, stack, freed, n);
    ClearStepStacked(a, live, stack, freed, n);
    forall j | j in a && a[j].parent == Some(n)
      ensures a[n].Next(a[j].rela) == Some(j) && a[j].rela != PARENT
    {
      ParentOf(a, order, info, j);
    }
    ClearStepCovered(a, root, live, stack, freed, n);
    assert |(live - {n}).Keys| < |live.Keys| by {
      assert (live - {n}).Keys + {n} == live.Keys;
    }
  }

  /** When the stack of `clear` is empty, every node has been freed. */
  lemma ClearDone<V>(a: Arena, order: seq<nat>, info: map<nat, Info>, vals: map<nat, V>, root: NodeRef,
                     live: Arena, vs: map<nat, V>, freed: set<nat>)
    requires Linked(a, order, info) && RootOk(a, root, order, info) && vals.Keys == a.Keys
    requires Clearing(a, vals, root, live, vs, [], freed)
    ensures live == map[] && vs == map[]
  {
    forall i | i in a ensures i in freed {
      Reached(a, order, info, root, freed, i);
    }
    assert live.Keys == {};
    assert vs.Keys == {};
  }

  /** Appending a handle not freed before keeps the trail a duplicate-free listing of the freed set. */
  lemma TrailStep(trail: seq<nat>, freed: set<nat>, n: nat)
    requires forall x :: x in trail <==> x in freed
    requires forall i, j :: 0 <= i < j < |trail| ==> trail[i] != trail[j]
    requires n !in freed
    ensures forall x :: x in trail + [n] <==> x in freed + {n}
    ensures forall i, j :: 0 <= i < j < |trail + [n]| ==> (trail + [n])[i] != (trail + [n])[j]
  {
  }

  /** Nothing live is left exactly when every node is freed. */
  lemma FreedAll(a: Arena, live: Arena, freed: set<nat>)
    requires live == a - freed && live == map[]
    ensures forall x :: x in a ==> x in freed
  {
    forall x | x in a ensures x in freed {
      assert x !in live;
    }
  }

  /**
   * The loop of `clear`: pop a link from an explicit stack, skip an empty
   * one, push the node's left and right links, and free the node with its
   * value. Every node of the tree is freed, exactly once: `trail` lists the
   * freed handles in the order they are freed.
   */
  method FreeAll<V>(a: Arena, vals: map<nat, V>, root: NodeRef, ghost order: seq<nat>, ghost info: map<nat, Info>)
    returns (live: Arena, vs: map<nat, V>, ghost trail: seq<nat>)
    requires Linked(a, order, info) && RootOk(a, root, order, info) && vals.Keys == a.Keys
    ensures live == map[] && vs == map[]
    ensures forall x :: x in trail <==> x in a
    ensures forall i, j :: 0 <= i < j < |trail| ==> trail[i] != trail[j]
  {
    live, vs := a, vals;
    var stack: seq<NodeRef> := [root];
    ghost var freed: set<nat> := {};
    trail := [];
    while |stack| > 0
      invariant Clearing(a, vals, root, live, vs, stack, freed)
      invariant forall x :: x in trail <==> x in freed
      invariant forall i, j :: 0 <= i < j < |trail| ==> trail[i] != trail[j]
      decreases |live|, |stack|
    {
      var top := stack[|stack| - 1];
      if top.None? {
        ClearSkip(a, vals, root, live, vs, stack, freed);
        stack := stack[..|stack| - 1];
        continue;
      }
      var n := top.value;
      ClearStep(a, order, info, vals, root, live, vs, stack, freed, n);
      stack := stack[..|stack| - 1] + [live[n].left, live[n].right];
      live, vs := live - {n}, vs - {n};
      TrailStep(trail, freed, n);
      freed := freed + {n};
      trail := trail + [n];
    }
    ClearDone(a, order, info, vals, root, live, vs, freed);
    FreedAll(a, live, freed);
  }

  /** A child link of a partial copy: kept when its target has been copied, None otherwise. */
  ghost function Kept(l: NodeRef, b: Arena): NodeRef {
    if l.Some? && l.value in b then l else None
  }

  /** The copy of node `i` is the original with its links to copied children only. */
  ghost predicate CopiedOk(a: Arena, b: Arena, i: nat)
    requires i in a && i in b
  {
    b[i] == a[i].(left := Kept(a[i].left, b), right := Kept(a[i].right, b))
  }

  /**
   * `new_branch`: a zeroed record takes the key, value and flag of the source
   * child `src`, hangs below `dst` in slot `r`, and `dst` links to it. The copy
   * keeps the handles of the original nodes.
   */
  function NewBranch(b: Arena, src: Node, c: nat, dst: nat, r: Rela): (b2: Arena)
    requires dst in b && c !in b && r != PARENT
    ensures b2.Keys == b.Keys + {c}
    ensures b2[c] == src.(left := None, right := None, parent := Some(dst), rela := r)
    ensures b2[dst] == b[dst].WithNext(r, Some(c))
    ensures forall i :: i in b && i != dst ==> b2[i] == b[i]
  {
    b[dst := b[dst].WithNext(r, Some(c))][c := Zeroed().InitFrom(src).SetParent(Some(dst), r)]
  }

  /** The copied handles are original ones, each with the original's value. */
  ghost predicate CopyVals<V>(a: Arena, vals: map<nat, V>, b: Arena, vs: map<nat, V>) {
    && b.Keys <= a.Keys && vs.Keys == b.Keys && vals.Keys == a.Keys
    && (forall i :: i in vs ==> vs[i] == vals[i])
  }

  /** Each copied record is the original less its links to uncopied children. */
  ghost predicate CopyRecords(a: Arena, b: Arena) {
    forall i :: i in b ==> i in a && CopiedOk(a, b, i)
  }

  /** The stack of `clone` holds distinct copied handles; the node being expanded is copied and off the stack. */
  ghost predicate CopyStack(b: Arena, stack: seq<nat>, x: nat, pending: set<Rela>) {
    && (forall k :: 0 <= k < |stack| ==> stack[k] in b)
    && (forall j, k :: 0 <= j < k < |stack| ==> stack[j] != stack[k])
    && (pending != {} ==> x in b && x !in stack)
  }

  /**
   * A node is copied exactly when it is the root, or its parent is copied
   * and expanded (off the stack, and not `x` with this slot still pending).
   */
  ghost predicate CopyLinks(a: Arena, b: Arena, stack: seq<nat>, x: nat, pending: set<Rela>) {
    forall i :: i in a ==>
      (i in b <==> (a[i].parent.None? ||
                    (a[i].parent.value in b && a[i].parent.value !in stack &&
                     !(a[i].parent.value == x && a[i].rela in pending))))
  }

  /** The state of the loop of `clone` while node `x` is being expanded, its slots `pending` still to do. */
  ghost predicate CopyingAt<V>(a: Arena, vals: map<nat, V>, b: Arena, vs: map<nat, V>, stack: seq<nat>, x: nat, pending: set<Rela>) {
    CopyVals(a, vals, b, vs) && CopyRecords(a, b) && CopyStack(b, stack, x, pending) && CopyLinks(a, b, stack, x, pending)
  }

  /** The state of the loop of `clone` between two pops. */
  ghost predicate Copying<V>(a: Arena, vals: map<nat, V>, b: Arena, vs: map<nat, V>, stack: seq<nat>) {
    CopyingAt(a, vals, b, vs, stack, 0, {})
  }

  /** Popping `x` from the stack leaves both of its slots pending. */
  lemma CopyPop<V>(a: Arena, order: seq<nat>, info: map<nat, Info>, vals: map<nat, V>, b: Arena, vs: map<nat, V>, stack: seq<nat>)
    requires Linked(a, order, info) && Copying(a, vals, b, vs, stack) && |stack| > 0
    ensures CopyingAt(a, vals, b, vs, stack[..|stack| - 1], stack[|stack| - 1], {LEFT, RIGHT})
    ensures stack[|stack| - 1] in a
  {
    CopyPopStack(b, stack);
    CopyPopLinks(a, order, info, b, stack);
  }

  /** Popping keeps the stack distinct and copied, and takes the popped node off it. */
  lemma CopyPopStack(b: Arena, stack: seq<nat>)
    requires CopyStack(b, stack, 0, {}) && |stack| > 0
    ensures CopyStack(b, stack[..|stack| - 1], stack[|stack| - 1], {LEFT, RIGHT})
  {
    var rest := stack[..|stack| - 1];
    assert forall k :: 0 <= k < |rest| ==> rest[k] == stack[k];
    assert stack[|stack| - 1] in b;
  }

  /** Popping `x` with both slots pending keeps the copied nodes exactly the ones the links call for. */
  lemma CopyPopLinks(a: Arena, order: seq<nat>, info: map<nat, Info>, b: Arena, stack: seq<nat>)
    requires Linked(a, order, info) && CopyLinks(a, b, stack, 0, {}) && |stack| > 0
    requires forall j, k :: 0 <= j < k < |stack| ==> stack[j] != stack[k]
    ensures CopyLinks(a, b, stack[..|stack| - 1], stack[|stack| - 1], {LEFT, RIGHT})
  {
    var x := stack[|stack| - 1];
    var rest := stack[..|stack| - 1];
    assert stack == rest + [x];
    assert forall k :: 0 <= k < |rest| ==> rest[k] == stack[k];
    assert x !in rest;
    forall i | i in a && a[i].parent.Some?
      ensures a[i].rela != PARENT && (a[i].parent.value !in stack <==> a[i].parent.value !in rest && a[i].parent.value != x)
    {
      assert LinkOk(a, order, info, i);
    }
  }

  /** An empty slot of `x` stops being pending without any change. */
  lemma CopySkip<V>(a: Arena, order: seq<nat>, info: map<nat, Info>, vals: map<nat, V>, b: Arena, vs: map<nat, V>,
                    stack: seq<nat>, x: nat, r: Rela, pending: set<Rela>)
    requires Linked(a, order, info) && CopyingAt(a, vals, b, vs, stack, x, pending) && x in a && r != PARENT && a[x].Next(r).None?
    ensures CopyingAt(a, vals, b, vs, stack, x, pending - {r})
  {
    CopySkipLinks(a, order, info, b, stack, x, r, pending);
  }

  /** An empty slot of `x` stops being pending: no node hangs there. */
  lemma CopySkipLinks(a: Arena, order: seq<nat>, info: map<nat, Info>, b: Arena, stack: seq<nat>, x: nat, r: Rela, pending: set<Rela>)
    requires Linked(a, order, info) && CopyLinks(a, b, stack, x, pending) && x in a && r != PARENT && a[x].Next(r).None?
    ensures CopyLinks(a, b, stack, x, pending - {r})
  {
    forall i | i in a && a[i].parent == Some(x)
      ensures a[i].rela != r
    {
      ParentOf(a, order, info, i);
    }
  }

  /** Copying the child in a pending slot `r` of `x` keeps the loop state and copies one more node. */
  lemma CopyBranch<V>(a: Arena, order: seq<nat>, info: map<nat, Info>, vals: map<nat, V>, b: Arena, vs: map<nat, V>,
                      stack: seq<nat>, x: nat, r: Rela, pending: set<Rela>)
    requires Linked(a, order, info) && CopyingAt(a, vals, b, vs, stack, x, pending) && x in a
    requires r in pending && r != PARENT && a[x].Next(r).Some?
    ensures var c := a[x].Next(r).value;
      && c in a && c !in b && x in b
      && CopyingAt(a, vals, NewBranch(b, a[c], c, x, r), vs[c := vals[c]], stack + [c], x, pending - {r})
      && |a.Keys - NewBranch(b, a[c], c, x, r).Keys| < |a.Keys - b.Keys|
  {
    var c := a[x].Next(r).value;
    ChildOf(a, order, info, x, r);
    assert c !in b;
    var b2 := NewBranch(b, a[c], c, x, r);
    forall s | s != PARENT && a[c].Next(s).Some?
      ensures a[c].Next(s).value !in b && a[c].Next(s).value != c
    {
      ChildOf(a, order, info, c, s);
    }
    CopyBranchRecords(a, order, info, b, x, r);
    CopyBranchLinks(a, order, info, b, stack, x, r, pending);
    CopyBranchStack(b, stack, x, c, b2, pending, r);
    CopyBranchVals(a, vals, b, vs, c, b2);
  }

  /** The new copy carries its original's value, and one fewer handle is left to copy. */
  lemma CopyBranchVals<V>(a: Arena, vals: map<nat, V>, b: Arena, vs: map<nat, V>, c: nat, b2: Arena)
    requires CopyVals(a, vals, b, vs) && c in a && c !in b && b2.Keys == b.Keys + {c}
    ensures CopyVals(a, vals, b2, vs[c := vals[c]])
    ensures |a.Keys - b2.Keys| < |a.Keys - b.Keys|
  {
    assert (a.Keys - b.Keys) - {c} == a.Keys - b2.Keys;
  }

  /** Pushing the new copy keeps the stack distinct and copied. */
  lemma CopyBranchStack(b: Arena, stack: seq<nat>, x: nat, c: nat, b2: Arena, pending: set<Rela>, r: Rela)
    requires CopyStack(b, stack, x, pending) && c !in b && b2.Keys == b.Keys + {c} && r in pending
    ensures CopyStack(b2, stack + [c], x, pending - {r})
  {
    var stack2 := stack + [c];
    assert forall k :: 0 <= k < |stack| ==> stack2[k] == stack[k];
    assert stack2[|stack|] == c;
  }

  /** After `new_branch` every copied record is still the original less its links to uncopied children. */
  lemma CopyBranchRecords(a: Arena, order: seq<nat>, info: map<nat, Info>, b: Arena, x: nat, r: Rela)
    requires Linked(a, order, info) && CopyRecords(a, b) && x in b && r != PARENT && a[x].Next(r).Some?
    requires var c := a[x].Next(r).value; c in a && c !in b && a[c].parent == Some(x) && a[c].rela == r
    requires var c := a[x].Next(r).value; forall s :: s != PARENT && a[c].Next(s).Some? ==> a[c].Next(s).value !in b && a[c].Next(s).value != c
    ensures var c := a[x].Next(r).value; CopyRecords(a, NewBranch(b, a[c], c, x, r))
  {
    var c := a[x].Next(r).value;
    var b2 := NewBranch(b, a[c], c, x, r);
    CopiedNew(a, b, x, r, c, b2);
    CopiedParent(a, order, info, b, x, r, c, b2);
    forall i | i in b2 && i != x && i != c ensures i in a && CopiedOk(a, b2, i) {
      CopiedOther(a, order, info, b, x, c, b2, i);
    }
  }

  /** The new copy has no children yet. */
  lemma CopiedNew(a: Arena, b: Arena, x: nat, r: Rela, c: nat, b2: Arena)
    requires x in b && r != PARENT && c in a && c !in b && a[c].parent == Some(x) && a[c].rela == r
    requires forall s :: s != PARENT && a[c].Next(s).Some? ==> a[c].Next(s).value !in b && a[c].Next(s).value != c
    requires b2 == NewBranch(b, a[c], c, x, r)
    ensures CopiedOk(a, b2, c)
  {
    assert a[c].Next(LEFT) == a[c].left && a[c].Next(RIGHT) == a[c].right;
  }

  /** The copy of `x` gains its link to the new copy in slot `r`. */
  lemma CopiedParent(a: Arena, order: seq<nat>, info: map<nat, Info>, b: Arena, x: nat, r: Rela, c: nat, b2: Arena)
    requires Linked(a, order, info) && CopyRecords(a, b) && x in b && r != PARENT && a[x].Next(r) == Some(c) && c !in b && c in a
    requires b2 == NewBranch(b, a[c], c, x, r)
    ensures CopiedOk(a, b2, x)
  {
    assert CopiedOk(a, b, x);
    assert LinkOk(a, order, info, x);
    assert a[x].left.Some? && a[x].right.Some? ==> a[x].left != a[x].right;
  }

  /** Any other copied record is unchanged, and none of its children is the new copy. */
  lemma CopiedOther(a: Arena, order: seq<nat>, info: map<nat, Info>, b: Arena, x: nat, c: nat, b2: Arena, i: nat)
    requires Linked(a, order, info) && CopyRecords(a, b) && i in b && i != x && c !in b
    requires c in a && a[c].parent == Some(x)
    requires b2.Keys == b.Keys + {c} && b2[i] == b[i]
    ensures i in a && CopiedOk(a, b2, i)
  {
    assert CopiedOk(a, b, i);
    assert LinkOk(a, order, info, i);
    assert a[i].left != Some(c) && a[i].right != Some(c);
  }

  /** After `new_branch` a node is copied exactly when the loop state says so. */
  lemma CopyBranchLinks(a: Arena, order: seq<nat>, info: map<nat, Info>, b: Arena, stack: seq<nat>, x: nat, r: Rela, pending: set<Rela>)
    requires Linked(a, order, info) && CopyLinks(a, b, stack, x, pending) && x in a && x in b && x !in stack
    requires r in pending && r != PARENT && a[x].Next(r).Some?
    requires var c := a[x].Next(r).value; c in a && c !in b && a[c].parent == Some(x) && a[c].rela == r
    ensures var c := a[x].Next(r).value; CopyLinks(a, NewBranch(b, a[c], c, x, r), stack + [c], x, pending - {r})
  {
    var c := a[x].Next(r).value;
    var b2 := NewBranch(b, a[c], c, x, r);
    var stack2 := stack + [c];
    assert forall p :: p in stack2 <==> p in stack || p == c;
    forall i | i in a
      ensures i in b2 <==> (a[i].parent.None? ||
                            (a[i].parent.value in b2 && a[i].parent.value !in stack2 &&
                             !(a[i].parent.value == x && a[i].rela in pending - {r})))
    {
      if a[i].parent.Some? && a[i].parent.value == x {
        ParentOf(a, order, info, i);
      }
    }
  }

  /** With no slot pending the expanded node is done. */
  lemma CopyClose<V>(a: Arena, vals: map<nat, V>, b: Arena, vs: map<nat, V>, stack: seq<nat>, x: nat)
    requires CopyingAt(a, vals, b, vs, stack, x, {})
    ensures Copying(a, vals, b, vs, stack)
  {
  }

  /** When the stack of `clone` is empty the copy equals the original. */
  lemma CopyDone<V>(a: Arena, order: seq<nat>, info: map<nat, Info>, root: NodeRef, vals: map<nat, V>, b: Arena, vs: map<nat, V>)
    requires Linked(a, order, info) && RootOk(a, root, order, info) && Copying(a, vals, b, vs, [])
    ensures b == a && vs == vals
  {
    forall i | i in a ensures i in b.Keys {
      Reached(a, order, info, root, b.Keys, i);
    }
    forall i | i in a ensures b[i] == a[i] {
      assert CopiedOk(a, b, i);
      assert LinkOk(a, order, info, i);
      assert Kept(a[i].left, b) == a[i].left && Kept(a[i].right, b) == a[i].right;
    }
  }

  /**
   * One slot of the loop body of `clone`: when the popped node `x` has a
   * child in slot `r`, `new_branch` copies it below the copy of `x` and the
   * pair is pushed.
   */
  method BranchSlot<V>(a: Arena, vals: map<nat, V>, b: Arena, vs: map<nat, V>, stack: seq<nat>, x: nat, r: Rela,
                       ghost pending: set<Rela>, ghost order: seq<nat>, ghost info: map<nat, Info>)
    returns (b2: Arena, vs2: map<nat, V>, stack2: seq<nat>)
    requires Linked(a, order, info) && CopyingAt(a, vals, b, vs, stack, x, pending) && x in a
    requires r in pending && r != PARENT
    ensures CopyingAt(a, vals, b2, vs2, stack2, x, pending - {r})
    ensures a[x].Next(r).None? ==> b2 == b && vs2 == vs && stack2 == stack
    ensures 2 * |a.Keys - b2.Keys| + |stack2| <= 2 * |a.Keys - b.Keys| + |stack|
  {
    if a[x].Next(r).Some? {
      var c := a[x].Next(r).value;
      CopyBranch(a, order, info, vals, b, vs, stack, x, r, pending);
      b2, vs2, stack2 := NewBranch(b, a[c], c, x, r), vs[c := vals[c]], stack + [c];
    } else {
      CopySkip(a, order, info, vals, b, vs, stack, x, r, pending);
      b2, vs2, stack2 := b, vs, stack;
    }
  }

  /** The body of the loop of `clone`: pop a node and copy its left, then its right child below it. */
  method Expand<V>(a: Arena, vals: map<nat, V>, b: Arena, vs: map<nat, V>, stack: seq<nat>,
                   ghost order: seq<nat>, ghost info: map<nat, Info>)
    returns (b2: Arena, vs2: map<nat, V>, stack2: seq<nat>)
    requires Linked(a, order, info) && Copying(a, vals, b, vs, stack) && |stack| > 0
    ensures Copying(a, vals, b2, vs2, stack2)
    ensures 2 * |a.Keys - b2.Keys| + |stack2| < 2 * |a.Keys - b.Keys| + |stack|
  {
    var x := stack[|stack| - 1];
    CopyPop(a, order, info, vals, b, vs, stack);
    b2, vs2, stack2 := BranchSlot(a, vals, b, vs, stack[..|stack| - 1], x, LEFT, {LEFT, RIGHT}, order, info);
    b2, vs2, stack2 := BranchSlot(a, vals, b2, vs2, stack2, x, RIGHT, {LEFT, RIGHT} - {LEFT}, order, info);
    assert {LEFT, RIGHT} - {LEFT} - {RIGHT} == {};
    CopyClose(a, vals, b2, vs2, stack2, x);
  }

  /**
   * The loop of `clone`: the root is copied first; then each popped node has
   * its left child and then its right child copied below it by `new_branch`,
   * and each copied child is pushed. The copy equals the original tree, with
   * the values copied along.
   */
  method CopyTree<V>(a: Arena, vals: map<nat, V>, root: NodeRef, ghost order: seq<nat>, ghost info: map<nat, Info>)
    returns (b: Arena, vs: map<nat, V>)
    requires Linked(a, order, info) && RootOk(a, root, order, info) && vals.Keys == a.Keys && root.Some?
    ensures b == a && vs == vals
  {
    var top := root.value;
    b, vs := map[top := Zeroed().InitFrom(a[top])], map[top := vals[top]];
    var stack := [top];
    CopyStart(a, order, info, root, vals, b, vs);
    while |stack| > 0
      invariant Copying(a, vals, b, vs, stack)
      decreases 2 * |a.Keys - b.Keys| + |stack|
    {
      b, vs, stack := Expand(a, vals, b, vs, stack, order, info);
    }
    CopyDone(a, order, info, root, vals, b, vs);
  }

  /** The copy of the root alone starts the loop of `clone`. */
  lemma CopyStart<V>(a: Arena, order: seq<nat>, info: map<nat, Info>, root: NodeRef, vals: map<nat, V>, b: Arena, vs: map<nat, V>)
    requires Linked(a, order, info) && RootOk(a, root, order, info) && vals.Keys == a.Keys && root.Some?
    requires b == map[root.value := Zeroed().InitFrom(a[root.value])] && vs == map[root.value := vals[root.value]]
    ensures Copying(a, vals, b, vs, [root.value])
  {
    var t := root.value;
    assert LinkOk(a, order, info, t);
    forall s | s != PARENT && a[t].Next(s).Some?
      ensures a[t].Next(s).value != t
    {
      ChildOf(a, order, info, t, s);
    }
    assert a[t].Next(LEFT) == a[t].left && a[t].Next(RIGHT) == a[t].right;
    assert CopiedOk(a, b, t);
    forall i | i in a
      ensures i in b <==> (a[i].parent.None? || (a[i].parent.value in b && a[i].parent.value !in [t]))
    {
    }
  }
}
