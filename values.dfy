/**
 * Iterators over the values of a map alone, in key order: each wraps an
 * entry iterator and drops the key of every entry it passes on.
 */
module MapValues {
  import opened Wrappers
  import opened Iteration

  /** The values of a sequence of pairs, in the same order. */
  ghost function Seconds<V>(s: seq<(int, V)>): (t: seq<V>)
    ensures |t| == |s| && forall k :: 0 <= k < |s| ==> t[k] == s[k].1
  {
    seq(|s|, k requires 0 <= k < |s| => s[k].1)
  }

  /** Dropping pairs from either end of a sequence drops their values from the same end. */
  lemma SecondsSlice<V>(s: seq<(int, V)>, lo: nat, hi: nat)
    requires lo <= hi <= |s|
    ensures Seconds(s[lo..hi]) == Seconds(s)[lo..hi]
  {
    assert forall k :: 0 <= k < hi - lo ==> Seconds(s[lo..hi])[k] == s[lo + k].1;
  }

  /** `Values`: the values of an `Iter`'s entries. */
  class Values<V> {
    const inner: Iter<V>

    ghost predicate Valid()
      reads this, inner
    {
      inner.Valid()
    }

    /** The values still to come, in key order. */
    ghost function Remaining(): (s: seq<V>)
      reads this, inner
      requires Valid()
      ensures |s| == inner.length
    {
      Seconds(inner.Remaining())
    }

    /** `Values::new(inner)`. */
    constructor New(inner: Iter<V>)
      requires inner.Valid()
      ensures Valid() && this.inner == inner && Remaining() == Seconds(inner.Remaining())
    {
      this.inner := inner;
    }

    /** `next`: the value of the next entry, which is then gone. */
    method Next() returns (r: Option<V>)
      requires Valid()
      modifies inner
      ensures Valid()
      ensures old(inner.length) == 0 ==> r.None? && Remaining() == old(Remaining())
      ensures old(inner.length) > 0 ==> r == Some(old(Remaining())[0]) && Remaining() == old(Remaining())[1..]
    {
      ghost var s := inner.Remaining();
      var p := inner.Next();
      r := if p.Some? then Some(p.value.1) else None;
      if p.Some? {
        SecondsSlice(s, 1, |s|);
      }
    }

    /** `next_back`: the value of the last entry, which is then gone. */
    method NextBack() returns (r: Option<V>)
      requires Valid()
      modifies inner
      ensures Valid()
      ensures old(inner.length) == 0 ==> r.None? && Remaining() == old(Remaining())
      ensures old(inner.length) > 0 ==>
        r == Some(old(Remaining())[old(inner.length) - 1]) && Remaining() == old(Remaining())[..old(inner.length) - 1]
    {
      ghost var s := inner.Remaining();
      var p := inner.NextBack();
      r := if p.Some? then Some(p.value.1) else None;
      if p.Some? {
        SecondsSlice(s, 0, |s| - 1);
      }
    }

    /** `last`: `next_back` on an iterator that is consumed. */
    method Last() returns (r: Option<V>)
      requires Valid()
      modifies inner
      ensures old(inner.length) == 0 ==> r.None?
      ensures old(inner.length) > 0 ==> r == Some(old(Remaining())[old(inner.length) - 1])
    {
      r := NextBack();
    }

    /** `size_hint`: that of the entries still to come. */
    function SizeHint(): (h: (nat, Option<nat>))
      reads this, inner
      requires Valid()
      ensures h == (|Remaining()|, Some(|Remaining()|))
    {
      inner.SizeHint()
    }

    /** `len`: the number of values still to come. */
    function Len(): (n: nat)
      reads this, inner
      requires Valid()
      ensures n == |Remaining()|
    {
      inner.Len()
    }

    /** `clone`: values of a clone of the entry iterator. */
    method Clone() returns (c: Values<V>)
      requires Valid()
      ensures fresh(c) && fresh(c.inner) && c.Valid() && c.Remaining() == Remaining()
    {
      var it := inner.Clone();
      c := new Values.New(it);
    }
  }

  /** `ValuesMut`: write access to the values of an `IterMut`'s entries, as value handles. */
  class ValuesMut<V> {
    const inner: IterMut<V>

    ghost predicate Valid()
      reads this, inner
    {
      inner.Valid()
    }

    /** The handles of the values still to come, in key order. */
    ghost function Handles(): (s: seq<nat>)
      reads this, inner
      requires Valid()
      ensures |s| == inner.length
    {
      inner.Handles()
    }

    /** `ValuesMut::new(inner)`. */
    constructor New(inner: IterMut<V>)
      requires inner.Valid()
      ensures Valid() && this.inner == inner && Handles() == inner.Handles()
    {
      this.inner := inner;
    }

    /** `next`: the handle of the next entry's value, which is then gone. */
    method Next() returns (r: Option<nat>)
      requires Valid()
      modifies inner
      ensures Valid()
      ensures old(inner.length) == 0 ==> r.None? && Handles() == old(Handles())
      ensures old(inner.length) > 0 ==> r == Some(old(Handles())[0]) && Handles() == old(Handles())[1..]
    {
      var p := inner.Next();
      r := if p.Some? then Some(p.value.1) else None;
    }

    /** `next_back`: the handle of the last entry's value, which is then gone. */
    method NextBack() returns (r: Option<nat>)
      requires Valid()
      modifies inner
      ensures Valid()
      ensures old(inner.length) == 0 ==> r.None? && Handles() == old(Handles())
      ensures old(inner.length) > 0 ==>
        r == Some(old(Handles())[old(inner.length) - 1]) && Handles() == old(Handles())[..old(inner.length) - 1]
    {
      var p := inner.NextBack();
      r := if p.Some? then Some(p.value.1) else None;
    }

    /** `last`: `next_back` on an iterator that is consumed. */
    method Last() returns (r: Option<nat>)
      requires Valid()
      modifies inner
      ensures old(inner.length) == 0 ==> r.None?
      ensures old(inner.length) > 0 ==> r == Some(old(Handles())[old(inner.length) - 1])
    {
      r := NextBack();
    }

    /** `size_hint`: that of the entries still to come. */
    function SizeHint(): (h: (nat, Option<nat>))
      reads this, inner
      requires Valid()
      ensures h == (|Handles()|, Some(|Handles()|))
    {
      inner.SizeHint()
    }

    /** `len`: the number of values still to come. */
    function Len(): (n: nat)
      reads this, inner
      requires Valid()
      ensures n == |Handles()|
    {
      inner.Len()
    }
  }
}
