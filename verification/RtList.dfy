/** The list operations of `rt-thread/include/rtservice.h` on the nodes they link. */
module RtList {
  import opened Lists
  import opened Rings

  /** All list nodes of the system: the two fields of each. */
  class Nodes {
    const next: array<int>
    const prev: array<int>

    ghost predicate Valid()
      reads this
    {
      next != prev && next.Length == prev.Length
    }

    /** `ring` is a circular list of these nodes. */
    ghost predicate IsRing(ring: seq<nat>)
      reads this, next, prev
    {
      Valid() && Ring(next[..], prev[..], ring)
    }

    /** Every node starts as a list of its own (`rt_list_init`). */
    constructor (n: nat)
      ensures Valid() && fresh(next) && fresh(prev) && next.Length == n
      ensures forall x :: 0 <= x < n ==> IsRing([x])
    {
      next := new int[n](i => i);
      prev := new int[n](i => i);
      new;
      forall x | 0 <= x < n ensures IsRing([x]) {
        assert Tied(next[..], prev[..], [x], 0);
      }
    }

    /** `rt_list_insert_after(l, n)`. */
    method InsertAfter(l: nat, n: nat, ghost ring: seq<nat>, ghost i: nat)
      requires IsRing(ring) && i < |ring| && ring[i] == l && n < next.Length && n !in ring
      modifies next, prev
      ensures IsRing(InsertAt(ring, i + 1, n))
      ensures LinkedIn(old(next[..]), old(prev[..]), ring, i, n, next[..], prev[..])
    {
      assert Tied(next[..], prev[..], ring, i) && Succ(ring, i) in ring;
      prev[next[l]] := n;
      next[n] := next[l];
      next[l] := n;
      prev[n] := l;
      RingInsert(old(next[..]), old(prev[..]), ring, i, n, next[..], prev[..]);
    }

    /** `rt_list_insert_before(l, n)`: before the head of a list this appends. */
    method InsertBefore(l: nat, n: nat, ghost ring: seq<nat>)
      requires IsRing(ring) && ring[0] == l && n < next.Length && n !in ring
      modifies next, prev
      ensures IsRing(ring + [n])
      ensures LinkedIn(old(next[..]), old(prev[..]), ring, |ring| - 1, n, next[..], prev[..])
    {
      ghost var i := |ring| - 1;
      assert Tied(next[..], prev[..], ring, i) && ring[i] in ring;
      next[prev[l]] := n;
      prev[n] := prev[l];
      prev[l] := n;
      next[n] := l;
      RingInsert(old(next[..]), old(prev[..]), ring, i, n, next[..], prev[..]);
      assert InsertAt(ring, i + 1, n) == ring + [n];
    }

    /** `rt_list_remove(n)`: the rest stays a list and the node becomes one of its own; a node that is on no list
        is left as it is. */
    method Remove(n: nat, ghost ring: seq<nat>, ghost i: nat)
      requires IsRing(ring) && i < |ring| && ring[i] == n && (i == 0 ==> ring == [n])
      modifies next, prev
      ensures IsRing([n]) && (i > 0 ==> IsRing(Dropped(ring, i)))
      ensures i == 0 ==> next[..] == old(next[..]) && prev[..] == old(prev[..])
      ensures i > 0 ==> LinkedOut(old(next[..]), old(prev[..]), ring, i, next[..], prev[..])
    {
      assert Tied(next[..], prev[..], ring, i);
      if i > 0 { assert Tied(next[..], prev[..], ring, i - 1) && Differ(ring, i - 1, i); }
      ghost var s := Succ(ring, i);
      if i + 1 < |ring| { assert Differ(ring, i, i + 1); } else if i > 0 { assert Differ(ring, 0, i); }
      prev[next[n]] := prev[n];
      next[prev[n]] := next[n];
      next[n], prev[n] := n, n;
      if i > 0 { RingRemove(old(next[..]), old(prev[..]), ring, i, next[..], prev[..]); }
      assert Tied(next[..], prev[..], [n], 0);
    }

    /** `rt_list_isempty`. */
    method IsEmpty(l: nat, ghost ring: seq<nat>) returns (r: bool)
      requires IsRing(ring) && ring[0] == l
      ensures r <==> ring == [l]
    {
      assert Tied(next[..], prev[..], ring, 0);
      if |ring| > 1 { assert Differ(ring, 0, 1); }
      r := next[l] == l;
    }

    /** `rt_list_len`: the number of nodes besides the head. */
    method Len(l: nat, ghost ring: seq<nat>) returns (len: nat)
      requires IsRing(ring) && ring[0] == l
      ensures len == |ring| - 1
    {
      len := 0;
      var p: int := l;
      assert Tied(next[..], prev[..], ring, 0);
      while next[p] != l
        invariant len < |ring| && p == ring[len] && 0 <= p < next.Length
        decreases |ring| - len
      {
        assert Tied(next[..], prev[..], ring, len);
        p := next[p];
        len := len + 1;
        assert Tied(next[..], prev[..], ring, len);
      }
      LastNode(next[..], prev[..], ring, len);
    }

    /** Moving a node from one list to the end of another, as suspending and waking a thread does, leaves both
        lists and changes nothing else. */
    method Move(n: nat, l: nat, ghost source: seq<nat>, ghost i: nat, ghost target: seq<nat>, ghost other: seq<nat>)
      requires IsRing(source) && IsRing(target) && 0 < i < |source| && source[i] == n && target[0] == l
      requires forall x :: x in source ==> x !in target
      requires IsRing(other) && forall x :: x in other ==> x !in source && x !in target
      modifies next, prev
      ensures IsRing(Dropped(source, i)) && IsRing(target + [n]) && IsRing(other)
    {
      assert n in source;
      Remove(n, source, i);
      OutFrame(old(next[..]), old(prev[..]), source, i, next[..], prev[..], target);
      RingFrame(old(next[..]), old(prev[..]), target, next[..], prev[..]);
      OutFrame(old(next[..]), old(prev[..]), source, i, next[..], prev[..], other);
      RingFrame(old(next[..]), old(prev[..]), other, next[..], prev[..]);
      ghost var next1, prev1 := next[..], prev[..];
      DroppedElements(source, i);
      InRange(next1, prev1, [n], n);
      InsertBefore(l, n, target);
      InFrame(next1, prev1, target, |target| - 1, n, next[..], prev[..], Dropped(source, i));
      RingFrame(next1, prev1, Dropped(source, i), next[..], prev[..]);
      InFrame(next1, prev1, target, |target| - 1, n, next[..], prev[..], other);
      RingFrame(next1, prev1, other, next[..], prev[..]);
    }
  }

  /** The node that points back at the head is the last. */
  lemma {:induction false} LastNode(next: seq<int>, prev: seq<int>, ring: seq<nat>, k: nat)
    requires Ring(next, prev, ring) && k < |ring| && ring[k] < |next| && next[ring[k]] == ring[0]
    ensures k == |ring| - 1
  {
    assert k + 1 < |ring| ==> Differ(ring, 0, k + 1);
    assert Tied(next, prev, ring, k);
  }

  lemma {:induction false} OutFrame(next: seq<int>, prev: seq<int>, ring: seq<nat>, i: nat, next': seq<int>,
      prev': seq<int>, other: seq<nat>)
    requires 0 < i < |ring| && LinkedOut(next, prev, ring, i, next', prev') && forall x :: x in other ==> x !in ring
    ensures forall x :: x in other && x < |next| ==> next'[x] == next[x] && prev'[x] == prev[x]
  {
    forall x | x in other && x < |next| ensures next'[x] == next[x] && prev'[x] == prev[x] {
      assert ring[i - 1] in ring && ring[i] in ring && Succ(ring, i) in ring;
    }
  }

  lemma {:induction false} InFrame(next: seq<int>, prev: seq<int>, ring: seq<nat>, i: nat, n: nat, next': seq<int>,
      prev': seq<int>, other: seq<nat>)
    requires i < |ring| && LinkedIn(next, prev, ring, i, n, next', prev') && n !in other
    requires forall x :: x in other ==> x !in ring
    ensures forall x :: x in other && x < |next| ==> next'[x] == next[x] && prev'[x] == prev[x]
  {
    forall x | x in other && x < |next| ensures next'[x] == next[x] && prev'[x] == prev[x] {
      assert ring[i] in ring && Succ(ring, i) in ring;
    }
  }
}
