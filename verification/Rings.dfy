/** Doubly linked circular lists: the intrusive lists of `rt-thread/include/rtservice.h`, on which every queue of
    the kernel is built, and the rings that run through the headers of a memheap. Nodes are named by numbers; the
    `next` and `prev` fields of all nodes are two sequences. */
module Rings {
  import opened Lists

  ghost function Succ(ring: seq<nat>, i: nat): nat
    requires i < |ring|
  {
    if i + 1 == |ring| then ring[0] else ring[i + 1]
  }

  /** Node `i` of the ring and its successor point at each other. */
  ghost predicate Tied(next: seq<int>, prev: seq<int>, ring: seq<nat>, i: nat)
    requires |next| == |prev| && i < |ring|
  {
    && ring[i] < |next| && Succ(ring, i) < |next|
    && next[ring[i]] == Succ(ring, i) && prev[Succ(ring, i)] == ring[i]
  }

  /** `ring` lists, from some node on, the nodes of one circular list. */
  ghost predicate Ring(next: seq<int>, prev: seq<int>, ring: seq<nat>) {
    && |next| == |prev| && ring != [] && NoDup(ring)
    && forall i :: 0 <= i < |ring| ==> Tied(next, prev, ring, i)
  }

  lemma {:induction false} InRange(next: seq<int>, prev: seq<int>, ring: seq<nat>, x: nat)
    requires Ring(next, prev, ring) && x in ring
    ensures x < |next|
  {
    var i :| 0 <= i < |ring| && ring[i] == x;
    assert Tied(next, prev, ring, i);
  }

  /** A ring whose nodes keep their links stays a ring, whatever happens to others. */
  lemma {:induction false} RingFrame(next: seq<int>, prev: seq<int>, ring: seq<nat>, next': seq<int>, prev': seq<int>)
    requires Ring(next, prev, ring) && |next'| == |prev'| == |next|
    requires forall x :: x in ring && x < |next| ==> next'[x] == next[x] && prev'[x] == prev[x]
    ensures Ring(next', prev', ring)
  {
    forall i | 0 <= i < |ring| ensures Tied(next', prev', ring, i) {
      assert Tied(next, prev, ring, i) && ring[i] in ring && Succ(ring, i) in ring;
    }
  }

  /** Linking `x` in behind node `i`. */
  ghost predicate LinkedIn(next: seq<int>, prev: seq<int>, ring: seq<nat>, i: nat, x: nat, next': seq<int>,
      prev': seq<int>)
    requires i < |ring|
  {
    && |next| == |prev| == |next'| == |prev'| && ring[i] < |next| && x < |next| && Succ(ring, i) < |next|
    && next'[ring[i]] == x && next'[x] == Succ(ring, i) && prev'[Succ(ring, i)] == x && prev'[x] == ring[i]
    && (forall y :: 0 <= y < |next| && y != ring[i] && y != x ==> next'[y] == next[y])
    && forall y :: 0 <= y < |next| && y != Succ(ring, i) && y != x ==> prev'[y] == prev[y]
  }

  lemma {:induction false} RingInsert(next: seq<int>, prev: seq<int>, ring: seq<nat>, i: nat, x: nat, next': seq<int>,
      prev': seq<int>)
    requires Ring(next, prev, ring) && i < |ring| && x !in ring && LinkedIn(next, prev, ring, i, x, next', prev')
    ensures Ring(next', prev', InsertAt(ring, i + 1, x))
  {
    var r := InsertAt(ring, i + 1, x);
    InsertNoDup(ring, i + 1, x);
    forall k | 0 <= k < |r| ensures Tied(next', prev', r, k) {
      if k < i {
        assert Tied(next, prev, ring, k) && Differ(ring, k, i);
        SuccDiffer(ring, k, i);
      } else if k > i + 1 {
        assert Tied(next, prev, ring, k - 1) && Differ(ring, i, k - 1);
        SuccDiffer(ring, i, k - 1);
      }
    }
  }

  lemma {:induction false} SuccDiffer(ring: seq<nat>, i: nat, j: nat)
    requires NoDup(ring) && i < j < |ring|
    ensures Succ(ring, i) != Succ(ring, j)
  {
    if j + 1 < |ring| { assert Differ(ring, i + 1, j + 1); } else { assert Differ(ring, 0, i + 1); }
  }

  /** Linking node `i` out; its own links are left to the caller. */
  ghost predicate LinkedOut(next: seq<int>, prev: seq<int>, ring: seq<nat>, i: nat, next': seq<int>, prev': seq<int>)
    requires 0 < i < |ring|
  {
    && |next| == |prev| == |next'| == |prev'| && ring[i - 1] < |next| && Succ(ring, i) < |next|
    && next'[ring[i - 1]] == Succ(ring, i) && prev'[Succ(ring, i)] == ring[i - 1]
    && (forall y :: 0 <= y < |next| && y != ring[i - 1] && y != ring[i] ==> next'[y] == next[y])
    && forall y :: 0 <= y < |next| && y != Succ(ring, i) && y != ring[i] ==> prev'[y] == prev[y]
  }

  ghost function Dropped(ring: seq<nat>, i: nat): seq<nat>
    requires i < |ring|
  {
    ring[..i] + ring[i + 1..]
  }

  lemma {:induction false} DroppedElements(ring: seq<nat>, i: nat)
    requires NoDup(ring) && i < |ring|
    ensures NoDup(Dropped(ring, i)) && forall x :: x in Dropped(ring, i) <==> x in ring && x != ring[i]
  {
    var r := Dropped(ring, i);
    forall a, b | 0 <= a < b < |r| ensures Differ(r, a, b) {
      assert Differ(ring, if a < i then a else a + 1, if b < i then b else b + 1);
    }
    forall x ensures x in r <==> x in ring && x != ring[i] {
      if x in r {
        var k :| 0 <= k < |r| && r[k] == x;
        if k < i { assert Differ(ring, k, i); } else { assert Differ(ring, i, k + 1) && r[k] == ring[k + 1]; }
      }
      if x in ring && x != ring[i] {
        var k :| 0 <= k < |ring| && ring[k] == x;
        assert r[if k < i then k else k - 1] == x;
      }
    }
  }

  lemma {:induction false} RingRemove(next: seq<int>, prev: seq<int>, ring: seq<nat>, i: nat, next': seq<int>,
      prev': seq<int>)
    requires Ring(next, prev, ring) && 0 < i < |ring| && LinkedOut(next, prev, ring, i, next', prev')
    ensures Ring(next', prev', Dropped(ring, i))
  {
    var r := Dropped(ring, i);
    DroppedElements(ring, i);
    assert Differ(ring, i - 1, i);
    forall k | 0 <= k < |r| ensures Tied(next', prev', r, k) {
      if k < i - 1 {
        assert Tied(next, prev, ring, k) && Differ(ring, k, i - 1) && Differ(ring, k, i) && Differ(ring, k + 1, i);
        SuccDiffer(ring, k, i);
      } else if k >= i {
        assert Tied(next, prev, ring, k + 1) && Differ(ring, i - 1, k + 1) && Differ(ring, i, k + 1);
        SuccDiffer(ring, i, k + 1);
        SuccDiffer(ring, i - 1, k + 1);
      }
    }
  }
}
