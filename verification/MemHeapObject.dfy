/** The memheap's headers in memory (`rt-thread/src/memheap.c`): a ring through all blocks in address order, a ring
    through the free ones, and the counters, proved against `MemHeap`. Headers are named by the word they start at;
    the list header `free_header` is the name one past the pool. */
module MemHeapObject {
  import opened KernelTypes
  import opened Lists
  import opened Rings
  import opened BlockChain
  import opened MemHeap

  /** The blocks' headers in address order. */
  ghost function Starts(b: seq<Item>): seq<nat> {
    seq(|b|, i requires 0 <= i < |b| => b[i].at)
  }

  lemma {:induction false} StartsLength(b: seq<Item>)
    ensures |Starts(b)| == |b| && forall i :: 0 <= i < |b| ==> Starts(b)[i] == b[i].at
  {
  }

  lemma {:induction false} StartsCut(b: seq<Item>, k: nat, keep: nat)
    requires k < |b|
    ensures Starts(Cut(b, k, keep + 3)) == InsertAt(Starts(b), k + 1, b[k].at + H + keep)
    ensures Starts(SetFlag(b, k, true)) == Starts(b) && Starts(SetFlag(b, k, false)) == Starts(b)
  {
  }

  lemma {:induction false} StartsDrop(b: seq<Item>, k: nat)
    requires k < |b|
    ensures Starts(Drop(b, k)) == Dropped(Starts(b), k)
  {
  }

  lemma {:induction false} StartsFresh(b: seq<Item>, end: nat, k: nat, x: nat)
    requires Chain(b, end) && k < |b| - 1 && b[k].at < x < b[k + 1].at
    ensures x !in Starts(b)
  {
    if x in Starts(b) {
      var i :| 0 <= i < |b| && b[i].at == x;
      if i < k { Ascending(b, end, i, k); }
      if i > k + 1 { Ascending(b, end, k + 1, i); }
    }
  }

  /** The `RT_MEMHEAP_USED` bits. */
  ghost predicate Marked(used: seq<bool>, b: seq<Item>, i: nat)
    requires i < |b|
  {
    b[i].at < |used| && used[b[i].at] == b[i].live
  }

  ghost predicate Marks(used: seq<bool>, b: seq<Item>) {
    forall i :: 0 <= i < |b| ==> Marked(used, b, i)
  }

  lemma {:induction false} MarksCut(used: seq<bool>, b: seq<Item>, end: nat, k: nat, keep: nat)
    requires Marks(used, b) && Chain(b, end) && k < |b| - 1 && b[k].at + H + keep < b[k + 1].at
    ensures b[k].at + H + keep < |used|
    ensures Marks(used[b[k].at + H + keep := false], Cut(b, k, keep + 3))
  {
    var c, x := Cut(b, k, keep + 3), b[k].at + H + keep;
    assert Marked(used, b, k + 1);
    StartsFresh(b, end, k, x);
    var after := used[x := false];
    forall i | 0 <= i < |c| ensures Marked(after, c, i) {
      var j := if i <= k then i else i - 1;
      if i != k + 1 { assert Marked(used, b, j) && c[i] == b[j] && Starts(b)[j] == b[j].at; }
    }
  }

  lemma {:induction false} MarksFlag(used: seq<bool>, b: seq<Item>, end: nat, k: nat, live: bool)
    requires Marks(used, b) && Chain(b, end) && k < |b|
    ensures b[k].at < |used| && Marks(used[b[k].at := live], SetFlag(b, k, live))
  {
    assert Marked(used, b, k);
    var c, after := SetFlag(b, k, live), used[b[k].at := live];
    forall i | 0 <= i < |c| ensures Marked(after, c, i) {
      assert Marked(used, b, i);
      if i != k && b[i].at == b[k].at { OneStart(b, end, i, k); }
    }
  }

  lemma {:induction false} MarksDrop(used: seq<bool>, b: seq<Item>, k: nat)
    requires Marks(used, b) && k < |b|
    ensures Marks(used, Drop(b, k))
  {
    var c := Drop(b, k);
    forall i | 0 <= i < |c| ensures Marked(used, c, i) { assert Marked(used, b, if i < k then i else i + 1); }
  }

  /** The free ring with its list header. */
  ghost function FreeNodes(words: nat, free: seq<nat>): seq<nat> {
    [words] + free
  }

  lemma {:induction false} FreeNodesWithout(words: nat, free: seq<nat>, x: nat, j: nat)
    requires NoDup(free) && j < |free| && free[j] == x
    ensures FreeNodes(words, Without(free, x)) == Dropped(FreeNodes(words, free), j + 1)
  {
    forall i | 0 <= i < j ensures free[i] != x { assert Differ(free, i, j); }
    WithoutAt(free, x, j);
  }

  /** An unused block is on the free ring, once, and the ring holds nothing else. */
  lemma {:induction false} IsListed(b: seq<Item>, free: seq<nat>, k: nat)
    requires FreeRing(b, free) && k < |b| && !b[k].live
    ensures NoDup(free) && b[k].at in free && forall x :: Item(x, false) !in b ==> x !in free
  {
    assert b[k] == Item(b[k].at, false);
  }

  /** What handing out a block changes, part by part. */
  lemma {:induction false} TakePlan(p: Pool, k: nat, need: nat, used: seq<bool>)
    requires Inv(p) && k < |p.blocks| - 1 && !p.blocks[k].live && need <= Pay(p.blocks, k) && MINI <= need
    requires Marks(used, p.blocks) && |used| == p.size / 4
    ensures var b, n, at := p.blocks, Take(p, k, need), p.blocks[k].at;
      && at in p.free && NoDup(p.free) && at < |used| && k < |Starts(b)| && Starts(b)[k] == at && n.size == p.size
      && n.peak == Max(p.peak, p.size - n.available)
      && if Pay(b, k) >= need + H + MINI then
           var x := at + H + need;
           && x !in Starts(b) && x < |used| && x !in Without(p.free, at) && x != at
           && Starts(n.blocks) == InsertAt(Starts(b), k + 1, x) && n.free == [x] + Without(p.free, at)
           && Marks(used[x := false][at := true], n.blocks) && n.available == p.available - 4 * need - 4 * H
         else
           && Starts(n.blocks) == Starts(b) && n.free == Without(p.free, at)
           && Marks(used[at := true], n.blocks) && n.available == p.available - 4 * Pay(b, k)
  {
    hide FreeRing, Roomy, Heap, FreePay, NoDup, Marks, Starts;
    var b, at, end := p.blocks, p.blocks[k].at, End(p);
    var c := SetFlag(b, k, true);
    IsListed(b, p.free, k);
    HeapChain(b, end);
    StartsLength(b);
    StartsCut(b, k, need);
    MarksFlag(used, b, end, k, true);
    if Pay(b, k) >= need + H + MINI {
      var x := at + H + need;
      FlagChain(b, end, k, true);
      MarksCut(used[at := true], c, end, k, need);
      Inside(b, end, k, x);
      StartsFresh(b, end, k, x);
      StartsCut(c, k, need);
      assert used[x := false][at := true] == used[at := true][x := false];
    }
  }

  /** The two rings after a block is freed. */
  ghost function RelinkedStarts(starts: seq<nat>, k: nat, left: bool, right: bool): seq<nat>
    requires k + 1 < |starts|
  {
    if left && right then Dropped(Dropped(starts, k), k)
    else if left then Dropped(starts, k) else if right then Dropped(starts, k + 1) else starts
  }

  ghost function RelinkedFree(free: seq<nat>, header: nat, after: nat, left: bool, right: bool): seq<nat> {
    var rest := if right then Without(free, after) else free;
    if left then rest else [header] + rest
  }

  lemma {:induction false} DroppedTwice(starts: seq<nat>, k: nat)
    requires k + 1 < |starts|
    ensures Dropped(Dropped(starts, k + 1), k) == Dropped(Dropped(starts, k), k)
  {
  }

  /** A live block is not on the free ring, a free neighbour is. */
  lemma {:induction false} NotListed(b: seq<Item>, end: nat, free: seq<nat>, k: nat)
    requires Heap(b, end) && FreeRing(b, free) && k < |b| - 1 && b[k].live
    ensures NoDup(free) && b[k].at !in free && (!b[k + 1].live ==> b[k + 1].at in free) && b[k].at < end
  {
    var at := b[k].at;
    Ascending(b, end, k, |b| - 1);
    if at in free {
      assert Item(at, false) in b;
      var i :| 0 <= i < |b| && b[i] == Item(at, false);
      OneStart(b, end, i, k);
    }
    if !b[k + 1].live { assert b[k + 1] == Item(b[k + 1].at, false); }
  }

  /** What freeing changes, part by part: the left neighbour is joined first. */
  lemma {:induction false} GivePlan(p: Pool, k: nat, used: seq<bool>)
    requires Inv(p) && k < |p.blocks| - 1 && p.blocks[k].live && Marks(used, p.blocks) && |used| == p.size / 4
    ensures var b, n, at, starts := p.blocks, Give(p, k), p.blocks[k].at, Starts(p.blocks);
      var left, right := k > 0 && !b[k - 1].live, !b[k + 1].live;
      var rest := if right then Without(p.free, b[k + 1].at) else p.free;
      && at < |used| && NoDup(p.free) && (right ==> b[k + 1].at in p.free) && at !in rest
      && n.free == RelinkedFree(p.free, at, b[k + 1].at, left, right) && n.size == p.size && n.peak == p.peak
      && Starts(n.blocks) == RelinkedStarts(starts, k, left, right)
      && Marks(used[at := false], n.blocks)
      && n.available == p.available + 4 * Pay(b, k) + (if left then 4 * H else 0) + (if right then 4 * H else 0)
  {
    hide FreeRing, Roomy, Heap, Chain, FreePay, NoDup, Marks, Dropped;
    var b, end, at := p.blocks, End(p), p.blocks[k].at;
    StartsLength(b);
    var c := SetFlag(b, k, false);
    NotListed(b, end, p.free, k);
    HeapChain(b, end);
    StartsCut(b, k, 0);
    MarksFlag(used, b, end, k, false);
    var f := if c[k + 1].live then c else Drop(c, k + 1);
    if !c[k + 1].live {
      StartsDrop(c, k + 1);
      MarksDrop(used[at := false], c, k + 1);
    }
    if k > 0 && !f[k - 1].live {
      StartsDrop(f, k);
      MarksDrop(used[at := false], f, k);
      if !c[k + 1].live { DroppedTwice(Starts(b), k); }
    }
  }

  /** What growing changes, part by part. */
  lemma {:induction false} GrowPlan(p: Pool, k: nat, need: nat, used: seq<bool>)
    requires Inv(p) && k + 1 < |p.blocks| - 1 && p.blocks[k].live && !p.blocks[k + 1].live
    requires Pay(p.blocks, k) < need <= Pay(p.blocks, k) + Pay(p.blocks, k + 1)
    requires Marks(used, p.blocks) && |used| == p.size / 4
    ensures var b, n, x, starts, after := p.blocks, Grow(p, k, need), p.blocks[k].at + H + need, Starts(p.blocks),
        p.blocks[k + 1].at;
      && |starts| == |b| && starts[k] == b[k].at && starts[k + 1] == after && after in p.free && NoDup(p.free)
      && k < |Dropped(starts, k + 1)| && Dropped(starts, k + 1)[k] == b[k].at
      && x < |used| && x !in Dropped(starts, k + 1) && x !in Without(p.free, after) && n.size == p.size
      && n.peak == Max(p.peak, p.size - n.available) && n.available == p.available - 4 * (need - Pay(b, k))
      && Starts(n.blocks) == InsertAt(Dropped(starts, k + 1), k + 1, x) && n.free == [x] + Without(p.free, after)
      && Marks(used[x := false], n.blocks)
  {
    hide Marks, Starts, Dropped, InsertAt, Without, Heap, Roomy, FreePay;
    GrowFresh(p, k, p.blocks[k].at + H + need);
    ShiftPlan(p.blocks, k + 1, p.blocks[k].at + H + need, used);
  }

  /** The grown block's new end starts no block, and the free block it came from is on the ring. */
  lemma {:induction false} GrowFresh(p: Pool, k: nat, x: nat)
    requires Inv(p) && k + 1 < |p.blocks| - 1 && !p.blocks[k + 1].live && p.blocks[k + 1].at < x < p.blocks[k + 2].at
    ensures var b, starts, after := p.blocks, Starts(p.blocks),
        p.blocks[k + 1].at;
      && |starts| == |b| && starts[k] == b[k].at && starts[k + 1] == after && after in p.free && NoDup(p.free)
      && k < |Dropped(starts, k + 1)| && Dropped(starts, k + 1)[k] == b[k].at
      && x < p.size / 4 && x !in starts && x !in Dropped(starts, k + 1) && x !in Without(p.free, after)
  {
    var b, end, starts := p.blocks, End(p), Starts(p.blocks);
    assert b[k + 1] == Item(b[k + 1].at, false);
    Inside(b, end, k + 1, x);
    StartsFresh(b, end, k + 1, x);
    assert Gap(b, k + 1);
    assert forall y :: y in Dropped(starts, k + 1) ==> y in starts;
  }

  lemma {:induction false} ShiftPlan(b: seq<Item>, k: nat, x: nat, used: seq<bool>)
    requires Marks(used, b) && k + 1 < |b| && x < b[k + 1].at && x !in Starts(b)
    ensures x < |used| && Marks(used[x := false], b[k := Item(x, false)])
    ensures Starts(b[k := Item(x, false)]) == InsertAt(Dropped(Starts(b), k), k, x)
  {
    var c := b[k := Item(x, false)];
    assert Marked(used, b, k + 1);
    var after := used[x := false];
    forall i | 0 <= i < |c| ensures Marked(after, c, i) {
      assert Marked(used, b, i) && Starts(b)[i] == b[i].at;
    }
  }

  /** The two rings after a block gives back its tail. */
  ghost function SplitStarts(starts: seq<nat>, k: nat, x: nat, right: bool): seq<nat>
    requires k + (if right then 1 else 0) < |starts|
  {
    var s := InsertAt(starts, k + 1, x);
    if right then Dropped(s, k + 2) else s
  }

  ghost function SplitFree(free: seq<nat>, x: nat, after: nat, right: bool): seq<nat> {
    [x] + (if right then Without(free, after) else free)
  }

  /** What shrinking changes, part by part. */
  lemma {:induction false} ShrinkPlan(p: Pool, k: nat, need: nat, used: seq<bool>)
    requires Inv(p) && k < |p.blocks| - 1 && p.blocks[k].live && need + H <= Pay(p.blocks, k)
    requires Marks(used, p.blocks) && |used| == p.size / 4
    ensures var b, n, x, starts, after := p.blocks, Shrink(p, k, need), p.blocks[k].at + H + need, Starts(p.blocks),
        p.blocks[k + 1].at;
      var right := !b[k + 1].live;
      && |starts| == |b| && starts[k] == b[k].at && NoDup(p.free) && (right ==> after in p.free && k + 1 < |b| - 1)
      && x < |used| && x !in starts
      && x !in (if right then Without(p.free, after) else p.free) && n.size == p.size && n.peak == p.peak
      && k + 1 < |starts| && starts[k + 1] == after
      && Starts(n.blocks) == SplitStarts(starts, k, x, right)
      && n.free == SplitFree(p.free, x, after, right)
      && n.available == p.available + 4 * (Pay(b, k) - need) - (if right then 0 else 4 * H)
      && Marks(used[x := false], n.blocks)
  {
    hide FreePay, Roomy, Stocked, NoFreePair;
    var b, end, x := p.blocks, End(p), p.blocks[k].at + H + need;
    var c := Cut(b, k, need + 3);
    StartsCut(b, k, need);
    MarksCut(used, b, end, k, need);
    Inside(b, end, k, x);
    StartsFresh(b, end, k, x);
    if !b[k + 1].live {
      assert b[k + 1] == Item(b[k + 1].at, false);
      StartsDrop(c, k + 2);
      MarksDrop(used[x := false], c, k + 2);
    }
  }

  lemma {:induction false} FreedBlock(p: Pool, x: nat) returns (k: nat)
    requires Inv(p) && Held(p.blocks, x)
    ensures Allowed(p, DoFree(x)) && k < |p.blocks| - 1 && p.blocks[k] == Item(x, true)
    ensures Apply(p, DoFree(x)) == Give(p, k)
  {
    LiveIndex(p, x);
    k := Index(p.blocks, Item(x, true));
  }

  lemma {:induction false} NeedAgain(p: Pool, size: Word)
    requires Inv(p)
    ensures MINI <= Need(size) && 4 * Need(size) < U32 && Need(4 * Need(size)) == Need(size)
    ensures MemHeap.Alloc(p, 4 * Need(size)) == MemHeap.Alloc(p, size)
  {
    NeedCovers(size);
    var n := Need(size);
    assert RtAlign(4 * n) == 4 * n by {
      RtAlignRoundsUp(4 * n);
    }
  }

  lemma {:induction false} InitMarks(used: seq<bool>, n: nat)
    requires |used| == n >= 2 * H && !used[0] && used[n - H]
    ensures Marks(used, [Item(0, false), Item(n - H, true)])
  {
    var b := [Item(0, false), Item(n - H, true)];
    assert Marked(used, b, 0) && Marked(used, b, 1);
  }

  lemma {:induction false} InitLinks(next: seq<int>, prev: seq<int>, nextFree: seq<int>, prevFree: seq<int>, n: nat)
    requires |next| == |prev| == n && |nextFree| == |prevFree| == n + 1 && n >= 2 * H
    requires next[0] == prev[0] == n - H && next[n - H] == prev[n - H] == 0
    requires nextFree[0] == prevFree[0] == n && nextFree[n] == prevFree[n] == 0
    ensures Ring(next, prev, Starts([Item(0, false), Item(n - H, true)])) && Ring(nextFree, prevFree, FreeNodes(n, [0]))
  {
    var r, f := Starts([Item(0, false), Item(n - H, true)]), FreeNodes(n, [0]);
    assert Differ(r, 0, 1) && Differ(f, 0, 1);
    assert Tied(next, prev, r, 0) && Tied(next, prev, r, 1);
    assert Tied(nextFree, prevFree, f, 0) && Tied(nextFree, prevFree, f, 1);
  }

  /** `r` and `n` are what `rt_memheap_realloc` promises for the block whose header is at `x`. */
  ghost predicate CarriedAt(p: Pool, x: nat, need: nat, was: seq<int>, now: seq<int>, q: nat) {
    && Item(x, true) in p.blocks && Index(p.blocks, Item(x, true)) < |p.blocks| - 1
    && Carried(p, Index(p.blocks, Item(x, true)), need, was, now, q)
  }

  ghost predicate Resized(p: Pool, x: nat, newsize: Word, r: Option<nat>, n: Pool) {
    && Inv(p) && Item(x, true) in p.blocks && Index(p.blocks, Item(x, true)) < |p.blocks| - 1
    && (r, n) == Realloc(p, Index(p.blocks, Item(x, true)), newsize)
  }

  /** The words of block `k` are found at `q` as far as both blocks reach, and no word of any other live block has
      changed. */
  ghost predicate Carried(p: Pool, k: nat, need: nat, was: seq<int>, now: seq<int>, q: nat)
    requires k + 1 < |p.blocks|
  {
    var a, n := p.blocks[k].at + H, Min(Pay(p.blocks, k), need);
    && |was| == |now| && 0 <= n && a + n <= |was| && q + n <= |now| && now[q..q + n] == was[a..a + n]
    && forall x: nat, m, j :: Live(p.blocks, x, m) && x != p.blocks[k].at && x + H <= j < x + H + m && j < |was| ==>
      now[j] == was[j]
  }

  /** A word outside the block at `q`. */
  ghost predicate Beside(q: nat, n: nat, j: int) {
    j < q || q + n <= j
  }

  /** The new block meets neither the old one nor any other live block. */
  lemma {:induction false} GrantBeside(p: Pool, k: nat, size: Word, x: nat, m: int)
    requires Inv(p) && k < |p.blocks| - 1 && p.blocks[k].live && Alloc(p, size).0.Some? && Live(p.blocks, x, m)
    ensures var q := Alloc(p, size).0.value;
      && q >= H && 0 <= m && x + H + m <= p.size / 4 && q + Need(size) <= p.size / 4
      && (x + H + m <= q - H || q + Need(size) <= x)
  {
    hide Inv, Live, Need, Alloc;
    AllocKeeps(p, size);
    AllocGives(p, size);
    AllocSize(p, size);
    var n, q := Alloc(p, size).1, Alloc(p, size).0.value - H;
    var l :| Need(size) <= l <= Need(size) + H + MINI - 1 && Live(n.blocks, q, l);
    assert Live(n.blocks, x, m);
    assert x != q;
    LiveInside(n, x, m);
    LiveInside(n, q, l);
    LiveWide(n, x, m);
    if x < q { LiveApart(n, x, m, q, l); } else { LiveApart(n, q, l, x, m); }
  }

  lemma {:induction false} LiveWide(p: Pool, x: nat, m: int)
    requires Inv(p) && Live(p.blocks, x, m)
    ensures 0 <= m
  {
    var k :| 0 <= k < |p.blocks| - 1 && p.blocks[k] == Item(x, true) && Pay(p.blocks, k) == m;
    assert Wide(p.blocks, k);
  }

  lemma {:induction false} AllocSize(p: Pool, size: Word)
    requires Inv(p)
    ensures Alloc(p, size).1.size == p.size
  {
  }

  /** Copying the old payload into the new block. */
  lemma {:induction false} CopyCarries(p: Pool, k: nat, size: Word, was: seq<int>, now: seq<int>, q: nat, n: nat)
    requires Inv(p) && k < |p.blocks| - 1 && p.blocks[k].live && Alloc(p, size).0 == Some(q)
    requires n == Pay(p.blocks, k) < Need(size) && |was| == |now| == p.size / 4
    requires q + n <= |now| && p.blocks[k].at + H + n <= |was|
    requires now[q..q + n] == was[p.blocks[k].at + H..p.blocks[k].at + H + n]
    requires forall j :: 0 <= j < |was| && Beside(q, n, j) ==> now[j] == was[j]
    ensures Carried(p, k, Need(size), was, now, q)
  {
    hide Inv, Live, Need, Alloc;
    forall x: nat, m, j | Live(p.blocks, x, m) && x != p.blocks[k].at && x + H <= j < x + H + m && j < |was|
      ensures now[j] == was[j]
    {
      GrantBeside(p, k, size, x, m);
      assert Beside(q, n, j);
    }
  }

  lemma {:induction false} StayCarries(p: Pool, k: nat, need: nat, was: seq<int>)
    requires Inv(p) && k < |p.blocks| - 1 && p.blocks[k].live && |was| == p.size / 4
    ensures Carried(p, k, need, was, was, p.blocks[k].at + H)
  {
    hide Inv, Live;
    LiveAt(p.blocks, k);
    LiveInside(p, p.blocks[k].at, Pay(p.blocks, k));
    LiveWide(p, p.blocks[k].at, Pay(p.blocks, k));
  }

  class Memheap {
    const words: nat
    /** The payload words; those under a header are never touched. */
    const data: array<int>
    const next: array<int>
    const prev: array<int>
    const used: array<bool>
    const nextFree: array<int>
    const prevFree: array<int>
    var available: int
    var maxUsed: int
    ghost var pool: Pool

    ghost predicate Shape()
      reads this
    {
      && next.Length == prev.Length == used.Length == words && nextFree.Length == prevFree.Length == words + 1
      && next != prev && nextFree != prevFree && next != nextFree
      && next != prevFree && prev != nextFree && prev != prevFree
    }

    /** The payload words are apart from the links. */
    ghost predicate Stored() {
      && data.Length == words
      && data != next && data != prev && data != nextFree && data != prevFree
    }

    ghost predicate Links()
      reads this, next, prev, nextFree, prevFree
    {
      && Shape() && pool.size == 4 * words
      && Ring(next[..], prev[..], Starts(pool.blocks))
      && Ring(nextFree[..], prevFree[..], FreeNodes(words, pool.free))
    }

    ghost predicate Valid()
      reads this, next, prev, used, nextFree, prevFree
    {
      && Inv(pool) && Links() && Marks(used[..], pool.blocks)
      && available == pool.available && maxUsed == pool.peak
    }

    /** Link the header `x` in behind `h` on the ring of all blocks. */
    method InsertBlock(x: nat, h: nat, ghost ring: seq<nat>, ghost i: nat)
      requires Shape() && Ring(next[..], prev[..], ring) && i < |ring| && ring[i] == h && x !in ring && x < words
      modifies next, prev
      ensures Ring(next[..], prev[..], InsertAt(ring, i + 1, x))
    {
      assert Tied(next[..], prev[..], ring, i) && Succ(ring, i) in ring;
      prev[x] := h;
      next[x] := next[h];
      prev[next[h]] := x;
      next[h] := x;
      RingInsert(old(next[..]), old(prev[..]), ring, i, x, next[..], prev[..]);
    }

    /** Link a header out of the ring of all blocks. */
    method RemoveBlock(x: nat, ghost ring: seq<nat>, ghost i: nat)
      requires Shape() && Ring(next[..], prev[..], ring) && 0 < i < |ring| && ring[i] == x
      modifies next, prev
      ensures Ring(next[..], prev[..], Dropped(ring, i))
    {
      assert Tied(next[..], prev[..], ring, i) && Tied(next[..], prev[..], ring, i - 1) && Differ(ring, i - 1, i);
      next[prev[x]] := next[x];
      prev[next[x]] := prev[x];
      RingRemove(old(next[..]), old(prev[..]), ring, i, next[..], prev[..]);
    }

    /** Put a header at the front of the free ring. */
    method InsertFree(x: nat, ghost free: seq<nat>)
      requires Shape() && Ring(nextFree[..], prevFree[..], FreeNodes(words, free)) && x !in free && x < words
      modifies nextFree, prevFree
      ensures Ring(nextFree[..], prevFree[..], FreeNodes(words, [x] + free))
    {
      ghost var ring := FreeNodes(words, free);
      assert Tied(nextFree[..], prevFree[..], ring, 0) && Succ(ring, 0) in ring;
      nextFree[x] := nextFree[words];
      prevFree[x] := words;
      prevFree[nextFree[words]] := x;
      nextFree[words] := x;
      RingInsert(old(nextFree[..]), old(prevFree[..]), ring, 0, x, nextFree[..], prevFree[..]);
      assert InsertAt(ring, 1, x) == FreeNodes(words, [x] + free);
    }

    /** Take a header out of the free ring. */
    method RemoveFree(x: nat, ghost free: seq<nat>)
      requires Shape() && Ring(nextFree[..], prevFree[..], FreeNodes(words, free)) && x in free && NoDup(free)
      modifies nextFree, prevFree
      ensures Ring(nextFree[..], prevFree[..], FreeNodes(words, Without(free, x)))
    {
      ghost var ring := FreeNodes(words, free);
      ghost var j: nat :| j < |free| && free[j] == x;
      assert ring[j + 1] == x;
      assert Tied(nextFree[..], prevFree[..], ring, j + 1) && Tied(nextFree[..], prevFree[..], ring, j);
      assert Differ(ring, j, j + 1);
      prevFree[nextFree[x]] := prevFree[x];
      nextFree[prevFree[x]] := nextFree[x];
      RingRemove(old(nextFree[..]), old(prevFree[..]), ring, j + 1, nextFree[..], prevFree[..]);
      FreeNodesWithout(words, free, x, j);
    }

    /** What the links of a block say. */
    lemma {:induction false} BlockLinks(k: nat)
      requires Inv(pool) && Links() && k < |pool.blocks|
      ensures pool.blocks[k].at < words
      ensures k < |pool.blocks| - 1 ==>
        next[pool.blocks[k].at] == pool.blocks[k + 1].at && pool.blocks[k + 1].at < words
      ensures prev[pool.blocks[k].at] == (if k > 0 then pool.blocks[k - 1].at else pool.blocks[|pool.blocks| - 1].at)
      ensures k > 0 ==> 0 <= prev[pool.blocks[k].at] < words
    {
      var ring := Starts(pool.blocks);
      assert Tied(next[..], prev[..], ring, k);
      if k > 0 {
        assert Tied(next[..], prev[..], ring, k - 1);
      } else {
        assert Tied(next[..], prev[..], ring, |ring| - 1);
      }
    }

    /** What the links of the free ring say: element `j`, counting from the list header as the element before 0. */
    lemma {:induction false} FreeLink(j: nat)
      requires Links() && j <= |pool.free|
      ensures var ring := FreeNodes(words, pool.free);
        ring[j] <= words && nextFree[ring[j]] == (if j < |pool.free| then pool.free[j] else words)
      ensures j < |pool.free| ==> pool.free[j] < words
    {
      var ring := FreeNodes(words, pool.free);
      assert Tied(nextFree[..], prevFree[..], ring, j);
      if j < |pool.free| {
        assert ring[j + 1] == pool.free[j] && Tied(nextFree[..], prevFree[..], ring, j + 1) && Differ(ring, 0, j + 1);
      }
    }

    /** The search of the free ring for `need` words. */
    method FindFree(need: nat) returns (header: int, freeSize: int, ghost j: nat)
      requires Valid() && need > 0
      ensures j == FindFit(pool, need, 0) && header == (if j < |pool.free| then pool.free[j] else words)
      ensures freeSize >= need <==> j < |pool.free|
      ensures j < |pool.free| ==> freeSize == Pay(pool.blocks, BlockOf(pool, j))
    {
      hide Ring, FreeRing, Heap, Roomy, FreePay, Marks;
      FreeLink(0);
      freeSize, header, j := 0, nextFree[words], 0;
      while header != words && freeSize < need
        invariant j <= |pool.free| && header == (if j < |pool.free| then pool.free[j] else words)
        invariant FindFit(pool, need, 0) == FindFit(pool, need, j)
        invariant freeSize >= need ==> j < |pool.free| && freeSize == Pay(pool.blocks, BlockOf(pool, j))
        invariant j < |pool.free| ==> pool.free[j] < words
        decreases |pool.free| - j, need - freeSize
      {
        BlockLinks(BlockOf(pool, j));
        freeSize := next[header] - header - H;
        if freeSize < need {
          FreeLink(j + 1);
          assert FreeNodes(words, pool.free)[j + 1] == header;
          header := nextFree[header];
          j := j + 1;
        }
      }
    }

    method Peak()
      modifies this`maxUsed
      ensures maxUsed == Max(old(maxUsed), 4 * words - available)
    {
      if 4 * words - available > maxUsed { maxUsed := 4 * words - available; }
    }

    /** Handing out the free block at `header`. */
    method TakeBlock(header: nat, freeSize: nat, need: nat, ghost k: nat)
      requires Valid() && k < |pool.blocks| - 1 && pool.blocks[k] == Item(header, false)
      requires freeSize == Pay(pool.blocks, k) && need <= freeSize && MINI <= need
      modifies this`available, this`maxUsed, this`pool, next, prev, used, nextFree, prevFree
      ensures Valid() && pool == Take(old(pool), k, need)
    {
      hide Inv, Take, Starts, FreeNodes, Ring, Marks, Pay, Without, InsertAt;
      ghost var p, u := pool, used[..];
      TakeKeeps(p, k, need);
      TakePlan(p, k, need, u);
      BlockLinks(k);
      if freeSize >= need + H + MINI {
        var x := header + H + need;
        used[x] := false;
        InsertBlock(x, header, Starts(p.blocks), k);
        RemoveFree(header, p.free);
        InsertFree(x, Without(p.free, header));
        available := available - 4 * need - 4 * H;
      } else {
        available := available - 4 * freeSize;
        RemoveFree(header, p.free);
      }
      Peak();
      used[header] := true;
      pool := Take(p, k, need);
    }

    /** `rt_memheap_alloc`. */
    method AllocMem(size: Word) returns (a: Option<nat>)
      requires Valid()
      modifies this`available, this`maxUsed, this`pool, next, prev, used, nextFree, prevFree
      ensures Valid() && (a, pool) == MemHeap.Alloc(old(pool), size)
    {
      hide Inv, Take, Need, Marks, Links, Pay;
      var need := Need(size);
      NeedCovers(size);
      if 4 * need < available {
        var header, freeSize;
        ghost var j;
        header, freeSize, j := FindFree(need);
        if freeSize >= need {
          TakeBlock(header, freeSize, need, BlockOf(pool, j));
          return Some(header + H);
        }
      }
      return None;
    }

    /** The neighbours of a block as its links and their used bits show them. */
    lemma {:induction false} Neighbours(k: nat)
      requires Valid() && k < |pool.blocks| - 1
      ensures pool.blocks[k].at < words && 0 <= prev[pool.blocks[k].at] < words && 0 <= next[pool.blocks[k].at] < words
      ensures used[prev[pool.blocks[k].at]] <==> !(k > 0 && !pool.blocks[k - 1].live)
      ensures used[next[pool.blocks[k].at]] <==> pool.blocks[k + 1].live
      ensures k > 0 ==> prev[pool.blocks[k].at] == pool.blocks[k - 1].at
      ensures next[pool.blocks[k].at] == pool.blocks[k + 1].at
    {
      BlockLinks(k);
      BlockLinks(|pool.blocks| - 1);
      assert Marked(used[..], pool.blocks, k + 1) && Marked(used[..], pool.blocks, |pool.blocks| - 1);
      if k > 0 { assert Marked(used[..], pool.blocks, k - 1); }
    }

    /** The relinking of `rt_memheap_free`: a free left neighbour takes the header out of the ring of blocks, a free
        right neighbour leaves both rings, and without a left neighbour the header joins the free ring. */
    method Relink(header: nat, after: nat, left: bool, right: bool, ghost starts: seq<nat>, ghost free: seq<nat>,
        ghost k: nat)
      requires Shape() && Ring(next[..], prev[..], starts) && Ring(nextFree[..], prevFree[..], FreeNodes(words, free))
      requires k + 1 < |starts| && starts[k] == header && starts[k + 1] == after && header < words && NoDup(free)
      requires (left ==> k > 0) && (right ==> after in free)
      requires header !in (if right then Without(free, after) else free)
      modifies next, prev, nextFree, prevFree
      ensures Ring(next[..], prev[..], RelinkedStarts(starts, k, left, right))
      ensures Ring(nextFree[..], prevFree[..], FreeNodes(words, RelinkedFree(free, header, after, left, right)))
    {
      if left { RemoveBlock(header, starts, k); }
      if right {
        if left { RemoveBlock(after, Dropped(starts, k), k); } else { RemoveBlock(after, starts, k + 1); }
        RemoveFree(after, free);
      }
      if !left { InsertFree(header, if right then Without(free, after) else free); }
    }

    lemma {:induction false} GiveReads(header: nat, k: nat)
      requires Valid() && k < |pool.blocks| - 1 && pool.blocks[k] == Item(header, true)
      ensures var starts := Starts(pool.blocks);
        |starts| == |pool.blocks| && starts[k] == header && starts[k + 1] == pool.blocks[k + 1].at
      ensures Pay(pool.blocks, k) == pool.blocks[k + 1].at - header - H
    {
    }

    /** The body of `rt_memheap_free` for the block `k` whose header is `header`. */
    method GiveBlock(header: nat, ghost k: nat)
      requires Valid() && k < |pool.blocks| - 1 && pool.blocks[k] == Item(header, true)
      modifies this`available, this`pool, next, prev, used, nextFree, prevFree
      ensures Valid() && pool == Give(old(pool), k)
    {
      hide Inv, Give, Starts, FreeNodes, Ring, Marks, Pay, RelinkedStarts, RelinkedFree, Without;
      ghost var p, u, starts := pool, used[..], Starts(pool.blocks);
      GiveKeeps(p, k);
      GivePlan(p, k, u);
      Neighbours(k);
      GiveReads(header, k);
      var left, right, after := !used[prev[header]], !used[next[header]], next[header];
      available := available + 4 * (after - header - H);
      if left { available := available + 4 * H; }
      if right { available := available + 4 * H; }
      used[header] := false;
      Relink(header, after, left, right, starts, p.free, k);
      pool := Give(p, k);
    }

    /** `rt_memheap_free` of a block. */
    method FreeLive(a: nat)
      requires Valid() && a >= H && Held(pool.blocks, a - H)
      modifies this`available, this`pool, next, prev, used, nextFree, prevFree
      ensures Valid() && pool == Apply(old(pool), DoFree(a - H))
    {
      hide Inv, Give, Links, Marks, Apply, Live;
      ghost var k := FreedBlock(pool, a - H);
      GiveBlock(a - H, k);
    }

    /** `rt_memheap_free`: a null pointer is ignored. */
    method FreeMem(ptr: Option<nat>)
      requires Valid()
      requires ptr.Some? ==> ptr.value >= H && Held(pool.blocks, ptr.value - H)
      modifies this`available, this`pool, next, prev, used, nextFree, prevFree
      ensures Valid() && pool == if ptr.Some? then Apply(old(pool), DoFree(ptr.value - H)) else old(pool)
    {
      if ptr.Some? { FreeLive(ptr.value); }
    }

    /** Growing the block at `header` into the free block behind it. */
    method GrowBlock(header: nat, need: nat, ghost k: nat)
      requires Valid() && k + 1 < |pool.blocks| - 1 && pool.blocks[k] == Item(header, true) && !pool.blocks[k + 1].live
      requires Pay(pool.blocks, k) < need <= Pay(pool.blocks, k) + Pay(pool.blocks, k + 1)
      modifies this`available, this`maxUsed, this`pool, next, prev, used, nextFree, prevFree
      ensures Valid() && pool == Grow(old(pool), k, need)
    {
      hide Inv, Grow, Starts, FreeNodes, Ring, Marks, Without, InsertAt, Dropped;
      ghost var p, u, starts := pool, used[..], Starts(pool.blocks);
      GrowKeeps(p, k, need);
      GrowPlan(p, k, need, u);
      Neighbours(k);
      available := available - 4 * (need - (next[header] - header - H));
      Peak();
      var after := next[header];
      RemoveFree(after, p.free);
      RemoveBlock(after, starts, k + 1);
      var x := header + H + need;
      used[x] := false;
      InsertBlock(x, header, Dropped(starts, k + 1), k);
      InsertFree(x, Without(p.free, after));
      pool := Grow(p, k, need);
    }

    /** The relinking of a shrinking block: the new header enters both rings, a free block behind it leaves both. */
    method SplitTail(x: nat, header: nat, after: nat, right: bool, ghost starts: seq<nat>, ghost free: seq<nat>,
        ghost k: nat)
      requires Shape() && Ring(next[..], prev[..], starts) && Ring(nextFree[..], prevFree[..], FreeNodes(words, free))
      requires k < |starts| && starts[k] == header && x < words && x !in starts && NoDup(free)
      requires right ==> after in free && k + 1 < |starts| && starts[k + 1] == after
      requires x !in (if right then Without(free, after) else free)
      modifies next, prev, nextFree, prevFree
      ensures Ring(next[..], prev[..], SplitStarts(starts, k, x, right))
      ensures Ring(nextFree[..], prevFree[..], FreeNodes(words, SplitFree(free, x, after, right)))
    {
      InsertBlock(x, header, starts, k);
      if right {
        RemoveBlock(after, InsertAt(starts, k + 1, x), k + 2);
        RemoveFree(after, free);
      }
      InsertFree(x, if right then Without(free, after) else free);
    }

    /** Giving back the tail of the block at `header`, joined with a free block behind it. */
    method ShrinkBlock(header: nat, need: nat, ghost k: nat)
      requires Valid() && k < |pool.blocks| - 1 && pool.blocks[k] == Item(header, true) && MINI <= need
      requires need + H <= Pay(pool.blocks, k)
      modifies this`available, this`pool, next, prev, used, nextFree, prevFree
      ensures Valid() && pool == Shrink(old(pool), k, need)
    {
      hide Inv, Shrink, Starts, FreeNodes, Ring, Marks, SplitStarts, SplitFree, Pay, Without;
      ghost var p, u, starts, n := pool, used[..], Starts(pool.blocks), Shrink(pool, k, need);
      ShrinkKeeps(p, k, need);
      ShrinkReads(header, need, k);
      ShrinkPlan(p, k, need, u);
      var x, after := header + H + need, next[header];
      var right := !used[after];
      var end := if right then next[after] else after;
      used[x] := false;
      SplitTail(x, header, after, right, starts, p.free, k);
      if right { available := available - 4 * (end - after - H); }
      available := available + 4 * (end - x - H);
      pool := n;
    }

    /** What the method reads from the links, and the new count in those terms. */
    lemma {:induction false} ShrinkReads(header: nat, need: nat, k: nat)
      requires Valid() && k < |pool.blocks| - 1 && pool.blocks[k] == Item(header, true)
      requires need + H <= Pay(pool.blocks, k)
      ensures header < words && 0 <= next[header] < words && next[header] == pool.blocks[k + 1].at
      ensures used[next[header]] == pool.blocks[k + 1].live
      ensures var after := next[header];
        var right := !used[after];
        var end := if right then next[after] else after;
        Shrink(pool, k, need).available
          == pool.available - (if right then 4 * (end - after - H) else 0) + 4 * (end - (header + H + need) - H)
    {
      Neighbours(k);
      if !pool.blocks[k + 1].live { BlockLinks(k + 1); }
    }

    /** The headers `rt_memheap_init` writes. */
    method WriteFirst()
      requires Shape() && words >= 2 * H
      modifies next, prev, used, nextFree, prevFree
      ensures next[0] == prev[0] == words - H && next[words - H] == prev[words - H] == 0
      ensures !used[0] && used[words - H]
      ensures nextFree[0] == prevFree[0] == words && nextFree[words] == prevFree[words] == 0
    {
      var tail := words - H;
      next[0], prev[0], used[0] := tail, tail, false;
      nextFree[0], prevFree[0] := words, words;
      nextFree[words], prevFree[words] := 0, 0;
      next[tail], prev[tail], used[tail] := 0, 0, true;
    }

    /** `rt_memheap_init`: one free block and the tail. */
    constructor (size: Word)
      requires size / 4 >= 2 * H
      ensures Valid() && Stored() && pool == Init(size) && fresh(data)
      ensures fresh(next) && fresh(prev) && fresh(used) && fresh(nextFree) && fresh(prevFree)
    {
      hide Ring, Inv, Marks, Starts, FreeNodes, Heap, Chain, FreeRing, Roomy, NoDup;
      var n := size / 4;
      words, next, prev, used := n, new int[n], new int[n], new bool[n];
      nextFree, prevFree, data := new int[n + 1], new int[n + 1], new int[n];
      available := 4 * n - 8 * H;
      maxUsed := 4 * n - (4 * n - 8 * H);
      pool := Init(size);
      new;
      WriteFirst();
      InitInv(size);
      InitLinks(next[..], prev[..], nextFree[..], prevFree[..], n);
      InitMarks(used[..], n);
    }

    /** `rt_memheap_realloc`: whether to free, allocate, grow in place, shrink or move. */
    method ReallocMem(ptr: Option<nat>, newsize: Word) returns (r: Option<nat>)
      requires Valid() && Stored()
      requires ptr.Some? ==>
        ptr.value >= H && Held(pool.blocks, ptr.value - H) && !OverrunsAt(pool, ptr.value - H, newsize)
      modifies this`available, this`maxUsed, this`pool, next, prev, used, nextFree, prevFree, data
      ensures Valid()
      ensures newsize == 0 || ptr.None? || r.None? ==> data[..] == old(data[..])
      ensures newsize != 0 && ptr.Some? && r.Some? ==>
        CarriedAt(old(pool), ptr.value - H, Need(newsize), old(data[..]), data[..], r.value)
      ensures newsize == 0 && ptr.None? ==> r == None && pool == old(pool)
      ensures newsize == 0 && ptr.Some? ==> r == None && pool == Apply(old(pool), DoFree(ptr.value - H))
      ensures newsize != 0 && ptr.None? ==> (r, pool) == MemHeap.Alloc(old(pool), newsize)
      ensures newsize != 0 && ptr.Some? ==> Resized(old(pool), ptr.value - H, newsize, r, pool)
    {
      hide Inv, Links, Marks, Apply, MemHeap.Alloc, Need, Realloc, Moved, Overruns;
      if newsize == 0 {
        FreeMem(ptr);
        return None;
      }
      var need := Need(newsize);
      NeedAgain(pool, newsize);
      if ptr.None? {
        r := AllocMem(4 * need);
        return;
      }
      ghost var x := ptr.value - H;
      LiveIndex(pool, x);
      r := Resize(ptr.value - H, newsize, Index(pool.blocks, Item(x, true)));
    }

    /** The part of `rt_memheap_realloc` after the block's header has been found. */
    method Resize(header: nat, newsize: Word, ghost k: nat) returns (r: Option<nat>)
      requires Valid() && k < |pool.blocks| - 1 && pool.blocks[k] == Item(header, true) && !Overruns(pool, k, newsize)
      requires Stored()
      modifies this`available, this`maxUsed, this`pool, next, prev, used, nextFree, prevFree, data
      ensures Valid() && (r, pool) == Realloc(old(pool), k, newsize)
      ensures r.None? ==> data[..] == old(data[..])
      ensures r.Some? ==> Carried(old(pool), k, Need(newsize), old(data[..]), data[..], r.value)
    {
      hide Carried, Inv, Marks, Ring, Starts, FreeNodes, MemHeap.Alloc, Need, Moved,
        Overruns, GrowTest, Grow, Shrink, Take, Give, MemHeap.Realloc;
      var need := Need(newsize);
      ghost var p := pool;
      ResizeReads(header, newsize, k);
      StayCarries(p, k, Need(newsize), data[..]);
      var after := next[header];
      var had := after - header - H;
      if need > had {
        if !used[after] {
          if GrowTest(need, had, next[after] - after - H) {
            GrowBlock(header, need, k);
            return Some(header + H);
          }
        }
        r := AllocMem(4 * need);
        if r.Some? {
          MovedStill(p, k, newsize);
          CopyPayload(r.value, header + H, had, p, k, newsize);
          GiveBlock(header, Index(pool.blocks, p.blocks[k]));
        }
        return;
      }
      if need + H + MINI >= had { return Some(header + H); }
      ShrinkBlock(header, need, k);
      return Some(header + H);
    }

    /** `rt_memcpy` of the old payload into the new block. */
    method CopyPayload(dst: nat, src: nat, n: int, ghost p: Pool, ghost k: nat, ghost size: Word)
      requires Stored() && Inv(p) && p.size == 4 * words && k < |p.blocks| - 1 && p.blocks[k].live
      requires MemHeap.Alloc(p, size).0 == Some(dst) && src == p.blocks[k].at + H && n == Pay(p.blocks, k) < Need(size)
      modifies data
      ensures Carried(p, k, Need(size), old(data[..]), data[..], dst)
    {
      hide Inv, Live, Need, MemHeap.Alloc, Carried;
      LiveAt(p.blocks, k);
      GrantBeside(p, k, size, p.blocks[k].at, n);
      CopyWords(dst, src, n);
      CopyCarries(p, k, size, old(data[..]), data[..], dst, n);
    }

    method CopyWords(dst: nat, src: nat, n: nat)
      requires dst + n <= data.Length && src + n <= data.Length && (dst + n <= src || src + n <= dst)
      modifies data
      ensures data[dst..dst + n] == old(data[src..src + n])
      ensures forall j :: 0 <= j < data.Length && Beside(dst, n, j) ==> data[j] == old(data[j])
    {
      for i := 0 to n
        invariant forall j :: 0 <= j < data.Length && Beside(dst, i, j) ==> data[j] == old(data[j])
        invariant forall j :: dst <= j < dst + i ==> data[j] == old(data[j - dst + src])
      {
        data[dst + i] := data[src + i];
      }
    }

    /** What the method reads from the links, and the cases of the specification in those terms. */
    lemma {:induction false} ResizeReads(header: nat, newsize: Word, k: nat)
      requires Valid() && k < |pool.blocks| - 1 && pool.blocks[k] == Item(header, true) && !Overruns(pool, k, newsize)
      ensures header < words && 0 <= next[header] < words && next[header] - header - H == Pay(pool.blocks, k)
      ensures used[next[header]] == pool.blocks[k + 1].live
      ensures !pool.blocks[k + 1].live ==>
        k + 1 < |pool.blocks| - 1 && next[next[header]] - next[header] - H == Pay(pool.blocks, k + 1)
      ensures MINI <= Need(newsize) && 4 * Need(newsize) < U32
      ensures MemHeap.Alloc(pool, 4 * Need(newsize)) == MemHeap.Alloc(pool, newsize)
      ensures Inv(MemHeap.Alloc(pool, newsize).1)
      ensures var need, had := Need(newsize), Pay(pool.blocks, k);
        Realloc(pool, k, newsize) ==
          (if need > had then
             if !pool.blocks[k + 1].live && GrowTest(need, had, Pay(pool.blocks, k + 1)) then
               (Some(header + H), Grow(pool, k, need))
             else if MemHeap.Alloc(pool, newsize).0.None? then (None, pool)
             else (MemHeap.Alloc(pool, newsize).0, (MovedStill(pool, k, newsize);
               Give(MemHeap.Alloc(pool, newsize).1, Index(MemHeap.Alloc(pool, newsize).1.blocks, pool.blocks[k]))))
           else if need + H + MINI >= had then (Some(header + H), pool)
           else (Some(header + H), Shrink(pool, k, need)))
      ensures (!pool.blocks[k + 1].live && Need(newsize) > Pay(pool.blocks, k)
               && GrowTest(Need(newsize), Pay(pool.blocks, k), Pay(pool.blocks, k + 1))) ==>
        Need(newsize) <= Pay(pool.blocks, k) + Pay(pool.blocks, k + 1)
      ensures MemHeap.Alloc(pool, newsize).0.None? ==> MemHeap.Alloc(pool, newsize).1 == pool
    {
      hide Inv, Ring, Starts, FreeNodes, Marks, MemHeap.Alloc, Need, Give, Grow, Shrink, Index;
      Neighbours(k);
      NeedAgain(pool, newsize);
      AllocKeeps(pool, newsize);
      AllocGives(pool, newsize);
      if !pool.blocks[k + 1].live {
        LastLive(pool, k);
        BlockLinks(k + 1);
        var need, had := Need(newsize), Pay(pool.blocks, k);
        if need > had && GrowTest(need, had, Pay(pool.blocks, k + 1)) {
          GrowInside(pool, k, newsize);
        }
      }
    }
  }
}
