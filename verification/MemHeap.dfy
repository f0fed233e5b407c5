/** The memheap (`rt-thread/src/memheap.c`) as a value: its blocks in address order, its free ring in ring order,
    and its counters. Blocks are those of `BlockChain`; here a header takes six words. */
module MemHeap {
  import opened KernelTypes
  import opened Lists
  import opened BlockChain

  /** `RT_MEMHEAP_SIZE` and `RT_MEMHEAP_MINIALLOC` in words. */
  const H: nat := 6
  const MINI: nat := 3

  /** `free` is the ring from `free_list->next_free` on, without the list's own header; `available`, `peak` and
      `size` are `available_size`, `max_used_size` and `pool_size`, in bytes. */
  datatype Pool = Pool(blocks: seq<Item>, free: seq<nat>, available: int, peak: int, size: nat)

  /** The word at which the tail block begins. */
  function End(p: Pool): int {
    p.size / 4 - H
  }

  ghost predicate Wide(b: seq<Item>, i: nat)
    requires i + 1 < |b|
  {
    b[i].at + H <= b[i + 1].at
  }

  ghost predicate Roomy(b: seq<Item>) {
    forall i :: 0 <= i < |b| - 1 ==> Wide(b, i)
  }

  /** `MEMITEM_SIZE`, in words. */
  function Pay(b: seq<Item>, k: nat): int
    requires k + 1 < |b|
  {
    b[k + 1].at - b[k].at - H
  }

  /** The sum of the free payloads. */
  ghost function FreePay(b: seq<Item>): int {
    if |b| < 2 then 0 else (if b[0].live then 0 else Pay(b, 0)) + FreePay(b[1..])
  }

  /** A block in use holds at least the smallest payload. */
  ghost predicate StockedAt(b: seq<Item>, i: nat)
    requires i + 1 < |b|
  {
    b[i].live ==> Pay(b, i) >= MINI
  }

  ghost predicate Stocked(b: seq<Item>) {
    forall i :: 0 <= i < |b| - 1 ==> StockedAt(b, i)
  }

  /** The free ring holds each unused block exactly once. */
  ghost predicate FreeRing(b: seq<Item>, free: seq<nat>) {
    NoDup(free) && forall x :: x in free <==> Item(x, false) in b
  }

  ghost predicate Inv(p: Pool) {
    && p.size % 4 == 0 && 8 * H <= p.size < U32
    && Heap(p.blocks, End(p)) && Roomy(p.blocks) && Stocked(p.blocks)
    && FreeRing(p.blocks, p.free)
    && p.available == 4 * FreePay(p.blocks) && p.size - p.available <= p.peak
  }

  lemma {:induction false} PaySplit(b: seq<Item>, k: nat)
    requires k < |b|
    ensures FreePay(b) == FreePay(b[..k + 1]) + FreePay(b[k..])
    decreases k
  {
    if k == 0 {
      assert b[0..] == b;
    } else {
      PaySplit(b[1..], k - 1);
      assert b[1..][..k] == b[..k + 1][1..];
      assert b[1..][k - 1..] == b[k..];
    }
  }

  lemma {:induction false} PayAround(b: seq<Item>, k: nat)
    requires k + 1 < |b|
    ensures FreePay(b) == FreePay(b[..k + 1]) + (if b[k].live then 0 else Pay(b, k)) + FreePay(b[k + 1..])
  {
    PaySplit(b, k);
    assert b[k..][1..] == b[k + 1..];
  }

  /** The flag of the last item does not matter, only its position. */
  lemma {:induction false} PayLast(a: seq<Item>, b: seq<Item>)
    requires |a| == |b| >= 1 && a[..|a| - 1] == b[..|b| - 1] && a[|a| - 1].at == b[|b| - 1].at
    ensures FreePay(a) == FreePay(b)
    decreases |a|
  {
    if |a| >= 2 {
      assert a[0] == a[..|a| - 1][0] == b[..|b| - 1][0] == b[0];
      assert a[1..][..|a| - 2] == a[..|a| - 1][1..] == b[..|b| - 1][1..] == b[1..][..|b| - 2];
      if |a| > 2 { assert a[1] == a[..|a| - 1][1] == b[..|b| - 1][1] == b[1]; }
      PayLast(a[1..], b[1..]);
    }
  }

  lemma {:induction false} PayFlag(b: seq<Item>, k: nat, live: bool)
    requires k + 1 < |b|
    ensures FreePay(SetFlag(b, k, live)) == FreePay(b) -
      (if b[k].live then 0 else Pay(b, k)) + (if live then 0 else Pay(b, k))
  {
    var c := SetFlag(b, k, live);
    PayAround(b, k);
    PayAround(c, k);
    assert c[k + 1..] == b[k + 1..] && c[..k + 1][..k] == b[..k + 1][..k];
    PayLast(c[..k + 1], b[..k + 1]);
  }

  /** A live block gives up its tail beyond `keep` payload words. */
  lemma {:induction false} PayCut(b: seq<Item>, k: nat, keep: nat)
    requires k + 1 < |b| && b[k].live
    ensures FreePay(Cut(b, k, keep + 3)) == FreePay(b) + Pay(b, k) - keep - H
  {
    var c := Cut(b, k, keep + 3);
    PayAround(b, k);
    PayAround(c, k);
    assert c[..k + 1] == b[..k + 1];
    var t := c[k + 1..];
    assert t[1..] == b[k + 1..] && t[0] == Item(b[k].at + H + keep, false);
    assert t[1] == b[k + 1];
    assert FreePay(t) == Pay(t, 0) + FreePay(t[1..]);
  }

  /** Two free neighbours become one: its header joins the payload. */
  lemma {:induction false} PayDrop(b: seq<Item>, k: nat)
    requires 0 < k && k + 1 < |b| && !b[k].live && !b[k - 1].live
    ensures FreePay(Drop(b, k)) == FreePay(b) + H
  {
    var d := Drop(b, k);
    PayAround(b, k - 1);
    assert b[k..][1..] == b[k + 1..] && b[k..][0] == b[k] && b[k..][1] == b[k + 1];
    assert FreePay(b[k..]) == Pay(b[k..], 0) + FreePay(b[k + 1..]);
    PayAround(d, k - 1);
    assert d[..k] == b[..k] && d[k..] == b[k + 1..];
  }

  /** Moving the header of a free block behind a live one. */
  lemma {:induction false} PayShift(b: seq<Item>, k: nat, at: nat)
    requires 0 < k && k + 1 < |b| && !b[k].live && b[k - 1].live
    ensures FreePay(b[k := Item(at, false)]) == FreePay(b) + b[k].at - at
  {
    var c := b[k := Item(at, false)];
    PayAround(b, k - 1);
    PayAround(c, k - 1);
    assert c[..k] == b[..k];
    assert b[k..][1..] == b[k + 1..] && c[k..][1..] == b[k + 1..];
    assert b[k..][0] == b[k] && b[k..][1] == b[k + 1] && c[k..][0] == c[k] && c[k..][1] == b[k + 1];
    assert FreePay(b[k..]) == Pay(b[k..], 0) + FreePay(b[k + 1..]);
    assert FreePay(c[k..]) == Pay(c[k..], 0) + FreePay(b[k + 1..]);
  }

  /** Block starts are distinct. */
  lemma {:induction false} OneStart(b: seq<Item>, end: nat, i: nat, j: nat)
    requires Chain(b, end) && i < |b| && j < |b| && b[i].at == b[j].at
    ensures i == j
  {
    if i < j { Ascending(b, end, i, j); } else if j < i { Ascending(b, end, j, i); }
  }

  lemma {:induction false} FlagItems(b: seq<Item>, end: nat, k: nat, live: bool, x: nat)
    requires Chain(b, end) && k < |b| - 1
    ensures Item(x, false) in SetFlag(b, k, live) <==> (if x == b[k].at then !live else Item(x, false) in b)
  {
    var c := SetFlag(b, k, live);
    if Item(x, false) in c {
      var i :| 0 <= i < |c| && c[i] == Item(x, false);
      if i != k { assert b[i] == c[i]; if x == b[k].at { OneStart(b, end, i, k); } }
    }
    if x == b[k].at && !live { assert c[k] == Item(x, false); }
    if x != b[k].at && Item(x, false) in b {
      var i :| 0 <= i < |b| && b[i] == Item(x, false);
      assert c[i] == b[i];
    }
  }

  lemma {:induction false} CutItems(b: seq<Item>, k: nat, keep: nat, x: nat)
    requires k < |b|
    ensures Item(x, false) in Cut(b, k, keep + 3) <==> Item(x, false) in b || x == b[k].at + H + keep
  {
    var c := Cut(b, k, keep + 3);
    assert c[k + 1] == Item(b[k].at + H + keep, false);
    if Item(x, false) in b {
      var i :| 0 <= i < |b| && b[i] == Item(x, false);
      assert c[if i <= k then i else i + 1] == b[i];
    }
    if Item(x, false) in c {
      var i :| 0 <= i < |c| && c[i] == Item(x, false);
      if i <= k { assert b[i] == c[i]; } else if i > k + 1 { assert b[i - 1] == c[i]; }
    }
  }

  lemma {:induction false} DropItems(b: seq<Item>, end: nat, k: nat, x: nat)
    requires Chain(b, end) && k < |b| - 1
    ensures Item(x, false) in Drop(b, k) <==> Item(x, false) in b && x != b[k].at
  {
    var d := Drop(b, k);
    if Item(x, false) in d {
      var i :| 0 <= i < |d| && d[i] == Item(x, false);
      var j := if i < k then i else i + 1;
      assert b[j] == d[i];
      if x == b[k].at { OneStart(b, end, j, k); }
    }
    if Item(x, false) in b && x != b[k].at {
      var i :| 0 <= i < |b| && b[i] == Item(x, false);
      assert d[if i < k then i else i - 1] == b[i];
    }
  }

  lemma {:induction false} CutRoomy(b: seq<Item>, k: nat, keep: nat)
    requires Roomy(b) && k + 1 < |b| && keep + H <= Pay(b, k)
    ensures Roomy(Cut(b, k, keep + 3))
  {
    var c := Cut(b, k, keep + 3);
    forall i | 0 <= i < |c| - 1 ensures Wide(c, i) {
      if i < k { assert Wide(b, i); }
      if i > k + 1 { assert Wide(b, i - 1); }
    }
  }

  lemma {:induction false} FlagRoomy(b: seq<Item>, k: nat, live: bool)
    requires Roomy(b) && k + 1 < |b|
    ensures Roomy(SetFlag(b, k, live))
  {
    var c := SetFlag(b, k, live);
    forall i | 0 <= i < |c| - 1 ensures Wide(c, i) { assert Wide(b, i); }
  }

  lemma {:induction false} DropRoomy(b: seq<Item>, k: nat)
    requires Roomy(b) && 0 < k && k + 1 < |b|
    ensures Roomy(Drop(b, k))
  {
    var d := Drop(b, k);
    assert Wide(b, k - 1) && Wide(b, k);
    forall i | 0 <= i < |d| - 1 ensures Wide(d, i) {
      if i < k - 1 { assert Wide(b, i); }
      if i >= k { assert Wide(b, i + 1); }
    }
  }

  lemma {:induction false} FlagStocked(b: seq<Item>, k: nat, live: bool)
    requires Stocked(b) && k + 1 < |b| && (live ==> Pay(b, k) >= MINI)
    ensures Stocked(SetFlag(b, k, live))
  {
    var c := SetFlag(b, k, live);
    forall i | 0 <= i < |c| - 1 ensures StockedAt(c, i) { assert StockedAt(b, i); }
  }

  lemma {:induction false} CutStocked(b: seq<Item>, k: nat, keep: nat)
    requires Stocked(b) && k + 1 < |b| && keep >= MINI
    ensures Stocked(Cut(b, k, keep + 3))
  {
    var c := Cut(b, k, keep + 3);
    forall i | 0 <= i < |c| - 1 ensures StockedAt(c, i) {
      if i < k { assert StockedAt(b, i); }
      if i > k + 1 { assert StockedAt(b, i - 1); }
    }
  }

  lemma {:induction false} DropStocked(b: seq<Item>, k: nat)
    requires Stocked(b) && 0 < k && k + 1 < |b| && !b[k - 1].live
    ensures Stocked(Drop(b, k))
  {
    var d := Drop(b, k);
    forall i | 0 <= i < |d| - 1 ensures StockedAt(d, i) {
      if i < k - 1 { assert StockedAt(b, i); }
      if i >= k { assert StockedAt(b, i + 1); }
    }
  }

  lemma {:induction false} ShiftStocked(b: seq<Item>, k: nat, keep: nat)
    requires Stocked(b) && k + 2 < |b| && keep >= MINI
    ensures Stocked(b[k + 1 := Item(b[k].at + H + keep, false)])
  {
    var c := b[k + 1 := Item(b[k].at + H + keep, false)];
    forall i | 0 <= i < |c| - 1 ensures StockedAt(c, i) { assert StockedAt(b, i); }
  }

  /** The peak of `pool_size - available_size`. */
  function Peaked(p: Pool): Pool {
    p.(peak := Max(p.peak, p.size - p.available))
  }

  /** Handing out free block `k` for `need` words: the tail is split off, to the front of the free ring, if it can
      hold a header and a minimal block. */
  ghost function Take(p: Pool, k: nat, need: nat): Pool
    requires k + 1 < |p.blocks|
  {
    var b, at := SetFlag(p.blocks, k, true), p.blocks[k].at;
    if Pay(p.blocks, k) >= need + H + MINI then
      Peaked(p.(blocks := Cut(b, k, need + 3), free := [at + H + need] + Without(p.free, at),
                available := p.available - 4 * need - 4 * H))
    else
      Peaked(p.(blocks := b, free := Without(p.free, at), available := p.available - 4 * Pay(p.blocks, k)))
  }

  lemma {:induction false} TakenHeap(b: seq<Item>, end: nat, k: nat)
    requires Heap(b, end) && k < |b| - 1 && !b[k].live
    ensures Heap(SetFlag(b, k, true), end) && (k > 0 ==> b[k - 1].live) && b[k + 1].live
  {
    var c := SetFlag(b, k, true);
    FlagChain(b, end, k, true);
    assert !FreePair(b, k);
    if k > 0 { assert !FreePair(b, k - 1); }
    forall i | 0 <= i < |c| - 1 ensures !FreePair(c, i) { assert !FreePair(b, i); }
  }

  lemma {:induction false} RingWithout(b: seq<Item>, c: seq<Item>, free: seq<nat>, at: nat)
    requires FreeRing(b, free) && forall x :: Item(x, false) in c <==> Item(x, false) in b && x != at
    ensures FreeRing(c, Without(free, at))
  {
    WithoutNoDup(free, at);
  }

  lemma {:induction false} RingWith(b: seq<Item>, c: seq<Item>, free: seq<nat>, at: nat)
    requires FreeRing(b, free) && Item(at, false) !in b
    requires forall x :: Item(x, false) in c <==> Item(x, false) in b || x == at
    ensures FreeRing(c, [at] + free)
  {
    NoDupAppend([at], free);
  }

  /** Nothing starts inside a block. */
  lemma {:induction false} Inside(b: seq<Item>, end: nat, k: nat, x: nat)
    requires Chain(b, end) && k < |b| - 1 && b[k].at < x < b[k + 1].at
    ensures Item(x, false) !in b
  {
    if Item(x, false) in b {
      var i :| 0 <= i < |b| && b[i] == Item(x, false);
      if i < k { Ascending(b, end, i, k); }
      if i > k + 1 { Ascending(b, end, k + 1, i); }
    }
  }

  lemma {:induction false} TakeKeeps(p: Pool, k: nat, need: nat)
    requires Inv(p) && k < |p.blocks| - 1 && !p.blocks[k].live && MINI <= need <= Pay(p.blocks, k)
    ensures Inv(Take(p, k, need))
    ensures Take(p, k, need).blocks[k] == Item(p.blocks[k].at, true)
    ensures need <= Pay(Take(p, k, need).blocks, k)
  {
    hide FreeRing, Roomy, Heap, Chain, FreePay, Stocked;
    FlagStocked(p.blocks, k, true);
    var b, end, at := p.blocks, End(p), p.blocks[k].at;
    var c := SetFlag(b, k, true);
    TakenAll(b, end, p.free, k);
    if Pay(b, k) >= need + H + MINI {
      TakenCut(c, end, Without(p.free, at), k, need);
      CutStocked(c, k, need);
    }
  }

  lemma {:induction false} TakenAll(b: seq<Item>, end: nat, free: seq<nat>, k: nat)
    requires Heap(b, end) && Roomy(b) && FreeRing(b, free) && k < |b| - 1 && !b[k].live
    ensures var c := SetFlag(b, k, true);
      && Heap(c, end) && Roomy(c) && c[k].live && c[k + 1].live
      && FreeRing(c, Without(free, b[k].at)) && FreePay(c) == FreePay(b) - Pay(b, k)
  {
    var c, at := SetFlag(b, k, true), b[k].at;
    TakenHeap(b, end, k);
    FlagRoomy(b, k, true);
    PayFlag(b, k, true);
    forall x ensures Item(x, false) in c <==> Item(x, false) in b && x != at { FlagItems(b, end, k, true, x); }
    RingWithout(b, c, free, at);
  }

  lemma {:induction false} TakenCut(c: seq<Item>, end: nat, free: seq<nat>, k: nat, need: nat)
    requires Heap(c, end) && Roomy(c) && FreeRing(c, free) && k < |c| - 1 && c[k].live && c[k + 1].live
    requires need + H <= Pay(c, k)
    ensures var d := Cut(c, k, need + 3);
      && Heap(d, end) && Roomy(d) && FreeRing(d, [c[k].at + H + need] + free)
      && FreePay(d) == FreePay(c) + Pay(c, k) - need - H
  {
    ShrinkCut(c, end, free, k, need);
    NotPaired(Cut(c, k, need + 3), k + 1);
  }

  /** Freeing block `k`, joined with free neighbours on either side. The left neighbour keeps its place in the ring;
      otherwise the block goes to the front. */
  ghost function Give(p: Pool, k: nat): Pool
    requires Inv(p) && k < |p.blocks| - 1
  {
    var b := p.blocks;
    var left, right := k > 0 && !b[k - 1].live, !b[k + 1].live;
    var rest := if right then Without(p.free, b[k + 1].at) else p.free;
    p.(blocks := Release(b, End(p), k), free := if left then rest else [b[k].at] + rest,
       available := p.available + 4 * Pay(b, k) + (if left then 4 * H else 0) + (if right then 4 * H else 0))
  }

  /** Joining the free block `k + 1` into the free block `k`. */
  lemma {:induction false} Joined(b: seq<Item>, end: nat, free: seq<nat>, k: nat)
    requires Chain(b, end) && Roomy(b) && FreeRing(b, free) && k + 1 < |b| - 1 && !b[k].live && !b[k + 1].live
    ensures Chain(Drop(b, k + 1), end) && Roomy(Drop(b, k + 1)) && FreeRing(Drop(b, k + 1), Without(free, b[k + 1].at))
    ensures FreePay(Drop(b, k + 1)) == FreePay(b) + H
  {
    DropChain(b, end, k + 1);
    DropRoomy(b, k + 1);
    PayDrop(b, k + 1);
    forall x ensures Item(x, false) in Drop(b, k + 1) <==> Item(x, false) in b && x != b[k + 1].at {
      DropItems(b, end, k + 1, x);
    }
    RingWithout(b, Drop(b, k + 1), free, b[k + 1].at);
  }

  /** Joining the freed block with its free neighbours, right then left. */
  lemma {:induction false} GivenPlug(b: seq<Item>, c: seq<Item>, end: nat, free: seq<nat>, k: nat)
    requires |b| == |c| && k < |c| - 1 && c == SetFlag(b, k, false) && b[k].at != b[k + 1].at
    requires Chain(c, end) && Roomy(c) && FreeRing(c, [b[k].at] + free)
    ensures var left, right := k > 0 && !b[k - 1].live, !b[k + 1].live;
      && Roomy(Plug(c, end, k))
      && FreePay(Plug(c, end, k)) == FreePay(c) + (if left then H else 0) + (if right then H else 0)
      && var rest := if right then Without(free, b[k + 1].at) else free;
         FreeRing(Plug(c, end, k), if left then rest else [b[k].at] + rest)
  {
    var f, ring := c, [b[k].at] + free;
    assert c[|c| - 1].live;
    hide FreeRing, Roomy;
    if !b[k + 1].live {
      Joined(c, end, ring, k);
      f, ring := Drop(c, k + 1), Without(ring, c[k + 1].at);
      assert ([b[k].at] + free)[1..] == free;
    }
    if k > 0 && !f[k - 1].live {
      Joined(f, end, ring, k - 1);
      assert ring[0] == b[k].at && ring[1..] == (if b[k + 1].live then free else Without(free, b[k + 1].at));
    }
  }

  /** Marking the block free, before joining. */
  lemma {:induction false} GivenFree(b: seq<Item>, end: nat, free: seq<nat>, k: nat)
    requires Heap(b, end) && Roomy(b) && FreeRing(b, free) && k < |b| - 1 && b[k].live
    ensures Chain(b, end) && Chain(SetFlag(b, k, false), end) && Roomy(SetFlag(b, k, false))
    ensures FreeRing(SetFlag(b, k, false), [b[k].at] + free)
    ensures FreePay(SetFlag(b, k, false)) == FreePay(b) + Pay(b, k)
  {
    var c, at := SetFlag(b, k, false), b[k].at;
    FlagChain(b, end, k, false);
    FlagRoomy(b, k, false);
    PayFlag(b, k, false);
    forall x ensures Item(x, false) in c <==> Item(x, false) in b || x == at { FlagItems(b, end, k, false, x); }
    if Item(at, false) in b { var i :| 0 <= i < |b| && b[i] == Item(at, false); OneStart(b, end, i, k); }
    RingWith(b, c, free, at);
  }

  lemma {:induction false} OneStartNext(b: seq<Item>, end: nat, k: nat)
    requires Chain(b, end) && k + 1 < |b|
    ensures b[k].at != b[k + 1].at
  {
    assert Gap(b, k);
  }

  lemma {:induction false} GiveKeeps(p: Pool, k: nat)
    requires Inv(p) && k < |p.blocks| - 1 && p.blocks[k].live
    ensures Inv(Give(p, k))
  {
    hide Roomy, FreeRing, Heap, Chain, FreePay, Release, Stocked;
    GivenAll(p.blocks, End(p), p.free, k);
    GivenStocked(p.blocks, End(p), k);
  }

  lemma {:induction false} GivenStocked(b: seq<Item>, end: nat, k: nat)
    requires Heap(b, end) && Stocked(b) && k < |b| - 1 && b[k].live
    ensures Stocked(Release(b, end, k))
  {
    hide Stocked;
    var c := SetFlag(b, k, false);
    FlagChain(b, end, k, false);
    FlagStocked(b, k, false);
    var f := if c[k + 1].live then c else Drop(c, k + 1);
    if !c[k + 1].live { DropStocked(c, k + 1); }
    if k > 0 && !f[k - 1].live { DropStocked(f, k); }
  }

  lemma {:induction false} GivenAll(b: seq<Item>, end: nat, free: seq<nat>, k: nat)
    requires Heap(b, end) && Roomy(b) && FreeRing(b, free) && k < |b| - 1 && b[k].live
    ensures var left, right := k > 0 && !b[k - 1].live, !b[k + 1].live; var n := Release(b, end, k);
      && Heap(n, end) && Roomy(n) && Pay(b, k) >= 0
      && FreePay(n) == FreePay(b) + Pay(b, k) + (if left then H else 0) + (if right then H else 0)
      && var rest := if right then Without(free, b[k + 1].at) else free;
         FreeRing(n, if left then rest else [b[k].at] + rest)
  {
    hide FreeRing, FreePay, Plug;
    ReleaseHeap(b, end, k);
    GivenFree(b, end, free, k);
    assert Wide(b, k);
    OneStartNext(b, end, k);
    GivenPlug(b, SetFlag(b, k, false), end, free, k);
  }

  /** `rt_memheap_realloc` taking over a following free block: its header moves up. */
  ghost function Grow(p: Pool, k: nat, keep: nat): Pool
    requires k + 1 < |p.blocks|
  {
    var b, at := p.blocks, p.blocks[k].at + H + keep;
    Peaked(p.(blocks := b[k + 1 := Item(at, false)], free := [at] + Without(p.free, b[k + 1].at),
              available := p.available - 4 * (keep - Pay(b, k))))
  }

  lemma {:induction false} ShiftChain(b: seq<Item>, end: nat, k: nat, at: nat)
    requires Heap(b, end) && Roomy(b) && 0 < k < |b| - 1 && !b[k].live && b[k].at <= at && at + H <= b[k + 1].at
    ensures Heap(b[k := Item(at, false)], end) && Roomy(b[k := Item(at, false)])
  {
    var c := b[k := Item(at, false)];
    assert Gap(b, k);
    forall i | 0 <= i < |c| - 1 ensures Gap(c, i) && Wide(c, i) && !FreePair(c, i) {
      assert Gap(b, i) && Wide(b, i) && !FreePair(b, i);
    }
  }

  lemma {:induction false} ShiftItems(b: seq<Item>, end: nat, k: nat, at: nat, x: nat)
    requires Chain(b, end) && k < |b| - 1 && !b[k].live
    ensures Item(x, false) in b[k := Item(at, false)] <==> (Item(x, false) in b && x != b[k].at) || x == at
  {
    var c := b[k := Item(at, false)];
    assert c[k] == Item(at, false);
    if Item(x, false) in c {
      var i :| 0 <= i < |c| && c[i] == Item(x, false);
      if i != k { assert b[i] == c[i]; if x == b[k].at { OneStart(b, end, i, k); } }
    }
    if Item(x, false) in b && x != b[k].at {
      var i :| 0 <= i < |b| && b[i] == Item(x, false);
      assert c[i] == b[i];
    }
  }

  lemma {:induction false} StockedOne(b: seq<Item>, k: nat)
    requires Stocked(b) && k + 1 < |b| && b[k].live
    ensures Pay(b, k) >= MINI
  {
    assert StockedAt(b, k);
  }

  lemma {:induction false} GrowKeeps(p: Pool, k: nat, keep: nat)
    requires Inv(p) && k + 1 < |p.blocks| - 1 && p.blocks[k].live && !p.blocks[k + 1].live
    requires Pay(p.blocks, k) < keep <= Pay(p.blocks, k) + Pay(p.blocks, k + 1)
    ensures Inv(Grow(p, k, keep)) && Pay(Grow(p, k, keep).blocks, k) == keep
  {
    hide FreeRing, Roomy, Heap, Chain, FreePay, Stocked;
    GrownAll(p.blocks, End(p), p.free, k, keep);
    StockedOne(p.blocks, k);
    ShiftStocked(p.blocks, k, keep);
  }

  lemma {:induction false} GrownAll(b: seq<Item>, end: nat, free: seq<nat>, k: nat, keep: nat)
    requires Heap(b, end) && Roomy(b) && FreeRing(b, free) && k + 1 < |b| - 1 && b[k].live && !b[k + 1].live
    requires Pay(b, k) < keep <= Pay(b, k) + Pay(b, k + 1)
    ensures var at := b[k].at + H + keep; var c := b[k + 1 := Item(at, false)];
      && Heap(c, end) && Roomy(c) && FreeRing(c, [at] + Without(free, b[k + 1].at))
      && FreePay(c) == FreePay(b) - (keep - Pay(b, k)) && Pay(c, k) == keep
  {
    hide Heap, FreePay;
    var at, was := b[k].at + H + keep, b[k + 1].at;
    var c := b[k + 1 := Item(at, false)];
    HeapChain(b, end);
    assert Wide(b, k);
    ShiftChain(b, end, k + 1, at);
    PayShift(b, k + 1, at);
    Inside(b, end, k + 1, at);
    WithoutNoDup(free, was);
    NoDupAppend([at], Without(free, was));
    forall x ensures x in [at] + Without(free, was) <==> Item(x, false) in c { ShiftItems(b, end, k + 1, at, x); }
  }

  lemma {:induction false} HeapChain(b: seq<Item>, end: nat)
    requires Heap(b, end)
    ensures Chain(b, end)
  {
  }

  /** `rt_memheap_realloc` giving back the tail of a block, joined with a following free block. */
  ghost function Shrink(p: Pool, k: nat, keep: nat): Pool
    requires k + 1 < |p.blocks|
  {
    var b, at := p.blocks, p.blocks[k].at + H + keep;
    var c, right := Cut(b, k, keep + 3), !b[k + 1].live;
    p.(blocks := if right then Drop(c, k + 2) else c,
       free := [at] + (if right then Without(p.free, b[k + 1].at) else p.free),
       available := p.available + 4 * (Pay(b, k) - keep) - (if right then 0 else 4 * H))
  }

  /** The cut itself, before joining. */
  lemma {:induction false} ShrinkCut(b: seq<Item>, end: nat, free: seq<nat>, k: nat, keep: nat)
    requires Heap(b, end) && Roomy(b) && FreeRing(b, free) && k < |b| - 1 && b[k].live && keep + H <= Pay(b, k)
    ensures var c, at := Cut(b, k, keep + 3), b[k].at + H + keep;
      && Chain(c, end) && Roomy(c) && PairOnlyAt(c, k + 1) && c[k + 1] == Item(at, false)
      && FreeRing(c, [at] + free) && FreePay(c) == FreePay(b) + Pay(b, k) - keep - H
  {
    var c, at := Cut(b, k, keep + 3), b[k].at + H + keep;
    CutPairs(b, end, k, keep + 3);
    CutRoomy(b, k, keep);
    PayCut(b, k, keep);
    Inside(b, end, k, at);
    forall x ensures Item(x, false) in c <==> Item(x, false) in b || x == at { CutItems(b, k, keep, x); }
    RingWith(b, c, free, at);
  }

  lemma {:induction false} ShrinkKeeps(p: Pool, k: nat, keep: nat)
    requires Inv(p) && k < |p.blocks| - 1 && p.blocks[k].live && MINI <= keep && keep + H <= Pay(p.blocks, k)
    ensures Inv(Shrink(p, k, keep)) && Pay(Shrink(p, k, keep).blocks, k) == keep
  {
    if p.blocks[k + 1].live { ShrinkAlone(p, k, keep); } else { ShrinkJoined(p, k, keep); }
  }

  lemma {:induction false} ShrinkAlone(p: Pool, k: nat, keep: nat)
    requires Inv(p) && k < |p.blocks| - 1 && p.blocks[k].live && MINI <= keep && keep + H <= Pay(p.blocks, k)
    requires p.blocks[k + 1].live
    ensures Inv(Shrink(p, k, keep)) && Pay(Shrink(p, k, keep).blocks, k) == keep
  {
    ShrinkCut(p.blocks, End(p), p.free, k, keep);
    hide FreeRing, Roomy, Chain, Stocked;
    NotPaired(Cut(p.blocks, k, keep + 3), k + 1);
    CutStocked(p.blocks, k, keep);
  }

  lemma {:induction false} ShrinkJoined(p: Pool, k: nat, keep: nat)
    requires Inv(p) && k < |p.blocks| - 1 && p.blocks[k].live && MINI <= keep && keep + H <= Pay(p.blocks, k)
    requires !p.blocks[k + 1].live
    ensures Inv(Shrink(p, k, keep)) && Pay(Shrink(p, k, keep).blocks, k) == keep
  {
    hide FreeRing, Roomy, Heap, Chain, FreePay, Stocked;
    NotLast(p.blocks, End(p), k + 1);
    ShrunkAll(p.blocks, End(p), p.free, k, keep);
    CutStocked(p.blocks, k, keep);
    DropStocked(Cut(p.blocks, k, keep + 3), k + 2);
  }

  lemma {:induction false} NotLast(b: seq<Item>, end: nat, k: nat)
    requires Heap(b, end) && k < |b| && !b[k].live
    ensures k < |b| - 1
  {
  }

  lemma {:induction false} ShrunkAll(b: seq<Item>, end: nat, free: seq<nat>, k: nat, keep: nat)
    requires Heap(b, end) && Roomy(b) && FreeRing(b, free) && k + 1 < |b| - 1 && b[k].live && keep + H <= Pay(b, k)
    requires !b[k + 1].live
    ensures var n, at := Drop(Cut(b, k, keep + 3), k + 2), b[k].at + H + keep;
      && Heap(n, end) && Roomy(n) && FreeRing(n, [at] + Without(free, b[k + 1].at))
      && FreePay(n) == FreePay(b) + Pay(b, k) - keep && Pay(n, k) == keep
  {
    hide FreeRing, Roomy, FreePay;
    var c, at := Cut(b, k, keep + 3), b[k].at + H + keep;
    ShrinkCut(b, end, free, k, keep);
    ShrinkJoin(b, c, end, free, k, at);
  }

  /** A free block between live ones pairs with neither. */
  lemma {:induction false} NotPaired(c: seq<Item>, k: nat)
    requires 0 < k < |c| - 1 && c[k - 1].live && c[k + 1].live && PairOnlyAt(c, k)
    ensures NoFreePair(c)
  {
    forall i | 0 <= i < |c| - 1 ensures !FreePair(c, i) {
      if i != k && i + 1 != k { assert !FreePair(c, i); }
    }
  }

  lemma {:induction false} ShrinkJoin(b: seq<Item>, c: seq<Item>, end: nat, free: seq<nat>, k: nat, at: nat)
    requires Heap(b, end) && k + 1 < |b| - 1 && b[k].live && !b[k + 1].live
    requires c == b[..k + 1] + [Item(at, false)] + b[k + 1..]
    requires Chain(c, end) && Roomy(c) && PairOnlyAt(c, k + 1) && FreeRing(c, [at] + free)
    ensures Heap(Drop(c, k + 2), end) && Roomy(Drop(c, k + 2)) && FreePay(Drop(c, k + 2)) == FreePay(c) + H
    ensures FreeRing(Drop(c, k + 2), [at] + Without(free, b[k + 1].at))
  {
    Joined(c, end, [at] + free, k + 1);
    JoinNext(c, end, k + 1);
    ShrunkPairs(c, end, k + 1);
    OneStartNext(c, end, k + 1);
    assert Without([at] + free, b[k + 1].at) == [at] + Without(free, b[k + 1].at) by {
      assert ([at] + free)[1..] == free;
    }
  }

  lemma {:induction false} ShrunkPairs(c: seq<Item>, end: nat, k: nat)
    requires Chain(c, end) && 0 < k && k + 1 < |c| - 1 && !c[k].live && !c[k + 1].live && c[k - 1].live
    requires PairOnlyAt(c, k)
    requires PairOnlyAt(Drop(c, k + 1), k) && Drop(c, k + 1)[k + 1].live
    ensures NoFreePair(Drop(c, k + 1))
  {
    var f := Drop(c, k + 1);
    forall i | 0 <= i < |f| - 1 ensures !FreePair(f, i) {
      if i != k && i + 1 != k { assert !FreePair(f, i); }
    }
  }

  /** The request in words: `RT_ALIGN`, which wraps, then at least the minimum. */
  function Need(size: Word): nat {
    Max(RtAlign(size), 4 * MINI) / 4
  }

  lemma {:induction false} NeedCovers(size: Word)
    ensures Need(size) >= MINI && 4 * Need(size) < U32
    ensures size <= 4 * Need(size) <==> size <= U32 - 4
  {
    RtAlignRoundsUp(size);
  }

  /** A block of `n` payload words at `x`. */
  ghost predicate Live(b: seq<Item>, x: nat, n: int) {
    exists k :: 0 <= k < |b| - 1 && b[k] == Item(x, true) && Pay(b, k) == n
  }

  ghost predicate Held(b: seq<Item>, x: nat) {
    exists n :: Live(b, x, n)
  }

  /** Every live block but the one at `x` is still there, and no other is. */
  ghost predicate OthersKept(b: seq<Item>, c: seq<Item>, x: nat) {
    forall y, n :: y != x ==> (Live(b, y, n) <==> Live(c, y, n))
  }

  ghost function Index(b: seq<Item>, item: Item): (k: nat)
    requires item in b
    ensures k < |b| && b[k] == item
  {
    var k :| 0 <= k < |b| && b[k] == item; k
  }

  /** The block of a ring element. */
  ghost function BlockOf(p: Pool, j: nat): (k: nat)
    requires Inv(p) && j < |p.free|
    ensures k < |p.blocks| - 1 && p.blocks[k] == Item(p.free[j], false)
  {
    assert p.free[j] in p.free;
    Index(p.blocks, Item(p.free[j], false))
  }

  /** The search of the free ring: the first block large enough. */
  ghost function FindFit(p: Pool, need: nat, from: nat): (j: nat)
    requires Inv(p) && from <= |p.free|
    ensures from <= j <= |p.free| && (j < |p.free| ==> Pay(p.blocks, BlockOf(p, j)) >= need)
    ensures forall i :: from <= i < j ==> Pay(p.blocks, BlockOf(p, i)) < need
    decreases |p.free| - from
  {
    if from == |p.free| || Pay(p.blocks, BlockOf(p, from)) >= need then from else FindFit(p, need, from + 1)
  }

  /** `rt_memheap_alloc`: the payload's word, and the pool. */
  ghost function Alloc(p: Pool, size: Word): (Option<nat>, Pool)
    requires Inv(p)
  {
    var need := Need(size);
    var j := FindFit(p, need, 0);
    if 4 * need >= p.available || j == |p.free| then (None, p)
    else (Some(p.free[j] + H), Take(p, BlockOf(p, j), need))
  }

  lemma {:induction false} AllocKeeps(p: Pool, size: Word)
    requires Inv(p)
    ensures Inv(Alloc(p, size).1)
  {
    var need := Need(size);
    var j := FindFit(p, need, 0);
    NeedCovers(size);
    if 4 * need < p.available && j < |p.free| { TakeKeeps(p, BlockOf(p, j), need); }
  }

  ghost predicate Fitting(b: seq<Item>, need: nat) {
    exists k :: 0 <= k < |b| - 1 && !b[k].live && Pay(b, k) >= need
  }

  lemma {:induction false} PayBounds(b: seq<Item>, end: nat, k: nat)
    requires Chain(b, end) && Roomy(b) && k < |b| - 1 && !b[k].live
    ensures 0 <= Pay(b, k) <= FreePay(b)
    decreases |b|
  {
    PayAround(b, k);
    assert Wide(b, k);
    var low, high := b[..k + 1], b[k + 1..];
    PayNotNegative(low);
    PayNotNegative(high);
    forall i | 0 <= i < k ensures Wide(low, i) { assert Wide(b, i); }
    forall i | 0 <= i < |high| - 1 ensures Wide(high, i) { assert Wide(b, i + k + 1); }
  }

  lemma {:induction false} PayNotNegative(b: seq<Item>)
    ensures Roomy(b) ==> FreePay(b) >= 0
    decreases |b|
  {
    if |b| >= 2 && Roomy(b) {
      assert Wide(b, 0);
      forall i | 0 <= i < |b| - 2 ensures Wide(b[1..], i) { assert Wide(b, i + 1); }
      PayNotNegative(b[1..]);
    }
  }

  /** Completeness. A request that some free block could serve is refused exactly when it asks for all that is
      available; every other such request is served, and nothing else is. */
  lemma {:induction false} RefusesExactly(p: Pool, size: Word)
    requires Inv(p)
    ensures Alloc(p, size).0.Some? <==> Fitting(p.blocks, Need(size)) && 4 * Need(size) != p.available
  {
    var need, b := Need(size), p.blocks;
    var j := FindFit(p, need, 0);
    if Fitting(b, need) {
      var k :| 0 <= k < |b| - 1 && !b[k].live && Pay(b, k) >= need;
      PayBounds(b, End(p), k);
      assert b[k] == Item(b[k].at, false) && b[k].at in p.free;
      var i :| 0 <= i < |p.free| && p.free[i] == b[k].at;
      OneStart(b, End(p), k, BlockOf(p, i));
      assert j <= i;
    }
  }

  lemma {:induction false} LiveAt(b: seq<Item>, k: nat)
    requires k < |b| - 1 && b[k].live
    ensures Live(b, b[k].at, Pay(b, k))
  {
  }

  lemma {:induction false} FlagLive(b: seq<Item>, k: nat, live: bool)
    requires k < |b| - 1
    ensures OthersKept(b, SetFlag(b, k, live), b[k].at)
  {
    var c := SetFlag(b, k, live);
    forall y, n | y != b[k].at ensures Live(b, y, n) <==> Live(c, y, n) {
      if Live(b, y, n) { var i :| 0 <= i < |b| - 1 && b[i] == Item(y, true) && Pay(b, i) == n; LiveAt(c, i); }
      if Live(c, y, n) { var i :| 0 <= i < |c| - 1 && c[i] == Item(y, true) && Pay(c, i) == n; LiveAt(b, i); }
    }
  }

  lemma {:induction false} CutLive(b: seq<Item>, k: nat, keep: nat)
    requires k < |b| - 1
    ensures OthersKept(b, Cut(b, k, keep + 3), b[k].at)
  {
    var c := Cut(b, k, keep + 3);
    forall y, n | y != b[k].at ensures Live(b, y, n) <==> Live(c, y, n) {
      if Live(b, y, n) {
        var i :| 0 <= i < |b| - 1 && b[i] == Item(y, true) && Pay(b, i) == n;
        LiveAt(c, if i < k then i else i + 1);
      }
      if Live(c, y, n) {
        var i :| 0 <= i < |c| - 1 && c[i] == Item(y, true) && Pay(c, i) == n;
        LiveAt(b, if i < k then i else i - 1);
      }
    }
  }

  /** Joining free blocks touches no live one. */
  lemma {:induction false} DropLive(b: seq<Item>, k: nat)
    requires 0 < k < |b| - 1 && !b[k].live && !b[k - 1].live
    ensures forall y, n :: Live(b, y, n) <==> Live(Drop(b, k), y, n)
  {
    var c := Drop(b, k);
    forall y, n ensures Live(b, y, n) <==> Live(c, y, n) {
      if Live(b, y, n) {
        var i :| 0 <= i < |b| - 1 && b[i] == Item(y, true) && Pay(b, i) == n;
        LiveAt(c, if i < k then i else i - 1);
      }
      if Live(c, y, n) {
        var i :| 0 <= i < |c| - 1 && c[i] == Item(y, true) && Pay(c, i) == n;
        LiveAt(b, if i < k then i else i + 1);
      }
    }
  }

  lemma {:induction false} ShiftLive(b: seq<Item>, k: nat, at: nat)
    requires 0 < k < |b| - 1 && !b[k].live
    ensures OthersKept(b, b[k := Item(at, false)], b[k - 1].at)
  {
    var c := b[k := Item(at, false)];
    forall y, n | y != b[k - 1].at ensures Live(b, y, n) <==> Live(c, y, n) {
      if Live(b, y, n) { var i :| 0 <= i < |b| - 1 && b[i] == Item(y, true) && Pay(b, i) == n; LiveAt(c, i); }
      if Live(c, y, n) { var i :| 0 <= i < |c| - 1 && c[i] == Item(y, true) && Pay(c, i) == n; LiveAt(b, i); }
    }
  }

  lemma {:induction false} TakeLive(p: Pool, k: nat, need: nat)
    requires Inv(p) && k < |p.blocks| - 1 && !p.blocks[k].live && need <= Pay(p.blocks, k)
    ensures OthersKept(p.blocks, Take(p, k, need).blocks, p.blocks[k].at)
    ensures HasRoom(Take(p, k, need).blocks, p.blocks[k].at, need, need + H + MINI - 1)
    ensures forall n :: !Live(p.blocks, p.blocks[k].at, n)
  {
    var b := p.blocks;
    FlagLive(b, k, true);
    if Pay(b, k) >= need + H + MINI { CutLive(SetFlag(b, k, true), k, need); }
    LiveAt(Take(p, k, need).blocks, k);
    forall n ensures !Live(b, b[k].at, n) {
      if Live(b, b[k].at, n) {
        var i :| 0 <= i < |b| - 1 && b[i] == Item(b[k].at, true) && Pay(b, i) == n;
        OneStart(b, End(p), i, k);
      }
    }
  }

  lemma {:induction false} GiveLive(p: Pool, k: nat)
    requires Inv(p) && k < |p.blocks| - 1 && p.blocks[k].live
    ensures OthersKept(p.blocks, Give(p, k).blocks, p.blocks[k].at)
  {
    var b := p.blocks;
    var c := SetFlag(b, k, false);
    FlagLive(b, k, false);
    var f := if c[k + 1].live then c else Drop(c, k + 1);
    if !c[k + 1].live { DropLive(c, k + 1); }
    if k > 0 && !f[k - 1].live { DropLive(f, k); }
  }

  /** A block given back is not live any more. */
  lemma {:induction false} GiveGone(p: Pool, k: nat)
    requires Inv(p) && k < |p.blocks| - 1 && p.blocks[k].live
    ensures !Held(Give(p, k).blocks, p.blocks[k].at)
  {
    var b, x := p.blocks, Item(p.blocks[k].at, true);
    var c := SetFlag(b, k, false);
    if x in c {
      var i :| 0 <= i < |c| && c[i] == x;
      assert b[i] == x;
      OneStart(b, End(p), i, k);
    }
    FlagChain(b, End(p), k, false);
    assert Give(p, k).blocks == Plug(c, End(p), k);
    assert forall y :: y in Give(p, k).blocks ==> y in c;
  }

  lemma {:induction false} EndLive(p: Pool)
    requires Inv(p)
    ensures p.blocks != [] && p.blocks[|p.blocks| - 1].live
  {
  }

  lemma {:induction false} ShrinkLive(p: Pool, k: nat, keep: nat)
    requires Inv(p) && k < |p.blocks| - 1 && p.blocks[k].live
    ensures OthersKept(p.blocks, Shrink(p, k, keep).blocks, p.blocks[k].at)
  {
    hide Inv, Live;
    EndLive(p);
    CutLive(p.blocks, k, keep);
    if !p.blocks[k + 1].live { DropLive(Cut(p.blocks, k, keep + 3), k + 2); }
  }

  /** `nextsize + oldsize > newsize + RT_MEMHEAP_MINIALLOC`, in 32-bit arithmetic on words. */
  predicate GrowTest(keep: nat, had: int, next: int) {
    Wrap(4 * next + 4 * had) > Wrap(4 * keep + 4 * MINI)
  }

  /** Sums of block sizes never wrap, so the test fails its purpose exactly when the request is within twelve bytes
      of the largest 32-bit value and the two blocks exceed what the sum wraps to. */
  lemma {:induction false} GrowTestExact(keep: nat, had: int, next: int)
    requires 4 * keep < U32 && had >= 0 && next >= 0 && 4 * (had + next) < U32
    ensures (GrowTest(keep, had, next) <==> had + next > keep + MINI)
       <==> !(4 * keep + 4 * MINI >= U32 && 4 * (had + next) > 4 * keep + 4 * MINI - U32)
  {
    if 4 * keep + 4 * MINI >= U32 {
      assert Wrap(4 * keep + 4 * MINI) == 4 * keep + 4 * MINI - U32;
    }
  }

  /** A request close enough to the top of the address range that its size wraps in the test. */
  predicate Wraps(size: Word) {
    4 * Need(size) + 4 * MINI >= U32
  }

  /** Growing on a wrapped test would put the new free header outside the block it is cut from: the branch is right
      exactly for requests that do not wrap. */
  lemma {:induction false} GrowInside(p: Pool, k: nat, size: Word)
    requires Inv(p) && k + 1 < |p.blocks| - 1 && p.blocks[k].live && !p.blocks[k + 1].live
    requires Need(size) > Pay(p.blocks, k) && GrowTest(Need(size), Pay(p.blocks, k), Pay(p.blocks, k + 1))
    ensures !Wraps(size) <==> p.blocks[k].at + H + Need(size) + H <= p.blocks[k + 2].at
  {
    BlockBounds(p, k);
    NeedCovers(size);
  }

  lemma {:induction false} BlockBounds(p: Pool, k: nat)
    requires Inv(p) && k + 1 < |p.blocks| - 1
    ensures Pay(p.blocks, k) >= 0 && Pay(p.blocks, k + 1) >= 0
    ensures 4 * (Pay(p.blocks, k) + Pay(p.blocks, k + 1)) < p.size && p.blocks[k + 2].at <= End(p)
  {
    assert Wide(p.blocks, k) && Wide(p.blocks, k + 1) && Gap(p.blocks, k + 1);
  }

  /** `rt_memheap_realloc` of the block whose payload starts at word `a`, for a request other than zero. */
  ghost function Realloc(p: Pool, k: nat, size: Word): (Option<nat>, Pool)
    requires Inv(p) && k < |p.blocks| - 1 && p.blocks[k].live
  {
    var b, need, had, a := p.blocks, Need(size), Pay(p.blocks, k), p.blocks[k].at + H;
    if need > had then
      if !b[k + 1].live && GrowTest(need, had, Pay(b, k + 1)) then (Some(a), Grow(p, k, need))
      else Moved(p, k, size)
    else if need + H + MINI >= had then (Some(a), p)
    else (Some(a), Shrink(p, k, need))
  }

  /** A new block is allocated, the contents copied and the old block freed. */
  ghost function Moved(p: Pool, k: nat, size: Word): (Option<nat>, Pool)
    requires Inv(p) && k < |p.blocks| - 1 && p.blocks[k].live
  {
    AllocKeeps(p, size);
    MovedStill(p, k, size);
    var (a, n) := Alloc(p, size);
    if a.None? then (None, p) else (a, Give(n, Index(n.blocks, p.blocks[k])))
  }

  lemma {:induction false} MovedStill(p: Pool, k: nat, size: Word)
    requires Inv(p) && k < |p.blocks| - 1 && p.blocks[k].live && Inv(Alloc(p, size).1)
    ensures p.blocks[k] in Alloc(p, size).1.blocks
    ensures Index(Alloc(p, size).1.blocks, p.blocks[k]) < |Alloc(p, size).1.blocks| - 1
    ensures Pay(Alloc(p, size).1.blocks, Index(Alloc(p, size).1.blocks, p.blocks[k])) == Pay(p.blocks, k)
  {
    var b, n := p.blocks, Alloc(p, size).1;
    AllocGives(p, size);
    LiveAt(b, k);
    assert Live(n.blocks, b[k].at, Pay(b, k));
    var i :| 0 <= i < |n.blocks| - 1 && n.blocks[i] == Item(b[k].at, true) && Pay(n.blocks, i) == Pay(b, k);
    OneStart(n.blocks, End(n), i, Index(n.blocks, b[k]));
  }

  /** The block at `x` has room for `size` bytes. */
  ghost predicate HasBytes(b: seq<Item>, x: nat, size: Word) {
    exists m :: 4 * m >= size && Live(b, x, m)
  }

  /** A block with room for the aligned request has room for the request exactly if aligning did not wrap: no block is
      as large as a request that wraps. */
  lemma {:induction false} BytesExactly(p: Pool, x: nat, size: Word)
    requires Inv(p) && HasRoom(p.blocks, x, Need(size), Need(size) + H + MINI)
    ensures HasBytes(p.blocks, x, size) <==> size <= U32 - 4
  {
    NeedCovers(size);
    if HasBytes(p.blocks, x, size) {
      var m :| 4 * m >= size && Live(p.blocks, x, m);
      LiveInside(p, x, m);
    }
  }

  lemma {:induction false} LiveInside(p: Pool, x: nat, m: int)
    requires Inv(p) && Live(p.blocks, x, m)
    ensures x + H + m <= End(p)
  {
    var k :| 0 <= k < |p.blocks| - 1 && p.blocks[k] == Item(x, true) && Pay(p.blocks, k) == m;
    assert Gap(p.blocks, k);
  }

  /** What a successful allocation gives: a block that was not live, with room for the aligned request, and with room
      for the request itself exactly if aligning did not wrap; every other live block is as it was. */
  lemma {:induction false} AllocGives(p: Pool, size: Word)
    requires Inv(p)
    ensures Alloc(p, size).0.None? ==> Alloc(p, size).1 == p
    ensures Alloc(p, size).0.Some? ==>
      && Alloc(p, size).0.value >= H && Granted(p, Alloc(p, size).1, Alloc(p, size).0.value - H, Need(size))
      && (HasBytes(Alloc(p, size).1.blocks, Alloc(p, size).0.value - H, size) <==> size <= U32 - 4)
    ensures forall y, n :: Live(p.blocks, y, n) ==> Live(Alloc(p, size).1.blocks, y, n)
  {
    hide Inv, Live, Take, Need, HasBytes;
    var need := Need(size);
    var j := FindFit(p, need, 0);
    AllocKeeps(p, size);
    if 4 * need < p.available && j < |p.free| {
      TakeLive(p, BlockOf(p, j), need);
      BytesExactly(Alloc(p, size).1, p.free[j], size);
    }
  }

  ghost predicate Granted(p: Pool, n: Pool, x: nat, need: nat) {
    && OthersKept(p.blocks, n.blocks, x) && (forall m :: !Live(p.blocks, x, m))
    && HasRoom(n.blocks, x, need, need + H + MINI - 1)
  }

  /** The block at `x` has from `need` to `most` words: a tail that could stand alone is not given away with it. */
  ghost predicate HasRoom(b: seq<Item>, x: nat, need: nat, most: nat) {
    exists m :: need <= m <= most && Live(b, x, m)
  }

  /** All live blocks but those at `x` and `q` are the same. */
  ghost predicate RestKept(b: seq<Item>, c: seq<Item>, x: nat, q: nat) {
    forall y, n :: y != x && y != q ==> (Live(b, y, n) <==> Live(c, y, n))
  }

  /** What a reallocation may promise: the pool stays one; a failure changes nothing; a success gives a block with
      room for the bytes asked for and no tail that could stand alone; if that is a new block, it was not live before
      and the old one is not any more; every other live block is as it was. */
  ghost predicate Reallocated(p: Pool, k: nat, size: Word, r: (Option<nat>, Pool))
    requires k < |p.blocks|
  {
    && Inv(r.1) && (r.0.None? ==> r.1 == p)
    && (r.0.Some? ==>
          && r.0.value >= H && HasBytes(r.1.blocks, r.0.value - H, size)
          && HasRoom(r.1.blocks, r.0.value - H, Need(size), Need(size) + H + MINI)
          && RestKept(p.blocks, r.1.blocks, p.blocks[k].at, r.0.value - H)
          && (r.0.value - H != p.blocks[k].at ==>
                !Held(r.1.blocks, p.blocks[k].at) && !Held(p.blocks, r.0.value - H)))
  }

  lemma {:induction false} Promised(p: Pool, k: nat, size: Word, n: Pool, x: nat, m: int)
    requires k < |p.blocks| && Inv(n) && Live(n.blocks, x, m) && size <= U32 - 4
    requires Need(size) <= m <= Need(size) + H + MINI && RestKept(p.blocks, n.blocks, p.blocks[k].at, x)
    requires x != p.blocks[k].at ==> !Held(n.blocks, p.blocks[k].at) && !Held(p.blocks, x)
    ensures Reallocated(p, k, size, (Some(x + H), n))
  {
    NeedCovers(size);
    assert x + H - H == x;
    assert 4 * m >= size;
  }

  /** The growth branch taken on a wrapped comparison. */
  ghost predicate Overruns(p: Pool, k: nat, size: Word)
    requires k + 1 < |p.blocks|
  {
    && Wraps(size) && k + 2 < |p.blocks| && !p.blocks[k + 1].live
    && Need(size) > Pay(p.blocks, k) && GrowTest(Need(size), Pay(p.blocks, k), Pay(p.blocks, k + 1))
  }

  /** A reallocation keeps its promise exactly if that branch is not taken and aligning the request does not wrap. In
      the second case a block of the smallest size stands for a request of nearly 2^32 bytes. */
  lemma {:induction false} ReallocExactly(p: Pool, k: nat, size: Word)
    requires Inv(p) && k < |p.blocks| - 1 && p.blocks[k].live
    ensures Reallocated(p, k, size, Realloc(p, k, size)) <==> !Overruns(p, k, size) && size <= U32 - 4
  {
    if size > U32 - 4 {
      WrappedStays(p, k, size);
    } else if Overruns(p, k, size) {
      LastLive(p, k);
      GrowInside(p, k, size);
      if Reallocated(p, k, size, Realloc(p, k, size)) {
        GrownHeader(p, k, Need(size));
        assert false;
      }
    } else {
      ReallocKeeps(p, k, size);
    }
  }

  /** A request that wraps in `RT_ALIGN` leaves the block where it is, cutting it down if that is worth it. */
  lemma {:induction false} WrappedStays(p: Pool, k: nat, size: Word)
    requires Inv(p) && k < |p.blocks| - 1 && p.blocks[k].live && size > U32 - 4
    ensures !Reallocated(p, k, size, Realloc(p, k, size))
  {
    hide Inv, Need, Realloc, HasBytes;
    WrappedInv(p, k, size);
    var n := Realloc(p, k, size).1;
    LiveAt(n.blocks, k);
    assert HasRoom(n.blocks, p.blocks[k].at, Need(size), Need(size) + H + MINI);
    BytesExactly(n, p.blocks[k].at, size);
  }

  lemma {:induction false} WrappedInv(p: Pool, k: nat, size: Word)
    requires Inv(p) && k < |p.blocks| - 1 && p.blocks[k].live && size > U32 - 4
    ensures var r := Realloc(p, k, size);
      && r.0 == Some(p.blocks[k].at + H) && Inv(r.1)
      && k < |r.1.blocks| - 1 && r.1.blocks[k] == p.blocks[k]
      && Need(size) <= Pay(r.1.blocks, k) <= Need(size) + H + MINI
  {
    hide Inv, Need, Shrink;
    NeedLeast(size);
    BlockStocked(p, k);
    if !p.blocks[k + 1].live { LastLive(p, k); }
    if Need(size) + H + MINI < Pay(p.blocks, k) {
      ShrinkKeeps(p, k, Need(size));
      ShrinkHead(p, k, Need(size));
    }
  }

  lemma {:induction false} NeedLeast(size: Word)
    ensures size > U32 - 4 ==> Need(size) == MINI
  {
    RtAlignRoundsUp(size);
  }

  lemma {:induction false} BlockStocked(p: Pool, k: nat)
    requires Inv(p) && k < |p.blocks| - 1 && p.blocks[k].live
    ensures Pay(p.blocks, k) >= MINI
  {
    StockedOne(p.blocks, k);
  }

  lemma {:induction false} ShrinkHead(p: Pool, k: nat, keep: nat)
    requires k + 1 < |p.blocks| && (!p.blocks[k + 1].live ==> k + 2 < |p.blocks|)
    ensures k + 1 < |Shrink(p, k, keep).blocks| && Shrink(p, k, keep).blocks[k] == p.blocks[k]
  {
  }

  /** Whether the block keeps its address: the request fits in it, or in it and a free block behind it with something to
      spare, in true arithmetic. */
  ghost predicate StaysAt(p: Pool, k: nat, size: Word)
    requires k + 1 < |p.blocks|
  {
    || Need(size) <= Pay(p.blocks, k)
    || (k + 2 < |p.blocks| && !p.blocks[k + 1].live
        && Pay(p.blocks, k) + Pay(p.blocks, k + 1) > Need(size) + MINI)
  }

  /** Where a reallocated block ends up: at its address exactly if it stays, with exactly the words asked for when it
      grows; otherwise where an allocation of that size puts it, or nowhere if that fails. */
  lemma {:induction false} ReallocPlace(p: Pool, k: nat, size: Word)
    requires Inv(p) && k < |p.blocks| - 1 && p.blocks[k].live && !Overruns(p, k, size)
    ensures var r, x := Realloc(p, k, size), p.blocks[k].at;
      && (StaysAt(p, k, size) <==> r.0 == Some(x + H))
      && (!StaysAt(p, k, size) ==> r.0 == Alloc(p, size).0)
      && (Need(size) > Pay(p.blocks, k) && StaysAt(p, k, size) ==> Live(r.1.blocks, x, Need(size)))
  {
    hide Inv, Grow, Shrink, Alloc, Need, GrowTest, Live;
    LiveAt(p.blocks, k);
    if !p.blocks[k + 1].live { LastLive(p, k); }
    if Need(size) > Pay(p.blocks, k) {
      TestIsTrue(p, k, size);
      if StaysAt(p, k, size) {
        GrownTo(p, k, size);
      } else {
        MovedElsewhere(p, k, size);
      }
    }
  }

  /** Where the branch does not overrun, the wrapped comparison is the true one. */
  lemma {:induction false} TestIsTrue(p: Pool, k: nat, size: Word)
    requires Inv(p) && k < |p.blocks| - 1 && p.blocks[k].live && !Overruns(p, k, size) && Need(size) > Pay(p.blocks, k)
    ensures !p.blocks[k + 1].live ==> k + 2 < |p.blocks|
    ensures !p.blocks[k + 1].live ==>
      (GrowTest(Need(size), Pay(p.blocks, k), Pay(p.blocks, k + 1)) <==> StaysAt(p, k, size))
  {
    if !p.blocks[k + 1].live {
      LastLive(p, k);
      BlockBounds(p, k);
      NeedCovers(size);
      GrowTestExact(Need(size), Pay(p.blocks, k), Pay(p.blocks, k + 1));
    }
  }

  lemma {:induction false} GrownTo(p: Pool, k: nat, size: Word)
    requires Inv(p) && k + 2 < |p.blocks| && p.blocks[k].live && !p.blocks[k + 1].live
    ensures Live(Grow(p, k, Need(size)).blocks, p.blocks[k].at, Need(size))
  {
    hide Need;
    LiveAt(Grow(p, k, Need(size)).blocks, k);
  }

  /** A new block is not the old one. */
  lemma {:induction false} MovedElsewhere(p: Pool, k: nat, size: Word)
    requires Inv(p) && k < |p.blocks| - 1 && p.blocks[k].live
    ensures Moved(p, k, size).0 == Alloc(p, size).0 && Moved(p, k, size).0 != Some(p.blocks[k].at + H)
  {
    hide Inv, Need, Give, Alloc, Live, HasRoom, HasBytes;
    AllocGives(p, size);
    LiveAt(p.blocks, k);
    assert Live(p.blocks, p.blocks[k].at, Pay(p.blocks, k));
  }

  /** A free takes exactly its block out of the live ones. */
  lemma {:induction false} FreeMeans(p: Pool, k: nat)
    requires Inv(p) && k < |p.blocks| - 1 && p.blocks[k].live
    ensures var n := Give(p, k);
      && Inv(n) && OthersKept(p.blocks, n.blocks, p.blocks[k].at) && !Held(n.blocks, p.blocks[k].at)
      && n.peak == p.peak && n.size == p.size
  {
    GiveKeeps(p, k);
    GiveLive(p, k);
    GiveGone(p, k);
  }

  /** `max_used_size` is raised exactly to the most that was in use. */
  lemma {:induction false} PeakMeans(p: Pool, k: nat, size: Word)
    requires Inv(p)
    ensures var n := Alloc(p, size).1; n.size == p.size && n.peak == Max(p.peak, n.size - n.available)
    ensures k < |p.blocks| - 1 && p.blocks[k].live && !Overruns(p, k, size) ==>
      var n := Realloc(p, k, size).1;
      && n.size == p.size
      && n.peak == if StaysAt(p, k, size) then Max(p.peak, n.size - n.available) else Alloc(p, size).1.peak
  {
    hide Heap, Chain, FreeRing, FreePay, Roomy, Stocked, Need, GrowTest, Live;
    if k < |p.blocks| - 1 && p.blocks[k].live && !Overruns(p, k, size) {
      if Need(size) > Pay(p.blocks, k) {
        TestIsTrue(p, k, size);
      } else if Need(size) + H + MINI < Pay(p.blocks, k) {
        NeedCovers(size);
        ShrinkKeeps(p, k, Need(size));
      }
    }
  }

  /** One block of twelve bytes in 4096. */
  ghost function OneBlock(): Pool {
    Pool([Item(0, true), Item(9, false), Item(1018, true)], [9], 4 * 1003, 84, 4096)
  }

  lemma {:induction false} OneBlockInv()
    ensures Inv(OneBlock())
  {
    var b := OneBlock().blocks;
    assert Gap(b, 0) && Gap(b, 1) && Wide(b, 0) && Wide(b, 1) && !FreePair(b, 0) && !FreePair(b, 1);
    assert FreePay(b[1..][1..]) == 0 && FreePay(b[1..]) == 1003 && FreePay(b) == 1003;
    assert forall x :: Item(x, false) in b <==> x == 9 by { assert b[1] == Item(9, false); }
  }

  /** The branch is taken on a wrapped comparison when that block is asked to grow to the largest aligned size but
      two. */
  lemma {:induction false} OverrunHappens()
    ensures Inv(OneBlock()) && OneBlock().blocks[0].live && Overruns(OneBlock(), 0, U32 - 12)
    ensures !Reallocated(OneBlock(), 0, U32 - 12, Realloc(OneBlock(), 0, U32 - 12))
  {
    hide Inv, Realloc, Reallocated;
    OneBlockInv();
    ReallocExactly(OneBlock(), 0, U32 - 12);
  }

  lemma {:induction false} GrownHeader(p: Pool, k: nat, keep: nat)
    requires k + 2 < |p.blocks| && Inv(Grow(p, k, keep))
    ensures p.blocks[k].at + H + keep + H <= p.blocks[k + 2].at
  {
    hide Heap, Chain, FreeRing, FreePay;
    assert Wide(Grow(p, k, keep).blocks, k + 1);
  }

  lemma {:induction false} ReallocKeeps(p: Pool, k: nat, size: Word)
    requires Inv(p) && k < |p.blocks| - 1 && p.blocks[k].live && !Overruns(p, k, size) && size <= U32 - 4
    ensures Reallocated(p, k, size, Realloc(p, k, size))
  {
    hide Inv, Grow, Shrink, Moved, Alloc, Need, Reallocated, GrowTest;
    LiveAt(p.blocks, k);
    if !p.blocks[k + 1].live { LastLive(p, k); }
    if Need(size) > Pay(p.blocks, k) {
      if !p.blocks[k + 1].live && GrowTest(Need(size), Pay(p.blocks, k), Pay(p.blocks, k + 1)) {
        GrowRealloc(p, k, size);
      } else {
        MovedKeeps(p, k, size);
      }
    } else if Need(size) + H + MINI < Pay(p.blocks, k) {
      ShrinkRealloc(p, k, size);
    } else {
      Promised(p, k, size, p, p.blocks[k].at, Pay(p.blocks, k));
    }
  }

  /** The tail block is never free. */
  lemma {:induction false} LastLive(p: Pool, k: nat)
    requires Inv(p) && k < |p.blocks| - 1 && !p.blocks[k + 1].live
    ensures k + 1 < |p.blocks| - 1
  {
  }

  lemma {:induction false} ShrinkRealloc(p: Pool, k: nat, size: Word)
    requires Inv(p) && k < |p.blocks| - 1 && p.blocks[k].live && Need(size) + H <= Pay(p.blocks, k) && size <= U32 - 4
    ensures Reallocated(p, k, size, (Some(p.blocks[k].at + H), Shrink(p, k, Need(size))))
  {
    NeedCovers(size);
    hide Inv, Reallocated, Need;
    var n := Shrink(p, k, Need(size));
    ShrinkKeeps(p, k, Need(size));
    ShrinkLive(p, k, Need(size));
    LiveAt(n.blocks, k);
    Promised(p, k, size, n, p.blocks[k].at, Need(size));
  }

  lemma {:induction false} GrowRealloc(p: Pool, k: nat, size: Word)
    requires Inv(p) && k + 1 < |p.blocks| - 1 && p.blocks[k].live && !p.blocks[k + 1].live && !Wraps(size)
    requires size <= U32 - 4
    requires Need(size) > Pay(p.blocks, k) && GrowTest(Need(size), Pay(p.blocks, k), Pay(p.blocks, k + 1))
    ensures Reallocated(p, k, size, (Some(p.blocks[k].at + H), Grow(p, k, Need(size))))
  {
    hide Inv, Reallocated, FreeRing, Roomy, Heap, Chain;
    var b, need := p.blocks, Need(size);
    GrowInside(p, k, size);
    GrowKeeps(p, k, need);
    ShiftLive(b, k + 1, b[k].at + H + need);
    LiveAt(Grow(p, k, need).blocks, k);
    Promised(p, k, size, Grow(p, k, need), b[k].at, need);
  }

  lemma {:induction false} MovedKeeps(p: Pool, k: nat, size: Word)
    requires Inv(p) && k < |p.blocks| - 1 && p.blocks[k].live && size <= U32 - 4
    ensures Reallocated(p, k, size, Moved(p, k, size))
  {
    hide Inv, Alloc, Need, Give, Granted;
    AllocKeeps(p, size);
    AllocGives(p, size);
    MovedStill(p, k, size);
    var a, n := Alloc(p, size).0, Alloc(p, size).1;
    if a.Some? {
      MovedGives(p, k, size, n, a.value - H, Index(n.blocks, p.blocks[k]));
    } else {
      assert Reallocated(p, k, size, (None, p));
    }
  }

  lemma {:induction false} MovedGives(p: Pool, k: nat, size: Word, n: Pool, x: nat, i: nat)
    requires Inv(p) && Inv(n) && k < |p.blocks| - 1 && p.blocks[k].live && Granted(p, n, x, Need(size))
    requires size <= U32 - 4
    requires i < |n.blocks| - 1 && n.blocks[i] == p.blocks[k]
    ensures Reallocated(p, k, size, (Some(x + H), Give(n, i)))
  {
    GiveKeeps(n, i);
    GiveLive(n, i);
    GiveGone(n, i);
    LiveAt(p.blocks, k);
    hide Inv, Need, Give, Reallocated;
    var m :| Need(size) <= m <= Need(size) + H + MINI - 1 && Live(n.blocks, x, m);
    Promised(p, k, size, Give(n, i), x, m);
  }

  /** Live blocks do not overlap: each ends, payload and all, before the next header. */
  lemma {:induction false} LiveApart(p: Pool, x: nat, n: int, y: nat, m: int)
    requires Inv(p) && Live(p.blocks, x, n) && Live(p.blocks, y, m) && x < y
    ensures 0 <= n && x + H + n <= y && y + H + m <= End(p)
  {
    var b := p.blocks;
    var i :| 0 <= i < |b| - 1 && b[i] == Item(x, true) && Pay(b, i) == n;
    var j :| 0 <= j < |b| - 1 && b[j] == Item(y, true) && Pay(b, j) == m;
    assert Wide(b, i) && Gap(b, j);
    if j < i { Ascending(b, End(p), j, i); }
    if i + 1 < j { Ascending(b, End(p), i + 1, j); }
  }

  /** No header, of a live or a free block or of the tail, lies inside a live payload: what the allocator writes, the
      callers' data does not see. */
  lemma {:induction false} HeadersBeside(p: Pool, i: nat, x: nat, m: int)
    requires Inv(p) && i < |p.blocks| && Live(p.blocks, x, m)
    ensures 0 <= m && (p.blocks[i].at + H <= x + H || x + H + m <= p.blocks[i].at)
  {
    var b := p.blocks;
    var k :| 0 <= k < |b| - 1 && b[k] == Item(x, true) && Pay(b, k) == m;
    assert Wide(b, k);
    if i < k { Ascending(b, End(p), i, k); }
    if k + 1 < i { Ascending(b, End(p), k + 1, i); }
  }

  /** `rt_memheap_init`: one free block and the tail. */
  ghost function Init(size: Word): Pool
    requires size / 4 >= 2 * H
  {
    var s := size - size % 4;
    Pool([Item(0, false), Item(s / 4 - H, true)], [0], s - 8 * H, 8 * H, s)
  }

  lemma {:induction false} InitInv(size: Word)
    requires size / 4 >= 2 * H
    ensures Inv(Init(size)) && forall x, n :: !Live(Init(size).blocks, x, n)
    ensures Init(size).peak == Init(size).size - Init(size).available && Init(size).size == size - size % 4
  {
    var p := Init(size);
    var b := p.blocks;
    assert FreePay(b[1..]) == 0;
    assert Gap(b, 0) && Wide(b, 0) && !FreePair(b, 0);
  }

  /** A new pool of 4096 bytes becomes that one block when twelve bytes are asked for, and refuses a request for all it
      has, which its one free block could hold. */
  lemma {:induction false} OneBlockReached()
    ensures Inv(Init(4096)) && Alloc(Init(4096), 12) == (Some(H), OneBlock())
    ensures Fitting(Init(4096).blocks, Need(4048)) && Alloc(Init(4096), 4048) == (None, Init(4096))
  {
    InitInv(4096);
    var p := Init(4096);
    assert BlockOf(p, 0) == 0 && Pay(p.blocks, 0) == 1012;
    assert FindFit(p, 3, 0) == 0 && Need(12) == 3 && Need(4048) == 1012;
    var c := SetFlag(p.blocks, 0, true);
    assert c == [Item(0, true), Item(1018, true)] && Cut(c, 0, 6) == OneBlock().blocks;
    assert Without(p.free, 0) == [] && [9] + Without(p.free, 0) == [9];
    assert Take(p, 0, 3) == OneBlock();
  }

  /** Calls: a block is named by the word its header starts at. */
  datatype Call = DoAlloc(size: Word) | DoFree(x: nat) | DoRealloc(x: nat, size: Word)

  ghost predicate OverrunsAt(p: Pool, x: nat, size: Word) {
    exists k :: 0 <= k < |p.blocks| - 1 && p.blocks[k] == Item(x, true) && Overruns(p, k, size)
  }

  /** Callers name live blocks, and ask for no growth that overruns the next one. */
  ghost predicate Allowed(p: Pool, c: Call) {
    match c
    case DoAlloc(size) => true
    case DoFree(x) => Held(p.blocks, x)
    case DoRealloc(x, size) => Held(p.blocks, x) && !OverrunsAt(p, x, size)
  }

  lemma {:induction false} LiveIndex(p: Pool, x: nat)
    requires Inv(p) && Held(p.blocks, x)
    ensures Item(x, true) in p.blocks && Index(p.blocks, Item(x, true)) < |p.blocks| - 1
  {
    var b := p.blocks;
    var n :| Live(b, x, n);
    var i :| 0 <= i < |b| - 1 && b[i] == Item(x, true) && Pay(b, i) == n;
    OneStart(b, End(p), i, Index(b, Item(x, true)));
  }

  ghost function Apply(p: Pool, c: Call): Pool
    requires Inv(p) && Allowed(p, c)
  {
    match c
    case DoAlloc(size) => Alloc(p, size).1
    case DoFree(x) => LiveIndex(p, x); Give(p, Index(p.blocks, Item(x, true)))
    case DoRealloc(x, size) =>
      LiveIndex(p, x);
      if size == 0 then Give(p, Index(p.blocks, Item(x, true))) else Realloc(p, Index(p.blocks, Item(x, true)), size).1
  }

  lemma {:induction false} ApplyKeeps(p: Pool, c: Call)
    requires Inv(p) && Allowed(p, c)
    ensures Inv(Apply(p, c))
  {
    match c
    case DoAlloc(size) => AllocKeeps(p, size);
    case DoFree(x) =>
      LiveIndex(p, x);
      GiveKeeps(p, Index(p.blocks, Item(x, true)));
    case DoRealloc(x, size) =>
      LiveIndex(p, x);
      GiveKeeps(p, Index(p.blocks, Item(x, true)));
      ReallocInv(p, Index(p.blocks, Item(x, true)), size);
  }

  ghost predicate Run(p: Pool, calls: seq<Call>, n: Pool)
    decreases |calls|
  {
    if calls == [] then n == p
    else Inv(p) && Allowed(p, calls[0]) && Run(Apply(p, calls[0]), calls[1..], n)
  }

  /** A reallocation keeps the pool unless the growth branch is taken on a wrapped comparison, whatever the request. */
  lemma {:induction false} ReallocInv(p: Pool, k: nat, size: Word)
    requires Inv(p) && k < |p.blocks| - 1 && p.blocks[k].live && !Overruns(p, k, size)
    ensures Inv(Realloc(p, k, size).1)
  {
    hide Inv, Reallocated, Moved, Need, Wraps, Overruns;
    if size <= U32 - 4 {
      ReallocKeeps(p, k, size);
      ReallocatedInv(p, k, size, Realloc(p, k, size));
    } else {
      WrappedInv(p, k, size);
    }
  }

  lemma {:induction false} ReallocatedInv(p: Pool, k: nat, size: Word, r: (Option<nat>, Pool))
    requires k < |p.blocks| && Reallocated(p, k, size, r)
    ensures Inv(r.1)
  {
  }

  /** In every state reachable from a new pool: the blocks tile the pool without two free neighbours, the free ring
      holds exactly the unused blocks once each, and `available_size` is the sum of their payloads. */
  lemma {:induction false} RunKeeps(p: Pool, calls: seq<Call>, n: Pool)
    requires Inv(p) && Run(p, calls, n)
    ensures Inv(n)
    decreases |calls|
  {
    if calls != [] {
      ApplyKeeps(p, calls[0]);
      RunKeeps(Apply(p, calls[0]), calls[1..], n);
    }
  }
}
