/** The small-memory heap (`rt-thread/src/mem.c`): boundary-linked blocks laid over an array of
    32-bit words, first fit from `lfree`, coalescing on free. Pointers are word indices into the heap,
    stored offsets are in bytes. */
module SmallMem {
  import opened KernelTypes
  import opened BlockChain
  import opened BlockWords

  /** Where `rt_smem_init` puts the heap inside the region it is given. */
  datatype Layout = Layout(self: Word, heap: Word, memSize: Word)

  function AlignDown(x: Word): Word {
    x - x % 4
  }

  /** The address arithmetic of `rt_smem_init`; `None` is its failure return. `objSize` is the size of
      the management object, which is placed first. */
  function InitLayout(begin: Word, size: Word, objSize: Word): (r: Option<Layout>)
    requires begin + size + 3 < U32 && begin + objSize + 6 < U32 && objSize > 0
  {
    var self := RtAlign(begin);
    var start: Word := self + objSize;
    var heap := RtAlign(start);
    var end := AlignDown(begin + size);
    if end > 24 && end - 24 >= start then Some(Layout(self, heap, Wrap(end - heap - 24))) else None
  }

  /** The object, two headers and the payload fit inside the region, aligned and in that order, exactly
      when initialisation succeeds; and the payload area is as large as alignment permits. */
  lemma {:induction false} InitLayoutInside(begin: Word, size: Word, objSize: Word)
    requires begin + size + 3 < U32 && begin + objSize + 6 < U32 && objSize > 0
    ensures var r := InitLayout(begin, size, objSize);
      && (r.Some? <==> exists heap :: FitsAt(begin, size, objSize, heap, 0))
      && (r.Some? ==> FitsAt(begin, size, objSize, r.value.heap, r.value.memSize))
      && (r.Some? ==> forall heap, n: nat :: FitsAt(begin, size, objSize, heap, n) ==> n <= r.value.memSize)
  {
    InitLayoutFits(begin, size, objSize);
    var r := InitLayout(begin, size, objSize);
    if r.Some? {
      assert FitsAt(begin, size, objSize, r.value.heap, 0);
    }
    forall heap, n: nat | FitsAt(begin, size, objSize, heap, n) ensures r.Some? && n <= r.value.memSize {
      InitLayoutLargest(begin, size, objSize, heap, n);
    }
  }

  lemma {:induction false} InitLayoutFits(begin: Word, size: Word, objSize: Word)
    requires begin + size + 3 < U32 && begin + objSize + 6 < U32 && objSize > 0
    ensures var r := InitLayout(begin, size, objSize);
      r.Some? ==> FitsAt(begin, size, objSize, r.value.heap, r.value.memSize)
  {
    hide RtAlign, AlignDown, Wrap;
    RtAlignRoundsUp(begin);
    var start: Word := RtAlign(begin) + objSize;
    RtAlignRoundsUp(start);
    var end := AlignDown(begin + size);
    AlignedDown(begin + size);
    if end > 24 && end - 24 >= start {
      NextMultiple(start, end - 24);
      NotWrapped(end - RtAlign(start) - 24);
    }
  }

  lemma {:induction false} AlignedDown(x: Word)
    ensures AlignDown(x) % 4 == 0 && AlignDown(x) <= x
  {
  }

  lemma {:induction false} NotWrapped(x: int)
    requires 0 <= x < U32
    ensures Wrap(x) == x
  {
  }

  lemma {:induction false} InitLayoutLargest(begin: Word, size: Word, objSize: Word, heap: int, n: nat)
    requires begin + size + 3 < U32 && begin + objSize + 6 < U32 && objSize > 0
    requires FitsAt(begin, size, objSize, heap, n)
    ensures InitLayout(begin, size, objSize).Some? && n <= InitLayout(begin, size, objSize).value.memSize
  {
    RtAlignRoundsUp(begin);
    var start: Word := RtAlign(begin) + objSize;
    RtAlignRoundsUp(start);
    NextMultiple(start, heap);
    PreviousMultiple(begin + size, heap + n + 24);
  }

  lemma {:induction false} NextMultiple(x: Word, y: int)
    requires y % 4 == 0 && x <= y && x <= U32 - 4
    ensures RtAlign(x) <= y
  {
    RtAlignRoundsUp(x);
    assert y == 4 * (y / 4) && RtAlign(x) == 4 * (RtAlign(x) / 4);
  }

  lemma {:induction false} PreviousMultiple(x: Word, y: int)
    requires y % 4 == 0 && y <= x
    ensures y <= AlignDown(x)
  {
    assert y == 4 * (y / 4) && AlignDown(x) == 4 * (x / 4);
  }

  /** A word-aligned heap of `n` payload bytes and two headers at `heap`, after the object. */
  ghost predicate FitsAt(begin: Word, size: Word, objSize: Word, heap: int, n: nat) {
    && heap % 4 == 0 && n % 4 == 0
    && RtAlign(begin) + objSize <= heap
    && heap + n + 24 <= begin + size
  }

  /** The payload words an allocation request stands for, after alignment and the minimum. */
  function Need(request: Word): nat {
    Max(RtAlign(request), 12) / 4
  }

  /** A payload with room for the aligned request has room for the request exactly if aligning did not wrap: no payload
      is as large as a request that wraps. */
  lemma {:induction false} NeedBytes(request: Word, words: nat)
    requires Need(request) <= words && 4 * words < U32 - 24
    ensures request <= 4 * words <==> request <= U32 - 4
  {
    RtAlignRoundsUp(request);
  }

  ghost function Peak(h: seq<int>): int {
    if |h| == 0 then 0 else Max(Peak(h[..|h| - 1]), h[|h| - 1])
  }

  lemma {:induction false} PeakLast(h: seq<int>)
    requires h != []
    ensures h[|h| - 1] <= Peak(h)
  {
  }

  lemma {:induction false} PeakPush(h: seq<int>, x: int)
    ensures Peak(h + [x]) == Max(Peak(h), x)
  {
    assert (h + [x])[..|h|] == h;
  }

  /** `now` is `was` with one new payload of at least `n` words at `p`; every other payload is unchanged. */
  ghost predicate Added(was: map<nat, seq<int>>, now: map<nat, seq<int>>, p: nat, n: nat) {
    p !in was && p in now && |now[p]| >= n && now == was[p := now[p]]
  }

  /** Only the payload at `dst` changed, and it now starts with the first `n` words of the one at `src`. */
  ghost predicate Copied(was: map<nat, seq<int>>, now: map<nat, seq<int>>, dst: nat, src: nat, n: nat) {
    && dst in was && dst in now && n <= |now[dst]| == |was[dst]| && src in was && n <= |was[src]|
    && now == was[dst := now[dst]] && now[dst][..n] == was[src][..n]
  }

  /** The payload at `p` became one of at least `n` words at `q` (possibly `p` itself), keeping the first
      min(old, new) words; every other payload is unchanged. */
  ghost predicate Resized(was: map<nat, seq<int>>, now: map<nat, seq<int>>, p: nat, q: nat, n: nat) {
    && p in was && q in now && n <= |now[q]|
    && (q == p || q !in was)
    && now == (was - {p})[q := now[q]]
    && now[q][..Min(n, |was[p]|)] == was[p][..Min(n, |was[p]|)]
  }

  /** A block of `size` bytes keeps its address when resized to `newsize`: no change, or a tail big enough to stand
      alone is cut off. */
  predicate InPlace(size: int, newsize: int) {
    size == newsize || newsize + 12 + 12 < size
  }

  /** The words a resized payload has: exactly those asked for when it stays in place, and when it moves as many as an
      allocation of that size grants. */
  predicate SizedFor(had: nat, has: nat, newsize: Word) {
    if InPlace(4 * had, newsize) then 4 * has == newsize
    else Need(newsize) <= has < Need(newsize) + HDR + MIN
  }

  /** What taking block `k` grants: the words asked for, or the whole block if its rest could not stand alone. */
  lemma {:induction false} TakenWords(b: seq<Item>, end: nat, w: seq<int>, k: nat, need: nat, q: nat)
    requires Chain(b, end) && k < |b| - 1 && Fits(b, end, k, need) && q == b[k].at + HDR
    requires Chain(Carve(b, end, k, need), end) && |w| == end + HDR
    ensures var c := Carve(b, end, k, need);
      && q in Contents(c, w) && need <= |Contents(c, w)[q]| < need + HDR + MIN
      && Extent(c, true) == Extent(b, true) + |Contents(c, w)[q]| + HDR
  {
    hide Extent;
    CarveExtent(b, end, k, need);
    var c := Carve(b, end, k, need);
    assert Gap(b, k) && k < |c| - 1 && c[k] == Item(b[k].at, true);
    assert Gap(c, k);
    LiveAt(c, end, q, k);
    LiveLength(c, end, w, q);
  }

  lemma {:induction false} FoundFits(b: seq<Item>, end: nat, need: nat)
    requires Chain(b, end) && FirstFit(b, end, 0, need) < |b| - 1
    ensures Fits(b, end, FirstFit(b, end, 0, need), need)
  {
  }

  /** The values `used` has taken so far are kept, and new ones follow. */
  ghost predicate Extends(was: seq<int>, now: seq<int>) {
    |was| <= |now| && now[..|was|] == was
  }

  lemma {:induction false} AlignTwice(size: Word)
    ensures RtAlign(RtAlign(size)) == RtAlign(size)
  {
    RtAlignRoundsUp(size);
    RtAlignRoundsUp(RtAlign(size));
  }

  lemma {:induction false} AddedBytes(was: map<nat, seq<int>>, now: map<nat, seq<int>>, q: nat, size: Word)
    requires Added(was, now, q, Need(size)) && RtAlign(size) == size
    ensures q in now && size <= 4 * |now[q]|
  {
  }

  lemma {:induction false} ResizedBytes(
    was: map<nat, seq<int>>, now: map<nat, seq<int>>, p: nat, q: nat, size: Word)
    requires Resized(was, now, p, q, size / 4) && size % 4 == 0
    ensures q in now && size <= 4 * |now[q]|
  {
  }

  /** Allocate, copy, free is a resize. */
  lemma {:induction false} MovedIsResized(c0: map<nat, seq<int>>, c1: map<nat, seq<int>>, c2: map<nat, seq<int>>,
                       p: nat, q: nat, need: nat, n: nat)
    requires p in c0 && n <= need && Added(c0, c1, q, need) && Copied(c1, c2, q, p, Min(|c0[p]|, n))
    ensures p in c2 && Resized(c0, c2 - {p}, p, q, n)
  {
    assert p != q && c1[p] == c0[p];
    assert c2 - {p} == (c0 - {p})[q := c2[q]];
  }

  lemma {:induction false} AddedKeeps(c0: map<nat, seq<int>>, c1: map<nat, seq<int>>, q: nat, n: nat, p: nat)
    requires Added(c0, c1, q, n) && p in c0
    ensures p in c1 && c1[p] == c0[p] && p != q && q in c1 && |c1[q]| >= n
  {
  }

  lemma {:induction false} ShortenIsResized(c: map<nat, seq<int>>, p: nat, n: nat)
    requires p in c && n <= |c[p]|
    ensures Resized(c, Shorten(c, p, n), p, p, n)
  {
    assert Shorten(c, p, n) == (c - {p})[p := c[p][..n]];
  }

  lemma {:induction false} LowestCut(b: seq<Item>, end: nat, k: nat, keep: nat, lf: nat)
    requires Chain(b, end) && k < |b| - 1 && b[k].live && keep + HDR <= Payload(b, end, k) && LowestFree(b, end, lf)
    ensures var p := b[k].at + HDR + keep; LowestFree(Cut(b, k, keep), end, if p < lf then p else lf)
  {
    CutChain(b, end, k, keep);
    var c, f, p := Cut(b, k, keep), FirstFit(b, end, 0, 0), b[k].at + HDR + keep;
    assert f != k;
    Apart(b, end, k, f);
    if f > k { Apart(b, end, k + 1, f); }
    var g := if k < f then k + 1 else f;
    forall i | 0 <= i < g ensures c[i].live { assert i != f && (i > f || !Fits(b, end, i, 0)); }
    LowestFreeIs(c, end, c[g].at, g);
  }

  /** `lf` points at the lowest free block, or at the end marker when there is none. */
  ghost predicate LowestFree(b: seq<Item>, end: nat, lf: nat) {
    Chain(b, end) && lf == b[FirstFit(b, end, 0, 0)].at
  }

  lemma {:induction false} LowestFreeIs(b: seq<Item>, end: nat, lf: nat, k: nat)
    requires Chain(b, end) && k < |b| && lf == b[k].at
    requires k == |b| - 1 || !b[k].live
    requires forall i :: 0 <= i < k ==> b[i].live
    ensures LowestFree(b, end, lf)
  {
    FirstFitUnique(b, end, 0, 0, k);
  }

  lemma {:induction false} LowestAfterDrop(b: seq<Item>, end: nat, k: nat, lf: nat)
    requires Chain(b, end) && 0 < k < |b| - 1 && !b[k - 1].live && LowestFree(b, end, lf)
    ensures LowestFree(Drop(b, k), end, lf)
  {
    DropChain(b, end, k);
    var f := FirstFit(b, end, 0, 0);
    assert Fits(b, end, k - 1, 0) && f <= k - 1;
    forall i | 0 <= i < f ensures Drop(b, k)[i].live { assert !Fits(b, end, i, 0); }
    LowestFreeIs(Drop(b, k), end, lf, f);
  }

  lemma {:induction false} CarveIsCut(b: seq<Item>, end: nat, k: nat, need: nat)
    requires Chain(b, end) && k < |b| - 1 && Payload(b, end, k) >= need
    ensures Payload(b, end, k) >= need + HDR + MIN ==> Carve(b, end, k, need) == SetFlag(Cut(b, k, need), k, true)
    ensures Payload(b, end, k) < need + HDR + MIN ==> Carve(b, end, k, need) == SetFlag(b, k, true)
  {
  }

  /** Where taking block `k`, the first fit, leaves the lowest free block. */
  lemma {:induction false} LowestTaken(b: seq<Item>, end: nat, k: nat, need: nat)
    requires Heap(b, end) && k < |b| - 1 && k == FirstFit(b, end, 0, need)
    ensures Chain(Carve(b, end, k, need), end) && k + 1 < |Carve(b, end, k, need)|
    ensures Carve(b, end, k, need)[k + 1].at >= b[k].at + HDR + need
    ensures FirstFit(b, end, 0, 0) < k ==> LowestFree(Carve(b, end, k, need), end, b[FirstFit(b, end, 0, 0)].at)
    ensures FirstFit(b, end, 0, 0) < k ==> b[FirstFit(b, end, 0, 0)].at < b[k].at
    ensures FirstFit(b, end, 0, 0) >= k ==>
      FirstFit(b, end, 0, 0) == k && forall i :: 0 <= i < k ==> Carve(b, end, k, need)[i].live
  {
    CarveHeap(b, end, k, need);
    var c, f := Carve(b, end, k, need), FirstFit(b, end, 0, 0);
    assert Fits(b, end, k, 0) && f <= k;
    forall i | 0 <= i < f ensures c[i].live { assert !Fits(b, end, i, 0); }
    if f < k {
      LowestFreeIs(c, end, b[f].at, f);
      Ascending(b, end, f, k);
    }
  }

  lemma {:induction false} LowestUnmarked(b: seq<Item>, end: nat, k: nat, lf: nat)
    requires Chain(b, end) && k < |b| - 1 && b[k].live && LowestFree(b, end, lf)
    ensures LowestFree(SetFlag(b, k, false), end, if b[k].at < lf then b[k].at else lf)
  {
    FlagChain(b, end, k, false);
    var c, f := SetFlag(b, k, false), FirstFit(b, end, 0, 0);
    assert f != k;
    var g := if k < f then k else f;
    Apart(b, end, k, f);
    forall i | 0 <= i < g ensures c[i].live { assert !Fits(b, end, i, 0); }
    LowestFreeIs(c, end, c[g].at, g);
  }

  /** Marking one block free leaves free neighbours only next to it. */
  lemma {:induction false} FlaggedShape(b: seq<Item>, end: nat, k: nat)
    requires Heap(b, end) && k < |b| - 1
    ensures PairOnlyAt(SetFlag(b, k, false), k)
  {
    var c := SetFlag(b, k, false);
    forall i | 0 <= i < |c| - 1 && i != k && i + 1 != k ensures !FreePair(c, i) { assert !FreePair(b, i); }
  }

  /** Starting the search at the lowest free block skips nothing. */
  lemma {:induction false} FitFromLowest(b: seq<Item>, end: nat, need: nat)
    requires Chain(b, end)
    ensures FirstFit(b, end, 0, need) == FirstFit(b, end, FirstFit(b, end, 0, 0), need)
  {
    var f := FirstFit(b, end, 0, 0);
    var g := FirstFit(b, end, f, need);
    forall i | 0 <= i < g ensures !Fits(b, end, i, need) {
      if i < f { assert !Fits(b, end, i, 0); }
    }
    FirstFitUnique(b, end, 0, need, g);
  }

  /** Nothing from block `i` on can fit once `i` lies too close to the end. */
  lemma {:induction false} NoFitPast(b: seq<Item>, end: nat, i: nat, need: nat)
    requires Chain(b, end) && i < |b| && b[i].at + HDR + need > end
    ensures FirstFit(b, end, i, need) == |b| - 1
  {
    forall j | i <= j < |b| - 1 ensures !Fits(b, end, j, need) {
      Apart(b, end, i, j);
      assert Gap(b, j);
    }
    FirstFitUnique(b, end, i, need, |b| - 1);
  }

  lemma {:induction false} NoBlockFits(b: seq<Item>, end: nat, need: nat)
    requires Chain(b, end) && need + HDR > end
    ensures FirstFit(b, end, 0, need) == |b| - 1
  {
    NoFitPast(b, end, 0, need);
  }

  lemma {:induction false} SlicePrefix(w: seq<int>, p: nat, e: nat, n: nat)
    requires p <= e <= |w| && n <= e - p
    ensures w[p..e][..n] == w[p..p + n]
  {
  }

  lemma {:induction false} TagParity(self: int, live: bool)
    requires self % 4 == 0
    ensures Tag(self, live) % 2 == 1 <==> live
  {
    assert self == 4 * (self / 4);
  }

  class Heap32 {
    /** Address of the management object; `pool_ptr` of every header holds it, tagged with the used bit. */
    const self: Word
    /** `mem_size_aligned`. */
    const memSize: nat
    /** `heap_ptr`, as words. */
    const mem: array<Word>
    /** The lowest free block, or the end marker. */
    var lfree: nat
    var used: Word
    var max: Word
    /** The blocks in address order, and every value `used` has had. */
    ghost var items: seq<Item>
    ghost var history: seq<int>

    /** Word index of `heap_end`. */
    ghost function End(): nat {
      memSize / 4 + HDR
    }

    ghost predicate Shape()
      reads this, mem
    {
      && self > 0 && self % 4 == 0
      && memSize % 4 == 0 && memSize + 24 < U32
      && Linked(items, End(), self, mem[..])
    }

    ghost predicate Valid()
      reads this, mem
    {
      && Shape()
      && Heap(items, End())
      && LowestFree(items, End(), lfree)
      && used == 4 * Extent(items, true)
      && history != [] && history[|history| - 1] == used && max == Peak(history)
    }

    /** The live payloads: start word to contents. */
    ghost function Live(): map<nat, seq<int>>
      reads this, mem
    {
      Contents(items, mem[..])
    }

    /** `rt_smem_init` on a layout computed by `InitLayout`: one free block and the end marker. */
    constructor (layout: Layout, words: array<Word>)
      requires layout.self > 0 && layout.self % 4 == 0
      requires layout.memSize % 4 == 0 && layout.memSize + 24 < U32
      requires words.Length == layout.memSize / 4 + 6
      modifies words
      ensures Valid() && Live() == map[] && used == 0
      ensures items == [Item(0, false), Item(End(), true)]
      ensures self == layout.self && memSize == layout.memSize && mem == words
    {
      self, memSize, mem := layout.self, layout.memSize, words;
      lfree, used, max := 0, 0, 0;
      items := [Item(0, false), Item(layout.memSize / 4 + 3, true)];
      history := [0];
      new;
      mem[0], mem[1], mem[2] := self, memSize + 12, 0;
      var end := mem[1] / 4;
      mem[end], mem[end + 1], mem[end + 2] := self + 1, memSize + 12, memSize + 12;
      assert Gap(items, 0);
      assert HeaderAt(items, End(), self, mem[..], 0);
      LowestFreeIs(items, End(), 0, 0);
      assert Extent(items, true) == Extent(items[1..], true);
      assert forall p: nat :: !IsLive(items, p);
    }

    /** `MEM_ISUSED`. */
    method IsUsed(m: nat) returns (b: bool)
      requires m < mem.Length
      ensures b <==> mem[m] % 2 == 1
    {
      b := mem[m] % 2 == 1;
    }

    /** The header words of block `i` as the code reads them. */
    lemma {:induction false} Header(i: nat)
      requires Shape() && i < |items|
      ensures items[i].at + 2 < mem.Length
      ensures mem[items[i].at] % 2 == 1 <==> items[i].live
      ensures i < |items| - 1 ==> mem[items[i].at + 1] == 4 * items[i + 1].at && Gap(items, i)
      ensures i == |items| - 1 ==> items[i].at == End() && mem[items[i].at + 1] == 4 * End()
      ensures 0 < i < |items| - 1 ==> mem[items[i].at + 2] == 4 * items[i - 1].at
      ensures i == 0 ==> mem[items[i].at + 2] == 0
    {
      TagParity(self, items[i].live);
      if i < |items| - 1 { assert HeaderAt(items, End(), self, mem[..], i); assert Gap(items, i); }
    }

    /** The four writes both halves of `plug_holes` make: the free block `k` at word `gone` becomes part
        of its free predecessor at word `into`. */
    method Absorb(into: nat, gone: nat, ghost k: nat)
      requires Shape() && 0 < k < |items| - 1
      requires items[k - 1] == Item(into, false) && items[k] == Item(gone, false)
      modifies `lfree, `items, mem
      ensures Shape() && items == Drop(old(items), k)
      ensures old(LowestFree(items, End(), lfree)) ==> LowestFree(items, End(), lfree)
      ensures Live() == old(Live())
    {
      hide Contents, LowestFree, Linked;
      ShapeChain();
      Header(k - 1); Header(k); Header(k + 1);
      ghost var was, lf := mem[..], lfree;
      if lfree == gone { lfree := into; }
      mem[gone] := 0;
      mem[into + 1] := mem[gone + 1];
      mem[mem[gone + 1] / 4 + 2] := 4 * into;
      Unlinked(items, End(), was, mem[..], k, lf, lfree);
      items := Drop(items, k);
    }

    /** `plug_holes` on the free block `k` at word `m`. */
    method PlugHoles(m: nat, ghost k: nat)
      requires Shape() && k < |items| - 1 && items[k] == Item(m, false)
      requires PairOnlyAt(items, k)
      modifies `lfree, `items, mem
      ensures Shape() && Heap(items, End())
      ensures items == Plug(old(items), End(), k)
      ensures old(LowestFree(items, End(), lfree)) ==> LowestFree(items, End(), lfree)
      ensures Live() == old(Live())
    {
      hide Contents, LowestFree, Linked;
      ShapeChain();
      PlugHeap(items, End(), k);
      // plug hole forward
      Header(k); Header(k + 1);
      var nmem := mem[m + 1] / 4;
      var used := IsUsed(nmem);
      if m != nmem && !used && nmem != memSize / 4 + 3 {
        Absorb(m, nmem, k + 1);
      }
      assert items == if old(items)[k + 1].live then old(items) else Drop(old(items), k + 1);
      // plug hole backward
      Header(k);
      ShapeChain();
      if k > 0 { Header(k - 1); Apart(items, End(), k - 1, k); }
      var pmem := mem[m + 2] / 4;
      used := IsUsed(pmem);
      if pmem != m && !used {
        Absorb(pmem, m, k);
      }
    }

    /** What unlinking the free block `k` from its free predecessor keeps. */
    lemma {:induction false} Unlinked(b: seq<Item>, end: nat, w: seq<int>, v: seq<int>, k: nat, lf: nat, lf': nat)
      requires Linked(b, end, self, w) && 0 < k < |b| - 1 && !b[k].live && !b[k - 1].live
      requires |v| == |w| && Gap(b, k - 1) && Gap(b, k)
      requires v[b[k - 1].at + 1] == 4 * b[k + 1].at && v[b[k + 1].at + 2] == 4 * b[k - 1].at
      requires forall j :: 0 <= j < |w| && j != b[k].at && j != b[k - 1].at + 1 && j != b[k + 1].at + 2 ==> v[j] == w[j]
      requires lf' == if lf == b[k].at then b[k - 1].at else lf
      ensures Linked(Drop(b, k), end, self, v)
      ensures Contents(Drop(b, k), v) == Contents(b, w)
      ensures LowestFree(b, end, lf) ==> LowestFree(Drop(b, k), end, lf')
    {
      LinkDrop(b, end, self, w, v, k);
      UntouchedDrop(b, end, w, v, k);
      ContentsFrame(Drop(b, k), end, w, v);
      ContentsDrop(b, end, w, k);
      if LowestFree(b, end, lf) {
        LowestAfterDrop(b, end, k, lf);
        assert lf != b[k].at by {
          var f := FirstFit(b, end, 0, 0);
          assert Fits(b, end, k - 1, 0) && f <= k - 1;
          Ascending(b, end, f, k);
        }
      }
    }

    /** A new value of `used` is recorded and `max` follows. */
    method SetUsed(x: Word)
      requires history != [] && history[|history| - 1] == used && max == Peak(history)
      modifies `used, `max, `history
      ensures used == x && history == old(history) + [x]
      ensures max == Peak(history) == Max(old(max), x)
    {
      used := x;
      if max < used { max := used; }
      PeakPush(history, x);
      history := history + [x];
    }

    /** Used extents are bounded by the heap, so the counter never wraps. */
    lemma {:induction false} UsedFits(b: seq<Item>, k: nat, need: nat)
      requires Shape() && b == items && Heap(items, End()) && k < |items| - 1 && Fits(items, End(), k, need)
      ensures 0 <= 4 * Extent(Carve(items, End(), k, need), true) < U32
    {
      CarveHeap(items, End(), k, need);
      var c := Carve(items, End(), k, need);
      forall i, j | 0 <= i < j < |c| ensures c[i].at <= c[j].at { Ascending(c, End(), i, j); }
      ExtentBounds(c, true);
    }

    /** Write the header of a new free block at word `mem2` behind the block at word `m`. */
    method WriteHeader(m: nat, mem2: nat)
      requires m + 3 <= mem2 && mem2 + 2 < mem.Length && 4 * mem2 < U32
      requires mem2 + 3 <= mem[m + 1] / 4 && mem[m + 1] / 4 + 2 < mem.Length
      modifies mem
      ensures mem[mem2] == self && mem[mem2 + 1] == old(mem[m + 1]) && mem[mem2 + 2] == 4 * m
      ensures mem[m + 1] == 4 * mem2
      ensures old(mem[m + 1]) != memSize + 12 ==> mem[old(mem[m + 1]) / 4 + 2] == 4 * mem2
      ensures forall j :: 0 <= j < mem.Length && !(mem2 <= j < mem2 + 3) && j != m + 1 && j != old(mem[m + 1]) / 4 + 2
                ==> mem[j] == old(mem[j])
    {
      mem[mem2] := self;
      mem[mem2 + 1] := mem[m + 1];
      mem[mem2 + 2] := 4 * m;
      mem[m + 1] := 4 * mem2;
      if mem[mem2 + 1] != memSize + 12 {
        mem[mem[mem2 + 1] / 4 + 2] := 4 * mem2;
      }
    }

    /** Cut block `k` at word `m` after `size` payload bytes and link the new free header. */
    method Split(m: nat, size: Word, ghost k: nat)
      requires Shape() && k < |items| - 1 && items[k].at == m
      requires size % 4 == 0 && size / 4 + HDR <= Payload(items, End(), k)
      modifies `items, mem
      ensures Shape() && items == Cut(old(items), k, size / 4)
      ensures Live() == if old(items[k].live) then Shorten(old(Live()), m + HDR, size / 4) else old(Live())
    {
      Header(k); Header(k + 1);
      ghost var was, keep, nx := mem[..], size / 4, items[k + 1].at;
      ghost var b, live := items, Live();
      if k + 1 < |items| - 1 { Ascending(items, End(), k + 1, |items| - 1); }
      var ptr2 := 4 * m + 12 + size;
      assert ptr2 / 4 == m + HDR + keep;
      WriteHeader(m, ptr2 / 4);
      CutLinked(b, End(), was, mem[..], k, keep, m + HDR);
      items := Cut(b, k, keep);
    }

    /** What writing a free header inside block `k` keeps. */
    lemma {:induction false} CutLinked(b: seq<Item>, end: nat, w: seq<int>, v: seq<int>, k: nat, keep: nat, q: nat)
      requires k < |b| && q == b[k].at + HDR
      requires Linked(b, end, self, w) && k < |b| - 1 && |v| == |w| && keep + HDR <= Payload(b, end, k)
      requires var p := b[k].at + HDR + keep;
        && p + HDR <= b[k + 1].at <= end
        && v[p] == Tag(self, false) && v[p + 1] == 4 * b[k + 1].at && v[p + 2] == 4 * b[k].at
        && v[b[k].at + 1] == 4 * p
        && (k + 1 < |b| - 1 ==> v[b[k + 1].at + 2] == 4 * p)
        && (forall j :: 0 <= j < |w| && !(p <= j < p + HDR) && j != b[k].at + 1 && j != b[k + 1].at + 2 ==>
              v[j] == w[j])
      ensures Linked(Cut(b, k, keep), end, self, v)
      ensures Contents(Cut(b, k, keep), v)
        == if b[k].live then Shorten(Contents(b, w), q, keep) else Contents(b, w)
    {
      LinkCut(b, end, self, w, v, k, keep);
      CutContents(b, end, w, v, k, keep, q);
    }

    lemma {:induction false} CutContents(b: seq<Item>, end: nat, w: seq<int>, v: seq<int>, k: nat, keep: nat, q: nat)
      requires Chain(b, end) && k < |b| - 1 && q == b[k].at + HDR && |v| == |w| == end + HDR
      requires keep + HDR <= Payload(b, end, k)
      requires forall j ::
        0 <= j < |w| && !(q + keep <= j < q + keep + HDR) && j != b[k].at + 1 && j != b[k + 1].at + 2 ==> v[j] == w[j]
      ensures Contents(Cut(b, k, keep), v) == if b[k].live then Shorten(Contents(b, w), q, keep) else Contents(b, w)
    {
      UntouchedCut(b, end, w, v, k, keep);
      ContentsFrame(Cut(b, k, keep), end, w, v);
      if b[k].live { ContentsCut(b, end, w, k, keep); } else { ContentsCutFree(b, end, w, k, keep); }
    }

    /** What writing the tag of block `k` keeps. */
    lemma {:induction false} FlagLinked(b: seq<Item>, end: nat, w: seq<int>, k: nat, live: bool, q: nat)
      requires Linked(b, end, self, w) && k < |b| - 1 && q == b[k].at + HDR <= |w|
      ensures Linked(SetFlag(b, k, live), end, self, w[b[k].at := Tag(self, live)])
      ensures live ==> var c := Contents(SetFlag(b, k, live), w[b[k].at := Tag(self, live)]);
        q in c && Gap(b, k) && |c[q]| == b[k + 1].at - q && c == Contents(b, w)[q := c[q]]
      ensures !live ==> Contents(SetFlag(b, k, live), w[b[k].at := Tag(self, live)]) == Contents(b, w) - {q}
    {
      LinkFlag(b, end, self, w, k, live);
      UntouchedFlag(b, end, w, k, live, Tag(self, live));
      ContentsFlag(b, end, w, k, live);
      ContentsFrame(SetFlag(b, k, live), end, w, w[b[k].at := Tag(self, live)]);
    }

    /** Mark block `k` at word `m` used. */
    method Mark(m: nat, ghost k: nat)
      requires Shape() && k < |items| - 1 && items[k].at == m
      modifies `items, mem
      ensures Shape() && items == SetFlag(old(items), k, true)
      ensures m + HDR <= items[k + 1].at <= End()
      ensures m + HDR in Live() && |Live()[m + HDR]| == items[k + 1].at - m - HDR
      ensures Live() == old(Live())[m + HDR := Live()[m + HDR]]
    {
      Header(k);
      FlagLinked(items, End(), mem[..], k, true, m + HDR);
      ghost var was: seq<int> := mem[..];
      mem[m] := self + 1;
      assert mem[..] == was[m := Tag(self, true)];
      items := SetFlag(items, k, true);
    }

    /** Mark block `k` at word `m` free, and lower `lfree` when it is now the lowest. */
    method Unmark(m: nat, ghost k: nat)
      requires Shape() && k < |items| - 1 && items[k] == Item(m, true) && LowestFree(items, End(), lfree)
      modifies `items, `lfree, mem
      ensures Shape() && items == SetFlag(old(items), k, false) && LowestFree(items, End(), lfree)
      ensures Live() == old(Live()) - {m + HDR}
    {
      hide Linked, Contents, LowestFree, SetFlag;
      Unmarked(m, k);
      ghost var was: seq<int> := mem[..];
      mem[m] := self;
      assert mem[..] == was[m := self];
      items := SetFlag(items, k, false);
      if m < lfree { lfree := m; }
    }

    /** The state with the mark of block `k` cleared. */
    lemma {:induction false} Unmarked(m: nat, k: nat)
      requires Shape() && k < |items| - 1 && items[k] == Item(m, true) && LowestFree(items, End(), lfree)
      ensures m < mem.Length && var c, v: seq<int> := SetFlag(items, k, false), mem[..][m := self];
        && Linked(c, End(), self, v) && LowestFree(c, End(), if m < lfree then m else lfree)
        && Contents(c, v) == Live() - {m + HDR}
    {
      hide Linked, Contents, LowestFree, SetFlag;
      Header(k);
      ShapeChain();
      FlagLinked(items, End(), mem[..], k, false, m + HDR);
      LowestUnmarked(items, End(), k, lfree);
      assert Tag(self, false) == self;
    }

    lemma {:induction false} ShapeChain()
      requires Shape()
      ensures Chain(items, End()) && mem.Length == End() + HDR
    {
    }

    /** The payload of a live block is accounted for in `used`. */
    lemma {:induction false} UsedAtLeast(b: seq<Item>, k: nat)
      requires Heap(b, End()) && k < |b| - 1 && b[k].live && Heap(Release(b, End(), k), End())
      ensures Gap(b, k) && 4 * Extent(b, true) >= 4 * (b[k + 1].at - b[k].at)
    {
      ReleaseExtent(b, End(), k);
      var c := Release(b, End(), k);
      forall i, j | 0 <= i < j < |c| ensures c[i].at <= c[j].at { Ascending(c, End(), i, j); }
      ExtentBounds(c, true);
      assert Gap(b, k);
    }

    /** Move `lfree` up to the next free block. */
    method AdvanceLfree(ghost k: nat)
      requires Shape() && k < |items| && lfree == items[k].at
      requires forall i :: 0 <= i < k ==> items[i].live
      modifies `lfree
      ensures LowestFree(items, End(), lfree)
    {
      ghost var j := k;
      Header(j);
      while mem[lfree] % 2 == 1 && lfree != memSize / 4 + 3
        invariant k <= j < |items| && lfree == items[j].at && lfree < mem.Length
        invariant mem[lfree] % 2 == 1 <==> items[j].live
        invariant forall i :: 0 <= i < j ==> items[i].live
        decreases |items| - j
      {
        Header(j); Header(j + 1);
        lfree := mem[lfree + 1] / 4;
        j := j + 1;
      }
      if j < |items| - 1 { Ascending(items, End(), j, |items| - 1); }
      LowestFreeIs(items, End(), lfree, j);
    }

    /** Split block `k` at word `m` when the rest can stand alone, and account for what is taken. */
    method Reserve(m: nat, size: Word, ghost k: nat)
      requires Valid() && k < |items| - 1 && items[k].at == m && size % 4 == 0
      requires Fits(items, End(), k, size / 4)
      modifies this, mem
      ensures Shape() && lfree == old(lfree) && k < |items| - 1 && items[k].at == m
      ensures Heap(SetFlag(items, k, true), End()) && SetFlag(items, k, true) == Carve(old(items), End(), k, size / 4)
      ensures used == 4 * Extent(Carve(old(items), End(), k, size / 4), true)
      ensures history == old(history) + [used] && max == Peak(history) == Max(old(max), used)
      ensures Live() == old(Live())
    {
      CarveHeap(items, End(), k, size / 4);
      CarveExtent(items, End(), k, size / 4);
      CarveIsCut(items, End(), k, size / 4);
      UsedFits(items, k, size / 4);
      Header(k);
      if mem[m + 1] - (4 * m + 12) >= size + 12 + 12 {
        Split(m, size, k);
        SetUsed(used + (size + 12));
      } else {
        SetUsed(used + (mem[m + 1] - 4 * m));
      }
    }

    /** The body of the search loop once block `k` at word `m` fits: split or take whole, account, mark,
        and move `lfree`. */
    method Take(m: nat, size: Word, ghost k: nat)
      requires Valid() && k < |items| - 1 && items[k].at == m && size % 4 == 0
      requires k == FirstFit(items, End(), 0, size / 4)
      modifies this, mem
      ensures Valid()
      ensures items == Carve(old(items), End(), k, size / 4)
      ensures history == old(history) + [used] && max == Max(old(max), used)
      ensures Added(old(Live()), Live(), m + HDR, size / 4)
    {
      hide Linked, Extent, Peak;
      ShapeChain();
      NotLiveAt(items, End(), k);
      assert m + HDR !in Live();
      LowestTaken(items, End(), k, size / 4);
      Reserve(m, size, k);
      Mark(m, k);
      if m == lfree {
        AdvanceLfree(k);
      }
    }

    /** The search runs only on a heap whose guard can fail: see `SearchNeverStops` for the others. */
    ghost predicate Searchable(request: Word) {
      memSize >= 12 || request == 0 || RtAlign(request) > memSize
    }

    /** The search loop of `rt_smem_alloc`, with its unsigned bound: the word index of the first fit. */
    method Search(size: Word) returns (m: Option<nat>)
      requires Valid() && size % 4 == 0 && 12 <= size && memSize >= 12 && size <= memSize
      ensures m == var k := FirstFit(items, End(), 0, size / 4);
                   if k == |items| - 1 then None else Some(items[k].at)
    {
      var ptr := 4 * lfree;
      ghost var i: nat := FirstFit(items, End(), 0, 0);
      FitFromLowest(items, End(), size / 4);
      while ptr <= Wrap(memSize - size)
        invariant i < |items| && ptr == 4 * items[i].at
        invariant FirstFit(items, End(), 0, size / 4) == FirstFit(items, End(), i, size / 4)
        decreases |items| - i
      {
        Header(i);
        var busy := IsUsed(ptr / 4);
        if !busy && mem[ptr / 4 + 1] - (ptr + 12) >= size {
          return Some(ptr / 4);
        }
        ptr := mem[ptr / 4 + 1];
        i := i + 1;
      }
      NoFitPast(items, End(), i, size / 4);
      return None;
    }

    /** `rt_smem_alloc`. The result is the word index of the payload. */
    method Alloc(request: Word) returns (r: Option<nat>)
      requires Valid() && Searchable(request)
      modifies this, mem
      ensures Valid()
      ensures r.None? <==> request == 0 || FirstFit(old(items), End(), 0, Need(request)) == |old(items)| - 1
      ensures r.None? ==> items == old(items) && mem[..] == old(mem[..]) && unchanged(this)
      ensures r.Some? ==>
        && var k := FirstFit(old(items), End(), 0, Need(request));
        && r.value == old(items)[k].at + HDR
        && items == Carve(old(items), End(), k, Need(request))
      ensures r.Some? ==> history == old(history) + [used] && max == Max(old(max), used)
      ensures r.Some? ==> Added(old(Live()), Live(), r.value, Need(request))
      ensures r.Some? ==> (request <= 4 * |Live()[r.value]| <==> request <= U32 - 4)
      ensures r.Some? ==> Need(request) <= |Live()[r.value]| < Need(request) + HDR + MIN
      ensures r.Some? ==> used == old(used) + 4 * |Live()[r.value]| + 12
    {
      if request == 0 {
        return None;
      }
      var size: Word := RtAlign(request);
      RtAlignRoundsUp(request);
      if size > memSize {
        assert Need(request) > memSize / 4;
        NoBlockFits(items, End(), Need(request));
        return None;
      }
      if size < 12 {
        size := 12;
      }
      assert size / 4 == Need(request);
      r := TakeFirst(size);
      if r.Some? { BytesOf(r.value, request); }
    }

    /** Whether a live payload holds the bytes of the request it was given for. */
    lemma {:induction false} BytesOf(p: nat, request: Word)
      requires Valid() && p in Live() && Need(request) <= |Live()[p]|
      ensures request <= 4 * |Live()[p]| <==> request <= U32 - 4
    {
      hide Linked, Extent, Peak, LowestFree, Need;
      ShapeChain();
      LiveLength(items, End(), mem[..], p);
      LiveAt(items, End(), p, IndexOf(items, p));
      NeedBytes(request, |Live()[p]|);
    }

    /** Search, then take what was found. */
    method TakeFirst(size: Word) returns (r: Option<nat>)
      requires Valid() && size % 4 == 0 && 12 <= size && memSize >= 12 && size <= memSize
      modifies this, mem
      ensures Valid()
      ensures r.None? <==> FirstFit(old(items), End(), 0, size / 4) == |old(items)| - 1
      ensures r.None? ==> items == old(items) && mem[..] == old(mem[..]) && unchanged(this)
      ensures r.Some? ==>
        && var k := FirstFit(old(items), End(), 0, size / 4);
        && r.value == old(items)[k].at + HDR
        && items == Carve(old(items), End(), k, size / 4)
      ensures r.Some? ==> history == old(history) + [used] && max == Max(old(max), used)
      ensures r.Some? ==> Added(old(Live()), Live(), r.value, size / 4)
      ensures r.Some? ==> r.value in Live() && size / 4 <= |Live()[r.value]| < size / 4 + HDR + MIN
      ensures r.Some? ==> used == old(used) + 4 * |Live()[r.value]| + 12
    {
      hide FirstFit, Carve, Added, Extent, Peak, LowestFree, Contents, Shape;
      ghost var live, b := Live(), items;
      ValidChain();
      var m := Search(size);
      if m.None? {
        return None;
      }
      assert Live() == live;
      ghost var k := FirstFit(items, End(), 0, size / 4);
      FoundFits(b, End(), size / 4);
      Take(m.value, size, k);
      ValidChain();
      TakenWords(b, End(), mem[..], k, size / 4, m.value + HDR);
      return Some(m.value + HDR);
    }

    lemma {:induction false} ValidChain()
      requires Valid()
      ensures Chain(items, End()) && |mem[..]| == End() + HDR && used == 4 * Extent(items, true)
    {
    }

    /** `rt_smem_free`. A null pointer is ignored; otherwise `rmem` must be a live payload. */
    method Free(rmem: Option<nat>)
      requires Valid()
      requires rmem.Some? ==> rmem.value in Live()
      modifies this, mem
      ensures Valid()
      ensures rmem.None? ==> unchanged(this) && mem[..] == old(mem[..])
      ensures rmem.Some? ==> Live() == old(Live()) - {rmem.value}
      ensures rmem.Some? ==>
        exists k: nat :: Starts(old(items), rmem.value, k) && items == Release(old(items), End(), k)
      ensures rmem.Some? ==> history == old(history) + [used] && used < old(used) && max == old(max)
      ensures rmem.Some? ==> used == old(used) - 4 * |old(Live())[rmem.value]| - 12
    {
      if rmem.None? {
        return;
      }
      ghost var k := IndexOf(items, rmem.value);
      LiveLength(items, End(), mem[..], rmem.value);
      Give(rmem.value - HDR, k);
      assert Starts(old(items), rmem.value, k);
    }

    /** Free the live block `k` at word `m`. */
    method Give(m: nat, ghost k: nat)
      requires Valid() && k < |items| - 1 && items[k] == Item(m, true)
      modifies this, mem
      ensures Valid()
      ensures Live() == old(Live()) - {m + HDR}
      ensures items == Release(old(items), End(), k)
      ensures history == old(history) + [used] && used < old(used) && max == old(max)
      ensures used == old(used) - 4 * (old(items)[k + 1].at - m)
    {
      hide Linked, Contents, LowestFree, SetFlag, Plug, Extent, Peak;
      GiveFacts(items, k);
      PeakLast(history);
      Header(k);
      Unmark(m, k);
      Header(k);
      var size := mem[m + 1] - 4 * m;
      SetUsed(used - size);
      PlugHoles(m, k);
    }

    /** What freeing block `k` does to the chain and to the bytes in use. */
    lemma {:induction false} GiveFacts(b: seq<Item>, k: nat)
      requires Heap(b, End()) && k < |b| - 1 && b[k].live
      ensures Heap(Release(b, End(), k), End()) && PairOnlyAt(SetFlag(b, k, false), k)
      ensures |SetFlag(b, k, false)| == |b| && SetFlag(b, k, false)[k] == Item(b[k].at, false)
      ensures SetFlag(b, k, false)[k + 1].at == b[k + 1].at
      ensures Gap(b, k) && 4 * Extent(b, true) >= 4 * (b[k + 1].at - b[k].at)
      ensures Extent(Release(b, End(), k), true) == Extent(b, true) - (b[k + 1].at - b[k].at)
    {
      hide Linked, Extent;
      ReleaseHeap(b, End(), k);
      ReleaseExtent(b, End(), k);
      UsedAtLeast(b, k);
      FlaggedShape(b, End(), k);
    }

    /** `rt_memcpy` of whole words between disjoint ranges. */
    method CopyWords(dst: nat, src: nat, n: nat)
      requires dst + n <= mem.Length && src + n <= mem.Length && (dst + n <= src || src + n <= dst)
      modifies mem
      ensures mem[dst..dst + n] == old(mem[src..src + n])
      ensures forall j :: 0 <= j < mem.Length && !(dst <= j < dst + n) ==> mem[j] == old(mem[j])
    {
      for i := 0 to n
        invariant forall j :: 0 <= j < mem.Length && !(dst <= j < dst + i) ==> mem[j] == old(mem[j])
        invariant forall j :: dst <= j < dst + i ==> mem[j] == old(mem[j - dst + src])
      {
        mem[dst + i] := mem[src + i];
      }
    }

    /** Copy the first `n` words of payload `src` over those of payload `dst`. */
    method CopyPayload(dst: nat, src: nat, n: nat)
      requires Valid() && dst in Live() && src in Live() && dst != src
      requires n <= |Live()[dst]| && n <= |Live()[src]|
      modifies mem
      ensures Valid() && items == old(items)
      ensures Copied(old(Live()), Live(), dst, src, n)
    {
      ghost var was: seq<int> := mem[..];
      ghost var kd, ks := IndexOf(items, dst), IndexOf(items, src);
      Ranges(items, kd, ks);
      LiveLength(items, End(), was, src);
      LiveLength(items, End(), was, dst);
      CopyWords(dst, src, n);
      ghost var now: seq<int> := mem[..];
      PayloadWritten(items, End(), was, now, kd, n, dst);
      LiveLength(items, End(), now, dst);
      CopiedWords(items, was, now, dst, src, n);
    }

    lemma {:induction false} CopiedWords(b: seq<Item>, w: seq<int>, v: seq<int>, dst: nat, src: nat, n: nat)
      requires |w| == |v| && dst in Contents(b, v) && dst in Contents(b, w) && src in Contents(b, w)
      requires n <= |Contents(b, v)[dst]| && n <= |Contents(b, w)[src]|
      requires Contents(b, v) == Contents(b, w)[dst := Contents(b, v)[dst]]
      requires dst + n <= |v| && src + n <= |w| && v[dst..dst + n] == w[src..src + n]
      ensures Copied(Contents(b, w), Contents(b, v), dst, src, n)
    {
      SlicePrefix(v, dst, EndOf(b, dst), n);
      SlicePrefix(w, src, EndOf(b, src), n);
    }

    lemma {:induction false} Ranges(b: seq<Item>, kd: nat, ks: nat)
      requires Shape() && b == items && kd < |b| - 1 && ks < |b| - 1 && kd != ks
      ensures Gap(b, kd) && Gap(b, ks)
      ensures b[kd + 1].at <= b[ks].at || b[ks + 1].at <= b[kd].at
      ensures b[kd + 1].at <= End() < mem.Length && b[ks + 1].at <= End() < mem.Length
    {
      if kd < ks { Apart(b, End(), kd + 1, ks); } else { Apart(b, End(), ks + 1, kd); }
      assert Gap(b, kd) && Gap(b, ks);
    }

    lemma {:induction false} OthersUntouched(b: seq<Item>, end: nat, w: seq<int>, v: seq<int>, k: nat, n: nat)
      requires Chain(b, end) && |v| == |w| == end + HDR && k < |b| - 1
      requires Gap(b, k) && b[k].at + HDR + n <= b[k + 1].at && Chain(SetFlag(b, k, false), end)
      requires forall j :: 0 <= j < |w| && !(b[k].at + HDR <= j < b[k].at + HDR + n) ==> v[j] == w[j]
      ensures Untouched(SetFlag(b, k, false), end, w, v)
    {
      var c := SetFlag(b, k, false);
      forall i, j | 0 <= i < |c| - 1 && c[i].live && c[i].at + HDR <= j < c[i + 1].at && j < end ensures w[j] == v[j] {
        Apart(b, end, i + 1, k); Apart(b, end, i, k + 1);
      }
    }

    /** Writing inside one payload keeps every header and every other payload. */
    lemma {:induction false} PayloadWritten(b: seq<Item>, end: nat, w: seq<int>, v: seq<int>, k: nat, n: nat, p: nat)
      requires Linked(b, end, self, w) && |v| == |w| && k < |b| - 1 && b[k].live && p == b[k].at + HDR
      requires Gap(b, k) && b[k].at + HDR + n <= b[k + 1].at
      requires forall j :: 0 <= j < |w| && !(b[k].at + HDR <= j < b[k].at + HDR + n) ==> v[j] == w[j]
      ensures Linked(b, end, self, v)
      ensures p in Contents(b, v) && Contents(b, v) == Contents(b, w)[p := Contents(b, v)[p]]
    {
      forall i | 0 <= i < |b| - 1 ensures HeaderAt(b, end, self, v, i) {
        assert HeaderAt(b, end, self, w, i);
        Apart(b, end, i, k); Apart(b, end, i, k + 1);
      }
      Apart(b, end, |b| - 1, k + 1);
      FlagChain(b, end, k, false);
      OthersUntouched(b, end, w, v, k, n);
      var c := SetFlag(b, k, false);
      ContentsFrame(c, end, w, v);
      ContentsFlag(c, end, v, k, true);
      ContentsFlag(c, end, w, k, true);
      assert SetFlag(c, k, true) == b;
    }

    /** Shrink the live block `k` at word `m` in place, giving back its tail. */
    method Shrink(m: nat, newsize: Word, ghost k: nat)
      requires Valid() && k < |items| - 1 && items[k] == Item(m, true)
      requires newsize % 4 == 0 && newsize / 4 + HDR + MIN < Payload(items, End(), k)
      modifies this, mem
      ensures Valid()
      ensures items == Trim(old(items), End(), k, newsize / 4)
      ensures history == old(history) + [used] && used < old(used) && max == old(max)
      ensures used == old(used) - (4 * Payload(old(items), End(), k) - newsize)
      ensures Live() == Shorten(old(Live()), m + HDR, newsize / 4)
    {
      ghost var b, keep := items, newsize / 4;
      TrimHeap(b, End(), k, keep);
      TrimExtent(b, End(), k, keep);
      TrimUsed(b, k, keep);
      Header(k);
      var size := mem[m + 1] - 4 * m - 12;
      assert size - newsize == 4 * (Payload(b, End(), k) - keep);
      SetUsed(used - (size - newsize));
      CutTail(m, newsize, k);
      PlugHoles(m + HDR + newsize / 4, k + 1);
    }

    /** Make the tail of the live block `k` a free block of its own, lowering `lfree` when it is the lowest. */
    method CutTail(m: nat, newsize: Word, ghost k: nat)
      requires Shape() && Heap(items, End()) && LowestFree(items, End(), lfree)
      requires k < |items| - 1 && items[k] == Item(m, true)
      requires newsize % 4 == 0 && newsize / 4 + HDR <= Payload(items, End(), k)
      modifies `items, `lfree, mem
      ensures Shape() && items == Cut(old(items), k, newsize / 4) && LowestFree(items, End(), lfree)
      ensures PairOnlyAt(items, k + 1) && items[k + 1] == Item(m + HDR + newsize / 4, false)
      ensures Live() == Shorten(old(Live()), m + HDR, newsize / 4)
    {
      CutPairs(items, End(), k, newsize / 4);
      LowestCut(items, End(), k, newsize / 4, lfree);
      var mem2 := m + HDR + newsize / 4;
      Split(m, newsize, k);
      if mem2 < lfree { lfree := mem2; }
    }

    lemma {:induction false} TrimUsed(b: seq<Item>, k: nat, keep: nat)
      requires Heap(b, End()) && k < |b| - 1 && b[k].live && keep + HDR <= Payload(b, End(), k)
      ensures 0 <= Extent(b, true) - (Payload(b, End(), k) - keep)
    {
      TrimHeap(b, End(), k, keep);
      TrimExtent(b, End(), k, keep);
      var c := Trim(b, End(), k, keep);
      forall i, j | 0 <= i < j < |c| ensures c[i].at <= c[j].at { Ascending(c, End(), i, j); }
      ExtentBounds(c, true);
    }

    /** `rt_smem_realloc`. `None` for `rmem` is a null pointer; the size is aligned first, with wrap-around. */
    method Realloc(rmem: Option<nat>, request: Word) returns (r: Option<nat>)
      requires Valid() && Searchable(RtAlign(request))
      requires rmem.Some? ==> rmem.value in Live()
      modifies this, mem
      ensures Valid()
      ensures var n := RtAlign(request);
        && (n > memSize ==> r.None? && unchanged(this) && mem[..] == old(mem[..]))
        && (n == 0 ==> r.None? && Live() == if rmem.Some? then old(Live()) - {rmem.value} else old(Live()))
        && (0 < n <= memSize && r.Some? && rmem.None? ==> Added(old(Live()), Live(), r.value, Need(n)))
        && (0 < n <= memSize && r.Some? && rmem.Some? ==> Resized(old(Live()), Live(), rmem.value, r.value, n / 4))
      ensures var n := RtAlign(request);
        0 < n <= memSize && rmem.Some? && InPlace(4 * |old(Live())[rmem.value]|, n) ==> r == rmem && max == old(max)
      ensures var n := RtAlign(request);
        0 < n <= memSize && (rmem.Some? ==> !InPlace(4 * |old(Live())[rmem.value]|, n)) ==>
          && (r.None? <==> FirstFit(old(items), End(), 0, Need(n)) == |old(items)| - 1)
          && (r.None? ==> unchanged(this) && mem[..] == old(mem[..]))
      ensures r.Some? ==> r.value in Live() && request <= 4 * |Live()[r.value]|
      ensures r.Some? && rmem.Some? ==>
        SizedFor(|old(Live())[rmem.value]|, |Live()[r.value]|, RtAlign(request))
        && used == old(used) + 4 * |Live()[r.value]| - 4 * |old(Live())[rmem.value]|
      ensures r.Some? && rmem.None? ==>
        Need(RtAlign(request)) <= |Live()[r.value]| < Need(RtAlign(request)) + HDR + MIN
        && used == old(used) + 4 * |Live()[r.value]| + 12
      ensures r.Some? && rmem.Some? && 4 * |old(Live())[rmem.value]| == RtAlign(request) ==>
        unchanged(this) && mem[..] == old(mem[..])
      ensures r.None? && request != 0 ==> (Live() == old(Live()) <==> rmem.None? || request <= U32 - 4)
      ensures Extends(old(history), history)
    {
      hide FirstFit, Carve, Added, Extent, Peak, LowestFree, Contents, Shape, Resized, Linked, Valid, RtAlign, Need,
        SizedFor;
      var newsize := RtAlign(request);
      RtAlignRoundsUp(request);
      AlignTwice(request);
      if newsize > memSize {
        return None;
      } else if newsize == 0 {
        Free(rmem);
        return None;
      }
      if rmem.None? {
        ghost var was := Live();
        r := Alloc(newsize);
        if r.Some? { AddedBytes(was, Live(), r.value, newsize); }
        return;
      }
      ghost var was := Live();
      r := ResizeBlock(rmem.value, newsize);
      if r.Some? { ResizedBytes(was, Live(), rmem.value, r.value, newsize); }
    }

    /** `rt_smem_realloc` on an existing block: keep, shrink in place, or move. */
    method ResizeBlock(p: nat, newsize: Word) returns (r: Option<nat>)
      requires Valid() && p in Live() && newsize % 4 == 0 && 0 < newsize <= memSize && Searchable(newsize)
      requires RtAlign(newsize) == newsize
      modifies this, mem
      ensures Valid()
      ensures r.Some? ==> Resized(old(Live()), Live(), p, r.value, newsize / 4)
      ensures InPlace(4 * |old(Live())[p]|, newsize) ==> r == Some(p) && max == old(max)
      ensures !InPlace(4 * |old(Live())[p]|, newsize) ==>
        && (r.None? <==> FirstFit(old(items), End(), 0, Need(newsize)) == |old(items)| - 1)
        && (r.None? ==> unchanged(this) && mem[..] == old(mem[..]))
      ensures Extends(old(history), history)
      ensures r.Some? ==> r.value in Live() && SizedFor(|old(Live())[p]|, |Live()[r.value]|, newsize)
      ensures r.Some? ==> used == old(used) + 4 * |Live()[r.value]| - 4 * |old(Live())[p]|
      ensures 4 * |old(Live())[p]| == newsize ==> unchanged(this) && mem[..] == old(mem[..])
    {
      hide FirstFit, Added, Extent, Peak, LowestFree, Valid, Resized, Shorten, Contents, Need, RtAlign;
      ghost var live, n := Live(), newsize / 4;
      ghost var k;
      var size: Word;
      size, k := SizeOf(p);
      if newsize <= size { ShortenIsResized(live, p, n); ShortenTo(live, p, n); }
      if size == newsize {
        SameSize(live, p, n);
        return Some(p);
      }
      if newsize + 12 + 12 < size {
        Shrink(p - HDR, newsize, k);
        return Some(p);
      }
      r := Move(p, newsize, size);
    }

    lemma {:induction false} ShortenTo(live: map<nat, seq<int>>, p: nat, n: nat)
      requires p in live && n <= |live[p]|
      ensures p in Shorten(live, p, n) && |Shorten(live, p, n)[p]| == n
    {
    }

    lemma {:induction false} SameSize(live: map<nat, seq<int>>, p: nat, n: nat)
      requires p in live && |live[p]| == n
      ensures Shorten(live, p, n) == live
    {
      assert live[p][..n] == live[p];
    }

    /** The payload bytes of a live block, from its header. */
    method SizeOf(p: nat) returns (size: Word, ghost k: nat)
      requires Valid() && p in Live()
      ensures p >= HDR && k < |items| - 1 && items[k] == Item(p - HDR, true)
      ensures size == 4 * |Live()[p]| == 4 * Payload(items, End(), k)
    {
      k := IndexOf(items, p);
      var m := p - HDR;
      Header(k);
      LiveAt(items, End(), p, k);
      size := mem[m + 1] - 4 * m - 12;
    }

    /** Allocate a new block, copy what both can hold, and free the old one. */
    method Move(p: nat, newsize: Word, size: Word) returns (r: Option<nat>)
      requires Valid() && p in Live() && size == 4 * |Live()[p]|
      requires newsize % 4 == 0 && 0 < newsize <= memSize && Searchable(newsize) && RtAlign(newsize) == newsize
      modifies this, mem
      ensures Valid()
      ensures r.None? <==> FirstFit(old(items), End(), 0, Need(newsize)) == |old(items)| - 1
      ensures r.None? ==> unchanged(this) && mem[..] == old(mem[..])
      ensures r.Some? ==> Resized(old(Live()), Live(), p, r.value, newsize / 4)
      ensures Extends(old(history), history)
      ensures r.Some? ==> r.value in Live() && Need(newsize) <= |Live()[r.value]| < Need(newsize) + HDR + MIN
      ensures r.Some? ==> used == old(used) + 4 * |Live()[r.value]| - 4 * |old(Live())[p]|
    {
      hide FirstFit, Carve, Extent, Peak, LowestFree, Contents, Shape, Heap, Linked;
      ghost var live0 := Live();
      var nmem := Alloc(newsize);
      if nmem.None? {
        return None;
      }
      var q := nmem.value;
      ghost var live1 := Live();
      AddedKeeps(live0, live1, q, Need(newsize), p);
      var count := Min(size, newsize) / 4;
      assert count == Min(|live0[p]|, newsize / 4);
      CopyPayload(q, p, count);
      MovedIsResized(live0, live1, Live(), p, q, Need(newsize), newsize / 4);
      Free(Some(p));
      return Some(q);
    }
  }

  /** The search cursor after `n` steps of following `next` words. */
  ghost function Cursor(w: seq<int>, ptr: int, n: nat): int
    decreases n
  {
    if n == 0 || !(0 <= ptr && ptr / 4 + 1 < |w|) then ptr else Cursor(w, w[ptr / 4 + 1], n - 1)
  }

  /** On a heap of fewer than 12 payload bytes the search guard wraps around: for a request that passes
      the size test the loop condition holds and no block fits, after any number of steps. */
  lemma {:induction false} SearchNeverStops(h: Heap32, request: Word, n: nat)
    requires h.Valid() && !h.Searchable(request)
    ensures var size: Word := Max(RtAlign(request), 12); var c := Cursor(h.mem[..], 4 * h.lfree, n);
      && 0 <= c <= Wrap(h.memSize - size) && c / 4 + 1 < h.mem.Length
      && !(h.mem[c / 4] % 2 == 0 && Wrap(h.mem[c / 4 + 1] - (c + 12)) >= size)
  {
    hide Linked, Extent, Peak, NoFreePair, Cursor, RtAlign;
    var k := FirstFit(h.items, h.End(), 0, 0);
    CursorStays(h, k, n);
    assert Wrap(h.memSize - 12) == h.memSize - 12 + U32;
  }

  lemma {:induction false} CursorStays(h: Heap32, k: nat, n: nat)
    requires h.Valid() && h.memSize < 12 && k < |h.items|
    ensures var c := Cursor(h.mem[..], 4 * h.items[k].at, n);
      && 0 <= c <= 4 * h.End() && c / 4 + 1 < h.mem.Length
      && !(h.mem[c / 4] % 2 == 0 && Wrap(h.mem[c / 4 + 1] - (c + 12)) >= 12)
    decreases n
  {
    TwoItems(h.items, h.End());
    h.Header(k);
    h.Header(1);
    if n > 0 { CursorStays(h, 1, n - 1); }
  }

  lemma {:induction false} TwoItems(b: seq<Item>, end: nat)
    requires Chain(b, end) && end < 6
    ensures |b| == 2
  {
    Ascending(b, end, 0, 1);
    if |b| > 2 { Ascending(b, end, 1, 2); }
  }
}
