/** The abstract block chain of the small-memory heap: what `rt_smem_alloc`, `rt_smem_realloc` and
    `rt_smem_free` do to the sequence of blocks, independently of how headers are stored. */
module BlockChain {

  /** A block header: its word index in the heap and whether the block is in use.
      A block extends to the next header; the last item is the end marker. */
  datatype Item = Item(at: nat, live: bool)

  /** `SIZEOF_STRUCT_MEM` and `MIN_SIZE_ALIGNED`, in words. */
  const HDR: nat := 3
  const MIN: nat := 3

  /** Block `i` has room for its own header before the next one, which lies within the heap. */
  ghost predicate Gap(b: seq<Item>, i: nat)
    requires i + 1 < |b|
  {
    b[i].at + HDR <= b[i + 1].at <= b[|b| - 1].at
  }

  ghost predicate Chain(b: seq<Item>, end: nat) {
    && |b| >= 2
    && b[0].at == 0
    && b[|b| - 1] == Item(end, true)
    && forall i :: 0 <= i < |b| - 1 ==> Gap(b, i)
  }

  lemma {:induction false} Ascending(b: seq<Item>, end: nat, i: nat, j: nat)
    requires Chain(b, end) && i < j < |b|
    ensures b[i].at + HDR <= b[j].at <= end
    decreases |b| - i
  {
    assert Gap(b, i);
    if i + 1 < j { Ascending(b, end, i + 1, j); }
    if j < |b| - 1 { assert Gap(b, j); Ascending(b, end, j, |b| - 1); }
  }

  ghost predicate FreePair(b: seq<Item>, i: nat)
    requires i + 1 < |b|
  {
    !b[i].live && !b[i + 1].live
  }

  ghost predicate NoFreePair(b: seq<Item>) {
    forall i :: 0 <= i < |b| - 1 ==> !FreePair(b, i)
  }

  ghost predicate Heap(b: seq<Item>, end: nat) {
    Chain(b, end) && NoFreePair(b)
  }

  /** The payload size of block `k`, in words. */
  ghost function Payload(b: seq<Item>, end: nat, k: nat): nat
    requires Chain(b, end) && k < |b| - 1
  {
    assert Gap(b, k);
    b[k + 1].at - b[k].at - HDR
  }

  ghost predicate Fits(b: seq<Item>, end: nat, k: nat, need: nat)
    requires Chain(b, end) && k < |b| - 1
  {
    !b[k].live && Payload(b, end, k) >= need
  }

  /** First fit from block `from` on: the lowest free block with at least `need` payload words,
      or the end marker. With `need == 0` this is the lowest free block. */
  ghost function FirstFit(b: seq<Item>, end: nat, from: nat, need: nat): (k: nat)
    requires Chain(b, end) && from < |b|
    ensures from <= k < |b|
    ensures k < |b| - 1 ==> Fits(b, end, k, need)
    ensures forall i :: from <= i < k ==> !Fits(b, end, i, need)
    decreases |b| - from
  {
    if from == |b| - 1 || Fits(b, end, from, need) then from else FirstFit(b, end, from + 1, need)
  }

  lemma {:induction false} FirstFitUnique(b: seq<Item>, end: nat, from: nat, need: nat, k: nat)
    requires Chain(b, end) && from <= k < |b|
    requires k < |b| - 1 ==> Fits(b, end, k, need)
    requires forall i :: from <= i < k ==> !Fits(b, end, i, need)
    ensures FirstFit(b, end, from, need) == k
    decreases k - from
  {
    if from < k { FirstFitUnique(b, end, from + 1, need, k); }
  }

  /** Take block `k` for `need` words: split when the rest can hold a header and a minimal block. */
  ghost function Carve(b: seq<Item>, end: nat, k: nat, need: nat): seq<Item>
    requires Chain(b, end) && k < |b| - 1
  {
    if Payload(b, end, k) >= need + HDR + MIN
    then b[..k] + [Item(b[k].at, true), Item(b[k].at + HDR + need, false)] + b[k + 1..]
    else SetFlag(b, k, true)
  }

  ghost function Drop(b: seq<Item>, k: nat): seq<Item>
    requires k < |b|
  {
    b[..k] + b[k + 1..]
  }

  /** `plug_holes`: join block `k` with a free successor, then with a free predecessor. */
  ghost function Plug(b: seq<Item>, end: nat, k: nat): seq<Item>
    requires Chain(b, end) && k < |b| - 1
  {
    var f := if b[k + 1].live then b else Drop(b, k + 1);
    if k > 0 && !f[k - 1].live then Drop(f, k) else f
  }

  ghost function SetFlag(b: seq<Item>, k: nat, live: bool): seq<Item>
    requires k < |b|
  {
    b[k := Item(b[k].at, live)]
  }

  ghost function Release(b: seq<Item>, end: nat, k: nat): seq<Item>
    requires Chain(b, end) && k < |b| - 1
  {
    FlagChain(b, end, k, false);
    Plug(SetFlag(b, k, false), end, k)
  }

  /** `rt_smem_realloc` giving back the tail of block `k` beyond `keep` payload words, before plugging. */
  ghost function Cut(b: seq<Item>, k: nat, keep: nat): seq<Item>
    requires k < |b|
  {
    b[..k + 1] + [Item(b[k].at + HDR + keep, false)] + b[k + 1..]
  }

  ghost function Trim(b: seq<Item>, end: nat, k: nat, keep: nat): seq<Item>
    requires Chain(b, end) && k < |b| - 1 && keep + HDR <= Payload(b, end, k)
  {
    CutChain(b, end, k, keep);
    Plug(Cut(b, k, keep), end, k + 1)
  }

  lemma {:induction false} CutChain(b: seq<Item>, end: nat, k: nat, keep: nat)
    requires Chain(b, end) && k < |b| - 1 && keep + HDR <= Payload(b, end, k)
    ensures Chain(Cut(b, k, keep), end)
  {
    var c := Cut(b, k, keep);
    assert Gap(b, k);
    forall i | 0 <= i < |c| - 1 ensures Gap(c, i) {
      if i < k { assert Gap(b, i); }
      if i > k + 1 { assert Gap(b, i - 1); }
    }
  }

  lemma {:induction false} DropChain(b: seq<Item>, end: nat, k: nat)
    requires Chain(b, end) && 0 < k < |b| - 1
    ensures Chain(Drop(b, k), end)
  {
    var d := Drop(b, k);
    assert Gap(b, k) && Gap(b, k - 1);
    forall i | 0 <= i < |d| - 1 ensures Gap(d, i) {
      if i < k - 1 { assert Gap(b, i); }
      if i >= k { assert Gap(b, i + 1); }
    }
  }

  lemma {:induction false} FlagChain(b: seq<Item>, end: nat, k: nat, live: bool)
    requires Chain(b, end) && k < |b| - 1
    ensures Chain(SetFlag(b, k, live), end)
  {
    var c := SetFlag(b, k, live);
    forall i | 0 <= i < |c| - 1 ensures Gap(c, i) { assert Gap(b, i); }
  }

  /** Free neighbours may occur only at block `k`. */
  ghost predicate PairOnlyAt(b: seq<Item>, k: nat) {
    forall i :: 0 <= i < |b| - 1 && i != k && i + 1 != k ==> !FreePair(b, i)
  }

  lemma {:induction false} JoinNext(b: seq<Item>, end: nat, k: nat)
    requires Chain(b, end) && k + 1 < |b| - 1 && !b[k].live && !b[k + 1].live && PairOnlyAt(b, k)
    ensures Chain(Drop(b, k + 1), end) && PairOnlyAt(Drop(b, k + 1), k) && Drop(b, k + 1)[k + 1].live
  {
    DropChain(b, end, k + 1);
    var f := Drop(b, k + 1);
    assert !FreePair(b, k + 1);
    forall i | 0 <= i < |f| - 1 && i != k && i + 1 != k ensures !FreePair(f, i) {
      assert !FreePair(b, if i < k then i else i + 1);
    }
  }

  lemma {:induction false} JoinPrev(b: seq<Item>, end: nat, k: nat)
    requires Chain(b, end) && 0 < k < |b| - 1 && !b[k].live && !b[k - 1].live && b[k + 1].live && PairOnlyAt(b, k)
    ensures Heap(Drop(b, k), end)
  {
    DropChain(b, end, k);
    var f := Drop(b, k);
    forall i | 0 <= i < |f| - 1 ensures !FreePair(f, i) {
      if i < k - 1 { assert !FreePair(b, i); }
      if i >= k { assert !FreePair(b, i + 1); }
    }
  }

  /** Plugging one free block whose free neighbours are isolated restores the heap shape. */
  lemma {:induction false} PlugHeap(b: seq<Item>, end: nat, k: nat)
    requires Chain(b, end) && k < |b| - 1 && !b[k].live && PairOnlyAt(b, k)
    ensures Heap(Plug(b, end, k), end)
  {
    var f := if b[k + 1].live then b else Drop(b, k + 1);
    if !b[k + 1].live { JoinNext(b, end, k); }
    if k > 0 && !f[k - 1].live {
      JoinPrev(f, end, k);
    } else {
      forall i | 0 <= i < |f| - 1 ensures !FreePair(f, i) {
        assert i == k || i + 1 == k || !FreePair(f, i);
      }
    }
  }

  lemma {:induction false} CarveHeap(b: seq<Item>, end: nat, k: nat, need: nat)
    requires Heap(b, end) && k < |b| - 1 && Fits(b, end, k, need)
    ensures Heap(Carve(b, end, k, need), end)
  {
    assert !FreePair(b, k);
    var c := Carve(b, end, k, need);
    if Payload(b, end, k) >= need + HDR + MIN {
      CutChain(b, end, k, need);
      var d := Cut(b, k, need);
      assert c == SetFlag(d, k, true);
      FlagChain(d, end, k, true);
      forall i | 0 <= i < |c| - 1 ensures !FreePair(c, i) {
        assert i < k ==> !FreePair(b, i);
        assert i > k + 1 ==> !FreePair(b, i - 1);
      }
    } else {
      FlagChain(b, end, k, true);
      forall i | 0 <= i < |c| - 1 ensures !FreePair(c, i) {
        assert !FreePair(b, i);
      }
    }
  }

  lemma {:induction false} ReleaseHeap(b: seq<Item>, end: nat, k: nat)
    requires Heap(b, end) && k < |b| - 1
    ensures Heap(Release(b, end, k), end)
  {
    FlagChain(b, end, k, false);
    var c := SetFlag(b, k, false);
    forall i | 0 <= i < |c| - 1 && i != k && i + 1 != k ensures !FreePair(c, i) {
      assert !FreePair(b, i);
    }
    PlugHeap(c, end, k);
  }

  lemma {:induction false} CutPairs(b: seq<Item>, end: nat, k: nat, keep: nat)
    requires Heap(b, end) && k < |b| - 1 && b[k].live && keep + HDR <= Payload(b, end, k)
    ensures Chain(Cut(b, k, keep), end) && PairOnlyAt(Cut(b, k, keep), k + 1)
    ensures Cut(b, k, keep)[k + 1] == Item(b[k].at + HDR + keep, false)
  {
    CutChain(b, end, k, keep);
    var c := Cut(b, k, keep);
    forall i | 0 <= i < |c| - 1 && i != k + 1 && i + 1 != k + 1 ensures !FreePair(c, i) {
      assert !FreePair(b, if i < k then i else i - 1);
    }
  }

  lemma {:induction false} TrimHeap(b: seq<Item>, end: nat, k: nat, keep: nat)
    requires Heap(b, end) && k < |b| - 1 && b[k].live && keep + HDR <= Payload(b, end, k)
    ensures Heap(Trim(b, end, k, keep), end)
  {
    CutPairs(b, end, k, keep);
    PlugHeap(Cut(b, k, keep), end, k + 1);
  }

  /** Round trip: freeing what was just allocated restores the chain exactly. */
  lemma {:induction false} ReleaseUndoesCarve(b: seq<Item>, end: nat, k: nat, need: nat)
    requires Heap(b, end) && k < |b| - 1 && Fits(b, end, k, need)
    ensures Chain(Carve(b, end, k, need), end) && k < |Carve(b, end, k, need)| - 1
    ensures Release(Carve(b, end, k, need), end, k) == b
  {
    CarveHeap(b, end, k, need);
    var c := Carve(b, end, k, need);
    assert !FreePair(b, k);
    if k > 0 { assert !FreePair(b, k - 1); }
    FlagChain(c, end, k, false);
    var d := SetFlag(c, k, false);
    if Payload(b, end, k) >= need + HDR + MIN {
      assert d[k + 1] == Item(b[k].at + HDR + need, false);
      assert Drop(d, k + 1) == b;
      assert Plug(d, end, k) == b;
    } else {
      assert d == b;
    }
  }

  /** The same for the block a caller can name: the only block whose header is where the carved one is. */
  lemma {:induction false} FreeAfterAlloc(b: seq<Item>, end: nat, k: nat, need: nat, j: nat)
    requires Heap(b, end) && k < |b| - 1 && Fits(b, end, k, need)
    requires Chain(Carve(b, end, k, need), end) && j < |Carve(b, end, k, need)| - 1
    requires Carve(b, end, k, need)[j].at == b[k].at
    ensures Release(Carve(b, end, k, need), end, j) == b
  {
    ReleaseUndoesCarve(b, end, k, need);
    var c := Carve(b, end, k, need);
    if j < k { Ascending(c, end, j, k); }
    if k < j { Ascending(c, end, k, j); }
  }

  /** The header-inclusive extents of the blocks whose `live` flag equals `live`. */
  ghost function Extent(b: seq<Item>, live: bool): int {
    if |b| < 2 then 0
    else (if b[0].live == live then b[1].at - b[0].at else 0) + Extent(b[1..], live)
  }

  lemma {:induction false} ExtentSplit(b: seq<Item>, k: nat, live: bool)
    requires k < |b|
    ensures Extent(b, live) == Extent(b[..k + 1], live) + Extent(b[k..], live)
  {
    if k == 0 {
      assert b[0..] == b;
    } else {
      ExtentSplit(b[1..], k - 1, live);
      assert b[1..][..k] == b[..k + 1][1..];
      assert b[1..][k - 1..] == b[k..];
    }
  }

  /** Used plus free extents always cover the whole heap. */
  lemma {:induction false} ExtentsTile(b: seq<Item>)
    requires |b| >= 1
    ensures Extent(b, true) + Extent(b, false) == b[|b| - 1].at - b[0].at
  {
    if |b| >= 2 { ExtentsTile(b[1..]); }
  }

  /** The contribution of block `k` is separated from the blocks on either side. */
  lemma {:induction false} ExtentAround(b: seq<Item>, k: nat, live: bool)
    requires k + 1 < |b|
    ensures Extent(b, live) == Extent(b[..k + 1], live)
                            + (if b[k].live == live then b[k + 1].at - b[k].at else 0)
                            + Extent(b[k + 1..], live)
  {
    ExtentSplit(b, k, live);
    assert b[k..][1..] == b[k + 1..];
  }

  /** An extent does not depend on the flag of the last item, only on its position. */
  lemma {:induction false} ExtentLast(a: seq<Item>, b: seq<Item>, live: bool)
    requires |a| == |b| >= 1 && a[..|a| - 1] == b[..|b| - 1] && a[|a| - 1].at == b[|b| - 1].at
    ensures Extent(a, live) == Extent(b, live)
  {
    if |a| >= 2 {
      assert a[0] == a[..|a| - 1][0] == b[..|b| - 1][0] == b[0];
      assert a[1..][..|a| - 2] == a[..|a| - 1][1..] == b[..|b| - 1][1..] == b[1..][..|b| - 2];
      if |a| > 2 { assert a[1] == a[..|a| - 1][1] == b[..|b| - 1][1] == b[1]; }
      ExtentLast(a[1..], b[1..], live);
    }
  }

  lemma {:induction false} SetFlagExtent(b: seq<Item>, k: nat, live: bool)
    requires k + 1 < |b|
    ensures Extent(SetFlag(b, k, live), true)
         == Extent(b, true) + (if live then b[k + 1].at - b[k].at else 0)
                            - (if b[k].live then b[k + 1].at - b[k].at else 0)
  {
    var c := SetFlag(b, k, live);
    ExtentAround(b, k, true);
    ExtentAround(c, k, true);
    assert c[k + 1..] == b[k + 1..];
    assert c[..k + 1][..k] == b[..k + 1][..k];
    ExtentLast(c[..k + 1], b[..k + 1], true);
  }

  /** Merging a free block into its free predecessor changes no used extent. */
  lemma {:induction false} DropExtent(b: seq<Item>, k: nat)
    requires 0 < k && k + 1 < |b| && !b[k].live && !b[k - 1].live
    ensures Extent(Drop(b, k), true) == Extent(b, true)
  {
    var d := Drop(b, k);
    ExtentAround(b, k - 1, true);
    assert b[k..][1..] == b[k + 1..];
    ExtentAround(d, k - 1, true);
    assert d[..k] == b[..k];
    assert d[k..] == b[k + 1..];
  }

  lemma {:induction false} PlugExtent(b: seq<Item>, end: nat, k: nat)
    requires Chain(b, end) && k < |b| - 1 && !b[k].live
    ensures Extent(Plug(b, end, k), true) == Extent(b, true)
  {
    var f := if b[k + 1].live then b else Drop(b, k + 1);
    if !b[k + 1].live { DropExtent(b, k + 1); }
    if k > 0 && !f[k - 1].live { DropExtent(f, k); }
  }

  lemma {:induction false} CarveExtent(b: seq<Item>, end: nat, k: nat, need: nat)
    requires Chain(b, end) && k < |b| - 1 && Fits(b, end, k, need)
    ensures Extent(Carve(b, end, k, need), true) == Extent(b, true)
         + (if Payload(b, end, k) >= need + HDR + MIN then need + HDR else Payload(b, end, k) + HDR)
  {
    var c := Carve(b, end, k, need);
    if Payload(b, end, k) >= need + HDR + MIN {
      ExtentAround(b, k, true);
      ExtentAround(c, k, true);
      assert c[k + 1..][1..] == b[k + 1..];
      ExtentLast(c[..k + 1], b[..k + 1], true);
    } else {
      SetFlagExtent(b, k, true);
    }
  }

  lemma {:induction false} ReleaseExtent(b: seq<Item>, end: nat, k: nat)
    requires Chain(b, end) && k < |b| - 1 && b[k].live
    ensures Extent(Release(b, end, k), true) == Extent(b, true) - (Payload(b, end, k) + HDR)
  {
    FlagChain(b, end, k, false);
    SetFlagExtent(b, k, false);
    PlugExtent(SetFlag(b, k, false), end, k);
  }

  lemma {:induction false} TrimExtent(b: seq<Item>, end: nat, k: nat, keep: nat)
    requires Chain(b, end) && k < |b| - 1 && b[k].live && keep + HDR <= Payload(b, end, k)
    ensures Extent(Trim(b, end, k, keep), true) == Extent(b, true) - (Payload(b, end, k) - keep)
  {
    CutChain(b, end, k, keep);
    var c := Cut(b, k, keep);
    ExtentAround(b, k, true);
    ExtentAround(c, k, true);
    assert c[..k + 1] == b[..k + 1];
    var tail := c[k + 1..];
    assert tail[0] == Item(b[k].at + HDR + keep, false) && tail[1..] == b[k + 1..];
    assert Extent(tail, true) == Extent(b[k + 1..], true);
    PlugExtent(c, end, k + 1);
  }

  /** No used extent is negative, so the sum of used extents never exceeds the heap. */
  lemma {:induction false} ExtentBounds(b: seq<Item>, live: bool)
    requires |b| >= 1 && forall i, j :: 0 <= i < j < |b| ==> b[i].at <= b[j].at
    ensures 0 <= Extent(b, live) <= b[|b| - 1].at - b[0].at
  {
    if |b| >= 2 { ExtentBounds(b[1..], live); }
  }
}
