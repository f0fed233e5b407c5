/** How a block chain is laid over the words of the heap: three header words per block
    (`pool_ptr`, `next`, `prev`) followed by its payload. Offsets are stored in bytes. */
module BlockWords {
  import opened KernelTypes
  import opened BlockChain

  /** `MEM_USED()` / `MEM_FREED()`: the heap object's own even address, with bit 0 set when used. */
  ghost function Tag(self: int, live: bool): int {
    self + if live then 1 else 0
  }

  ghost predicate HeaderAt(b: seq<Item>, end: nat, self: int, w: seq<int>, i: nat)
    requires Chain(b, end) && |w| == end + HDR && i < |b| - 1
  {
    assert Gap(b, i);
    && w[b[i].at] == Tag(self, b[i].live)
    && w[b[i].at + 1] == 4 * b[i + 1].at
    && w[b[i].at + 2] == if i == 0 then 0 else 4 * b[i - 1].at
  }

  /** Every header agrees with the chain. The end marker's `prev` is left unconstrained:
      the allocator does not maintain it. */
  ghost predicate Linked(b: seq<Item>, end: nat, self: int, w: seq<int>) {
    && Chain(b, end)
    && |w| == end + HDR
    && w[end] == Tag(self, true)
    && w[end + 1] == 4 * end
    && forall i :: 0 <= i < |b| - 1 ==> HeaderAt(b, end, self, w, i)
  }

  /** Block `k` is live and its payload starts at word `p`. */
  ghost predicate Starts(b: seq<Item>, p: nat, k: nat) {
    k < |b| - 1 && b[k].live && b[k].at + HDR == p
  }

  ghost predicate IsLive(b: seq<Item>, p: nat) {
    exists k: nat :: Starts(b, p, k)
  }

  ghost function IndexOf(b: seq<Item>, p: nat): (k: nat)
    requires IsLive(b, p)
    ensures Starts(b, p, k)
  {
    var k: nat :| Starts(b, p, k); k
  }

  /** One past the last payload word of the live block starting at `p`. */
  ghost function EndOf(b: seq<Item>, p: nat): nat
    requires IsLive(b, p)
  {
    b[IndexOf(b, p) + 1].at
  }

  lemma {:induction false} NotLiveAt(b: seq<Item>, end: nat, k: nat)
    requires Chain(b, end) && k < |b| && !b[k].live
    ensures !IsLive(b, b[k].at + HDR)
  {
    if IsLive(b, b[k].at + HDR) {
      var i := IndexOf(b, b[k].at + HDR);
      if i < k { Ascending(b, end, i, k); } else { Ascending(b, end, k, i); }
    }
  }

  /** The abstract heap: payload address (a word index) to the words of that live payload. */
  ghost function Contents(b: seq<Item>, w: seq<int>): map<nat, seq<int>> {
    map p: nat | p <= |w| && IsLive(b, p) && p <= EndOf(b, p) <= |w| :: w[p..EndOf(b, p)]
  }

  lemma {:induction false} LiveAt(b: seq<Item>, end: nat, p: nat, k: nat)
    requires Chain(b, end) && Starts(b, p, k)
    ensures IsLive(b, p) && IndexOf(b, p) == k && EndOf(b, p) == b[k + 1].at
    ensures p <= EndOf(b, p) <= end
  {
    var i := IndexOf(b, p);
    if i < k { Ascending(b, end, i, k); }
    if k < i { Ascending(b, end, k, i); }
    assert Gap(b, k);
  }

  lemma {:induction false} LiveLength(b: seq<Item>, end: nat, w: seq<int>, p: nat)
    requires Chain(b, end) && |w| == end + HDR && p in Contents(b, w)
    ensures |Contents(b, w)[p]| == b[IndexOf(b, p) + 1].at - p
  {
    LiveAt(b, end, p, IndexOf(b, p));
  }

  /** No live payload word differs between `w` and `v`. */
  ghost predicate Untouched(b: seq<Item>, end: nat, w: seq<int>, v: seq<int>)
    requires Chain(b, end) && |w| == |v| == end + HDR
  {
    forall i, j :: 0 <= i < |b| - 1 && b[i].live && b[i].at + HDR <= j < b[i + 1].at && j < end ==> w[j] == v[j]
  }

  lemma {:induction false} PayloadFrame(b: seq<Item>, end: nat, w: seq<int>, v: seq<int>, p: nat)
    requires Chain(b, end) && |w| == |v| == end + HDR && Untouched(b, end, w, v) && IsLive(b, p)
    ensures p <= EndOf(b, p) <= end && w[p..EndOf(b, p)] == v[p..EndOf(b, p)]
  {
    var i := IndexOf(b, p);
    LiveAt(b, end, p, i);
    forall j | p <= j < EndOf(b, p) ensures w[j] == v[j] {
      assert b[i].at + HDR <= j < b[i + 1].at;
    }
  }

  lemma {:induction false} SamePayloads(b: seq<Item>, w: seq<int>, v: seq<int>)
    requires |w| == |v|
    requires forall p: nat :: IsLive(b, p) ==> p <= EndOf(b, p) <= |w| && w[p..EndOf(b, p)] == v[p..EndOf(b, p)]
    ensures Contents(b, w) == Contents(b, v)
  {
  }

  lemma {:induction false} ContentsFrame(b: seq<Item>, end: nat, w: seq<int>, v: seq<int>)
    requires Chain(b, end) && |w| == |v| == end + HDR && Untouched(b, end, w, v)
    ensures Contents(b, w) == Contents(b, v)
  {
    forall p: nat | IsLive(b, p)
      ensures p <= EndOf(b, p) <= |w| && w[p..EndOf(b, p)] == v[p..EndOf(b, p)]
    {
      PayloadFrame(b, end, w, v, p);
    }
    SamePayloads(b, w, v);
  }

  /** Every live block of `b` is, with the same extent, a live block of `c`. */
  ghost predicate SpanKept(b: seq<Item>, c: seq<Item>, p: nat) {
    IsLive(b, p) ==> IsLive(c, p) && EndOf(c, p) == EndOf(b, p)
  }

  /** Two chains agree on every live block, except perhaps one starting at `q`. */
  ghost predicate SpansAgree(b: seq<Item>, c: seq<Item>, q: int) {
    forall p: nat :: p != q ==> SpanKept(b, c, p) && SpanKept(c, b, p)
  }

  lemma {:induction false} ContentsExcept(b: seq<Item>, c: seq<Item>, w: seq<int>, q: int)
    requires SpansAgree(b, c, q)
    ensures forall p: nat :: p != q ==> (p in Contents(b, w) <==> p in Contents(c, w))
    ensures forall p: nat :: p != q && p in Contents(b, w) ==> Contents(b, w)[p] == Contents(c, w)[p]
  {
    forall p: nat | p != q
      ensures p in Contents(b, w) <==> p in Contents(c, w)
      ensures p in Contents(b, w) ==> Contents(b, w)[p] == Contents(c, w)[p]
    {
      assert SpanKept(b, c, p) && SpanKept(c, b, p);
    }
  }

  lemma {:induction false} ContentsReplaced(b: seq<Item>, c: seq<Item>, w: seq<int>, q: nat)
    requires SpansAgree(b, c, q) && IsLive(c, q) && q <= EndOf(c, q) <= |w|
    ensures Contents(c, w) == Contents(b, w)[q := w[q..EndOf(c, q)]]
  {
    ContentsExcept(b, c, w, q);
  }

  lemma {:induction false} ContentsRemoved(b: seq<Item>, c: seq<Item>, w: seq<int>, q: nat)
    requires SpansAgree(b, c, q) && !IsLive(c, q)
    ensures Contents(c, w) == Contents(b, w) - {q}
  {
    ContentsExcept(b, c, w, q);
  }

  lemma {:induction false} SpanDrop(b: seq<Item>, end: nat, k: nat, p: nat)
    requires Chain(b, end) && 0 < k < |b| - 1 && !b[k].live && !b[k - 1].live && Chain(Drop(b, k), end)
    ensures SpanKept(b, Drop(b, k), p) && SpanKept(Drop(b, k), b, p)
  {
    var d := Drop(b, k);
    if IsLive(b, p) {
      var i := IndexOf(b, p);
      LiveAt(b, end, p, i);
      LiveAt(d, end, p, if i < k then i else i - 1);
    } else if IsLive(d, p) {
      var i := IndexOf(d, p);
      assert Starts(b, p, if i < k then i else i + 1);
    }
  }

  lemma {:induction false} ContentsDrop(b: seq<Item>, end: nat, w: seq<int>, k: nat)
    requires Chain(b, end) && |w| == end + HDR && 0 < k < |b| - 1 && !b[k].live && !b[k - 1].live
    ensures Chain(Drop(b, k), end)
    ensures Contents(Drop(b, k), w) == Contents(b, w)
  {
    DropChain(b, end, k);
    forall p: nat ensures SpanKept(b, Drop(b, k), p) && SpanKept(Drop(b, k), b, p) {
      SpanDrop(b, end, k, p);
    }
    ContentsExcept(b, Drop(b, k), w, -1);
  }

  lemma {:induction false} SpanFlag(b: seq<Item>, end: nat, k: nat, live: bool, p: nat)
    requires Chain(b, end) && k < |b| - 1 && Chain(SetFlag(b, k, live), end) && p != b[k].at + HDR
    ensures SpanKept(b, SetFlag(b, k, live), p)
  {
    if IsLive(b, p) {
      var i := IndexOf(b, p);
      LiveAt(b, end, p, i);
      LiveAt(SetFlag(b, k, live), end, p, i);
    }
  }

  lemma {:induction false} SpanFlags(b: seq<Item>, end: nat, k: nat, live: bool)
    requires Chain(b, end) && k < |b| - 1
    ensures Chain(SetFlag(b, k, live), end)
    ensures SpansAgree(b, SetFlag(b, k, live), b[k].at + HDR)
    ensures live ==> IsLive(SetFlag(b, k, live), b[k].at + HDR)
    ensures live ==> b[k].at + HDR <= EndOf(SetFlag(b, k, live), b[k].at + HDR) == b[k + 1].at <= end
    ensures !live ==> !IsLive(SetFlag(b, k, live), b[k].at + HDR)
  {
    var d := SetFlag(b, k, live);
    FlagChain(b, end, k, live);
    assert SetFlag(d, k, b[k].live) == b;
    forall p: nat | p != b[k].at + HDR ensures SpanKept(b, d, p) && SpanKept(d, b, p) {
      SpanFlag(b, end, k, live, p);
      SpanFlag(d, end, k, b[k].live, p);
    }
    if live { LiveAt(d, end, b[k].at + HDR, k); } else { NotLiveAt(d, end, k); }
  }

  lemma {:induction false} ContentsFlag(b: seq<Item>, end: nat, w: seq<int>, k: nat, live: bool)
    requires Chain(b, end) && |w| == end + HDR && k < |b| - 1
    ensures Chain(SetFlag(b, k, live), end) && Gap(b, k)
    ensures Contents(SetFlag(b, k, live), w)
         == if live then Contents(b, w)[b[k].at + HDR := w[b[k].at + HDR..b[k + 1].at]]
            else Contents(b, w) - {b[k].at + HDR}
  {
    SpanFlags(b, end, k, live);
    var d := SetFlag(b, k, live);
    if live { ContentsReplaced(b, d, w, b[k].at + HDR); } else { ContentsRemoved(b, d, w, b[k].at + HDR); }
  }

  lemma {:induction false} SpanCut(b: seq<Item>, end: nat, k: nat, keep: nat, p: nat)
    requires Chain(b, end) && k < |b| - 1 && keep + HDR <= Payload(b, end, k) && Chain(Cut(b, k, keep), end)
    requires p != b[k].at + HDR
    ensures SpanKept(b, Cut(b, k, keep), p) && SpanKept(Cut(b, k, keep), b, p)
  {
    var d := Cut(b, k, keep);
    if IsLive(b, p) {
      var i := IndexOf(b, p);
      LiveAt(b, end, p, i);
      LiveAt(d, end, p, if i <= k then i else i + 1);
    } else if IsLive(d, p) {
      var i := IndexOf(d, p);
      assert Starts(b, p, if i <= k then i else i - 1);
    }
  }

  lemma {:induction false} SpanCuts(b: seq<Item>, end: nat, k: nat, keep: nat)
    requires Chain(b, end) && k < |b| - 1 && b[k].live && keep + HDR <= Payload(b, end, k)
    ensures Chain(Cut(b, k, keep), end)
    ensures SpansAgree(b, Cut(b, k, keep), b[k].at + HDR)
    ensures IsLive(Cut(b, k, keep), b[k].at + HDR)
    ensures EndOf(Cut(b, k, keep), b[k].at + HDR) == b[k].at + HDR + keep <= end
  {
    CutChain(b, end, k, keep);
    forall p: nat | p != b[k].at + HDR ensures SpanKept(b, Cut(b, k, keep), p) && SpanKept(Cut(b, k, keep), b, p) {
      SpanCut(b, end, k, keep, p);
    }
    LiveAt(Cut(b, k, keep), end, b[k].at + HDR, k);
  }

  /** Keep only the first `keep` words of the payload at `p`. */
  ghost function Shorten(c: map<nat, seq<int>>, p: nat, keep: nat): map<nat, seq<int>> {
    if p in c && keep <= |c[p]| then c[p := c[p][..keep]] else c
  }

  lemma {:induction false} ShortenedTo(b: seq<Item>, c: seq<Item>, w: seq<int>, q: nat, keep: nat)
    requires SpansAgree(b, c, q) && IsLive(b, q) && IsLive(c, q)
    requires q + keep == EndOf(c, q) <= EndOf(b, q) <= |w|
    ensures Contents(c, w) == Shorten(Contents(b, w), q, keep)
  {
    ContentsReplaced(b, c, w, q);
    assert w[q..EndOf(b, q)][..keep] == w[q..q + keep];
  }

  /** Cutting the tail off block `k` shortens its payload and touches no other. */
  lemma {:induction false} ContentsCut(b: seq<Item>, end: nat, w: seq<int>, k: nat, keep: nat)
    requires Chain(b, end) && |w| == end + HDR && k < |b| - 1 && b[k].live && keep + HDR <= Payload(b, end, k)
    ensures Chain(Cut(b, k, keep), end)
    ensures Contents(Cut(b, k, keep), w) == Shorten(Contents(b, w), b[k].at + HDR, keep)
  {
    SpanCuts(b, end, k, keep);
    LiveAt(b, end, b[k].at + HDR, k);
    ShortenedTo(b, Cut(b, k, keep), w, b[k].at + HDR, keep);
  }

  lemma {:induction false} ContentsCutFree(b: seq<Item>, end: nat, w: seq<int>, k: nat, keep: nat)
    requires Chain(b, end) && k < |b| - 1 && !b[k].live && keep + HDR <= Payload(b, end, k)
    ensures Contents(Cut(b, k, keep), w) == Contents(b, w)
  {
    CutChain(b, end, k, keep);
    var d := Cut(b, k, keep);
    forall p: nat ensures SpanKept(b, d, p) && SpanKept(d, b, p) {
      if p != b[k].at + HDR {
        SpanCut(b, end, k, keep, p);
      } else {
        NotLiveAt(b, end, k);
        NotLiveAt(d, end, k);
      }
    }
    ContentsExcept(b, d, w, -1);
  }

  /** Distinct headers never overlap. */
  lemma {:induction false} Apart(b: seq<Item>, end: nat, i: nat, m: nat)
    requires Chain(b, end) && i < |b| && m < |b|
    ensures i < m ==> b[i].at + HDR <= b[m].at
    ensures m < i ==> b[m].at + HDR <= b[i].at
  {
    if i < m { Ascending(b, end, i, m); }
    if m < i { Ascending(b, end, m, i); }
  }

  /** The words that a header write may change: the three header words of block `k`. */
  ghost predicate InHeader(b: seq<Item>, k: nat, j: int) {
    k < |b| && b[k].at <= j < b[k].at + HDR
  }

  /** Writes confined to the headers of three blocks of the new chain, or to the payload of a free
      block, change no live payload. */
  lemma {:induction false} HeaderWrites(c: seq<Item>, end: nat, w: seq<int>, v: seq<int>, k: nat, m: nat, n: nat,
      f: nat)
    requires Chain(c, end) && |w| == |v| == end + HDR && k < |c| && m < |c| && n < |c|
    requires f < |c| - 1 && !c[f].live
    requires forall j :: 0 <= j < |w| && w[j] != v[j] ==>
      InHeader(c, k, j) || InHeader(c, m, j) || InHeader(c, n, j) || c[f].at <= j < c[f + 1].at
    ensures Untouched(c, end, w, v)
  {
    forall i, j | 0 <= i < |c| - 1 && c[i].live && c[i].at + HDR <= j < c[i + 1].at && j < end
      ensures w[j] == v[j]
    {
      Apart(c, end, i, k); Apart(c, end, i + 1, k);
      Apart(c, end, i, m); Apart(c, end, i + 1, m);
      Apart(c, end, i, n); Apart(c, end, i + 1, n);
      Apart(c, end, i, f); Apart(c, end, i + 1, f); Apart(c, end, i, f + 1);
    }
  }

  /** Unlinking the free block `k`: its predecessor's `next` and its successor's `prev` skip it. */
  lemma {:induction false} LinkDrop(b: seq<Item>, end: nat, self: int, w: seq<int>, v: seq<int>, k: nat)
    requires Linked(b, end, self, w) && 0 < k < |b| - 1 && |v| == |w| && Gap(b, k - 1) && Gap(b, k)
    requires v[b[k - 1].at + 1] == 4 * b[k + 1].at && v[b[k + 1].at + 2] == 4 * b[k - 1].at
    requires forall j :: 0 <= j < |w| && j != b[k].at && j != b[k - 1].at + 1 && j != b[k + 1].at + 2 ==> v[j] == w[j]
    ensures Linked(Drop(b, k), end, self, v)
  {
    DropChain(b, end, k);
    var d := Drop(b, k);
    forall i | 0 <= i < |d| - 1 ensures HeaderAt(d, end, self, v, i) {
      var o := if i < k then i else i + 1;
      assert HeaderAt(b, end, self, w, o);
      Apart(b, end, o, k - 1); Apart(b, end, o, k); Apart(b, end, o, k + 1);
      assert Gap(d, i);
    }
    Apart(b, end, |b| - 1, k - 1); Apart(b, end, |b| - 1, k); Apart(b, end, |b| - 1, k + 1);
  }

  lemma {:induction false} UntouchedDrop(b: seq<Item>, end: nat, w: seq<int>, v: seq<int>, k: nat)
    requires Chain(b, end) && 0 < k < |b| - 1 && |v| == |w| == end + HDR && !b[k - 1].live
    requires forall j :: 0 <= j < |w| && j != b[k].at && j != b[k - 1].at + 1 && j != b[k + 1].at + 2 ==> v[j] == w[j]
    ensures Chain(Drop(b, k), end) && Untouched(Drop(b, k), end, w, v)
  {
    DropChain(b, end, k);
    var d := Drop(b, k);
    assert d[k - 1] == b[k - 1] && d[k] == b[k + 1];
    Ascending(b, end, k - 1, k); Ascending(b, end, k, k + 1);
    HeaderWrites(d, end, w, v, k - 1, k, k, k - 1);
  }

  lemma {:induction false} LinkFlag(b: seq<Item>, end: nat, self: int, w: seq<int>, k: nat, live: bool)
    requires Linked(b, end, self, w) && k < |b| - 1
    ensures b[k].at < |w| && Linked(SetFlag(b, k, live), end, self, w[b[k].at := Tag(self, live)])
  {
    FlagChain(b, end, k, live);
    var d := SetFlag(b, k, live);
    Ascending(b, end, k, |b| - 1);
    var v := w[b[k].at := Tag(self, live)];
    forall i | 0 <= i < |d| - 1 ensures HeaderAt(d, end, self, v, i) {
      assert HeaderAt(b, end, self, w, i);
      Apart(b, end, i, k);
      assert Gap(d, i);
    }
  }

  lemma {:induction false} UntouchedFlag(b: seq<Item>, end: nat, w: seq<int>, k: nat, live: bool, x: int)
    requires Chain(b, end) && k < |b| - 1 && |w| == end + HDR && b[k].at < |w|
    ensures Chain(SetFlag(b, k, live), end)
    ensures Untouched(SetFlag(b, k, live), end, w, w[b[k].at := x])
  {
    FlagChain(b, end, k, live);
    var d := SetFlag(b, k, live);
    forall i, j | 0 <= i < |d| - 1 && d[i].live && d[i].at + HDR <= j < d[i + 1].at && j < end
      ensures w[j] == w[b[k].at := x][j]
    {
      Apart(d, end, i, k); Apart(d, end, i + 1, k);
    }
  }

  /** Inserting a new free header inside block `k`. */
  lemma {:induction false} LinkCut(b: seq<Item>, end: nat, self: int, w: seq<int>, v: seq<int>, k: nat, keep: nat)
    requires Linked(b, end, self, w) && k < |b| - 1 && |v| == |w| && keep + HDR <= Payload(b, end, k)
    requires var p := b[k].at + HDR + keep;
      && p + HDR <= b[k + 1].at <= end
      && v[p] == Tag(self, false) && v[p + 1] == 4 * b[k + 1].at && v[p + 2] == 4 * b[k].at
      && v[b[k].at + 1] == 4 * p
      && (k + 1 < |b| - 1 ==> v[b[k + 1].at + 2] == 4 * p)
      && (forall j :: 0 <= j < |w| && !(p <= j < p + HDR) && j != b[k].at + 1 && j != b[k + 1].at + 2 ==> v[j] == w[j])
    ensures Linked(Cut(b, k, keep), end, self, v)
  {
    CutChain(b, end, k, keep);
    var d := Cut(b, k, keep);
    forall i | 0 <= i < |d| - 1 ensures HeaderAt(d, end, self, v, i) {
      assert Gap(d, i);
      if i != k + 1 {
        var o := if i <= k then i else i - 1;
        assert HeaderAt(b, end, self, w, o);
        Apart(b, end, o, k); Apart(b, end, o, k + 1);
        Apart(d, end, i, k + 1);
      }
    }
    Apart(d, end, |d| - 1, k + 1); Apart(b, end, |b| - 1, k); Apart(b, end, |b| - 1, k + 1);
  }

  lemma {:induction false} UntouchedCut(b: seq<Item>, end: nat, w: seq<int>, v: seq<int>, k: nat, keep: nat)
    requires Chain(b, end) && k < |b| - 1 && |v| == |w| == end + HDR && keep + HDR <= Payload(b, end, k)
    requires var p := b[k].at + HDR + keep;
      forall j :: 0 <= j < |w| && !(p <= j < p + HDR) && j != b[k].at + 1 && j != b[k + 1].at + 2 ==> v[j] == w[j]
    ensures Chain(Cut(b, k, keep), end) && Untouched(Cut(b, k, keep), end, w, v)
  {
    CutChain(b, end, k, keep);
    var d := Cut(b, k, keep);
    assert d[k] == b[k] && d[k + 1] == Item(b[k].at + HDR + keep, false) && d[k + 2] == b[k + 1];
    HeaderWrites(d, end, w, v, k, k + 1, k + 2, k + 1);
  }
}
