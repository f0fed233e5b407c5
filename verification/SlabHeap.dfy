/** The slab heap as its callers see it: `rt_slab_init`, `rt_slab_alloc` and `rt_slab_free` of
    `rt-thread/src/slab.c`, over any sequence of calls. */
module SlabHeap {
  import opened KernelTypes
  import opened Lists
  import opened PageList
  import opened ZoneIndex
  import opened SlabZone

  /** `RT_ALIGN(size, RT_MM_PAGE_SIZE)` in 32 bits. */
  function PageAlign(size: Word): Word {
    var s := Wrap(size + PAGE - 1);
    s - s % PAGE
  }

  /** `ZONE_RELEASE_THRESH`. */
  const KEEP := 2

  datatype Result = Result(address: Option<nat>, slab: Slab)

  /** A chunk of list `zi`: from a zone on the list, else from a retired zone, else from new pages. */
  function AllocChunk(s: Slab, zi: nat): Result
    requires |s.arrays| == NZONES && zi < NZONES && ChunkSize(zi) > 0 && (s.arrays[zi] != [] ==> Ready(s, zi))
  {
    if s.arrays[zi] != [] then
      var a := Next(s.zones[s.arrays[zi][0]]);
      Result(if a < 0 then None else Some(a), Take(s, zi))
    else if s.retired != [] then
      Result(Some(s.retired[0] * PAGE + Offset(ChunkSize(zi))), Install(Evict(s), s.retired[0], zi))
    else match Obtain(s)
      case None => Result(None, s)
      case Some((z, n)) => Result(Some(z * PAGE + Offset(ChunkSize(zi))), Install(n, z, zi))
  }

  /** `rt_slab_alloc`. */
  function Alloc(s: Slab, size: Word): Result
    requires |s.arrays| == NZONES && forall zi :: 0 <= zi < NZONES && s.arrays[zi] != [] ==> Ready(s, zi)
  {
    if size == 0 then Result(None, s)
    else if size >= ZoneLimit(s.zoneSize) then
      match BigTake(s, PageAlign(size) / PAGE)
      case None => Result(None, s)
      case Some((p, n)) => Result(Some(p * PAGE), n)
    else
      ZoneForFits(size);
      if ZoneFor(size).1 > 0 then ChunkSizeInjective(0, ZoneFor(size).1); AllocChunk(s, ZoneFor(size).1)
      else AllocChunk(s, ZoneFor(size).1)
  }

  /** A zone that became wholly free retires unless it is alone on its list; a third retired zone is released. */
  function Settle(s: Slab, z: nat): Slab
    requires z in s.zones && s.zones[z].zi < |s.arrays|
  {
    if s.zones[z].nfree == s.zones[z].nmax && s.arrays[s.zones[z].zi] != [z] then
      var n := Retire(s, z);
      if |n.retired| > KEEP then GiveBack(Evict(n), z) else n
    else s
  }

  /** The pages of an address name its zone. */
  predicate InZoneOf(s: Slab, a: nat) {
    && a / PAGE < |s.usage| && s.usage[a / PAGE].kind != Large && s.usage[a / PAGE].size <= a / PAGE
    && var z := a / PAGE - s.usage[a / PAGE].size; z in s.zones && s.zones[z].zi < |s.arrays|
  }

  /** `rt_slab_free`. */
  function Free(s: Slab, a: nat): Slab
    requires a / PAGE < |s.usage| && (s.usage[a / PAGE].kind != Large ==> InZoneOf(s, a))
  {
    if s.usage[a / PAGE].kind == Large then BigGive(s, a / PAGE)
    else
      var z := a / PAGE - s.usage[a / PAGE].size;
      Settle(Put(s, z, a), z)
  }

  /** What the callers hold. */
  ghost predicate IsLive(b: Book, a: nat) {
    a in b.chunks || BigAt(b.big, a)
  }

  /** The address of a large block is that of its first page. */
  ghost predicate BigAt(big: map<nat, nat>, a: nat) {
    a % PAGE == 0 && a / PAGE in big
  }

  ghost function BigSize(big: map<nat, nat>, a: nat): nat
    requires BigAt(big, a)
  {
    big[a / PAGE] * PAGE
  }

  ghost function SizeOf(b: Book, a: nat): nat
    requires IsLive(b, a)
  {
    if a in b.chunks then b.chunks[a] else BigSize(b.big, a)
  }

  ghost predicate Heap(s: Slab, b: Book) {
    Inv(s, b, KEEP, None)
  }

  /** Two runs of pages with different owners do not meet. */
  lemma {:induction false} OwnersApart(owner: seq<Owner>, p: nat, n: nat, q: nat, m: nat)
    requires n > 0 && m > 0 && p + n <= |owner| && q + m <= |owner| && owner[p] != owner[q]
    requires (forall x :: p <= x < p + n ==> owner[x] == owner[p])
    requires forall x :: q <= x < q + m ==> owner[x] == owner[q]
    ensures p + n <= q || q + m <= p
  {
  }

  /** The pages a live block lies in, all with one owner. */
  lemma {:induction false} BlockPages(s: Slab, b: Book, a: nat) returns (p: nat, n: nat)
    requires Heap(s, b) && IsLive(b, a)
    ensures n > 0 && p + n <= |b.owner| && p <= a / PAGE < p + n
    ensures forall x :: p <= x < p + n ==> b.owner[x] == b.owner[p]
    ensures p * PAGE <= a && a + SizeOf(b, a) <= (p + n) * PAGE
    ensures if a in b.chunks then b.owner[p].InZone? && b.owner[p] == InZone(p) else b.owner[p] == InBig(a / PAGE)
  {
    if a in b.chunks {
      p, n := ChunkPages(s, b, a);
    } else {
      p, n := a / PAGE, b.big[a / PAGE];
      assert Block(s, b.owner, p, n);
    }
  }

  lemma {:induction false} ChunkPages(s: Slab, b: Book, a: nat) returns (p: nat, n: nat)
    requires Heap(s, b) && a in b.chunks
    ensures n > 0 && p + n <= |b.owner| && p <= a / PAGE < p + n
    ensures forall x :: p <= x < p + n ==> b.owner[x] == InZone(p)
    ensures p * PAGE <= a && a + b.chunks[a] <= (p + n) * PAGE
  {
    LiveZone(s, b, a, KEEP, None);
    p, n := b.owner[a / PAGE].z, ZonePages(s);
    assert Shaped(s.zoneSize, p, s.zones[p]) && Reserved(s, b.owner, p);
    hide Inv, Shaped, IsChunk;
    ChunkSpan(s.zoneSize, p, s.zones[p], a, n);
  }

  lemma {:induction false} ChunkSpan(zoneSize: nat, z: nat, zn: Zone, a: nat, n: nat)
    requires ZoneSize(zoneSize) && Shaped(zoneSize, z, zn) && IsChunk(zn, a) && n == zoneSize / PAGE
    ensures n > 0 && z <= a / PAGE < z + n && z * PAGE <= a && a + zn.chunk <= (z + n) * PAGE
  {
    var i :| 0 <= i <= zn.uindex && a == ChunkAt(zn, i);
    assert i < zn.nmax;
    hide ChunkAt, Shaped;
    ChunkInside(zoneSize, z, zn, i);
    ChunkPage(zoneSize, z, zn, i);
  }

  /** Live blocks never overlap, whether chunks of one zone, of two zones, or large. */
  lemma {:induction false} LiveApart(s: Slab, b: Book, x: nat, y: nat)
    requires Heap(s, b) && IsLive(b, x) && IsLive(b, y) && x < y
    ensures x + SizeOf(b, x) <= y
  {
    hide Inv;
    var p, n := BlockPages(s, b, x);
    var q, m := BlockPages(s, b, y);
    if x !in b.chunks { PageStart(b.big, x); }
    if y !in b.chunks { PageStart(b.big, y); }
    if b.owner[p] != b.owner[q] {
      OwnersApart(b.owner, p, n, q, m);
      PagesApart(p, n, q, m, x, SizeOf(b, x), y);
    } else if x in b.chunks {
      SameZone(s, b, x, y);
    }
  }

  lemma {:induction false} PagesApart(p: nat, n: nat, q: nat, m: nat, x: nat, size: nat, y: nat)
    requires p + n <= q || q + m <= p
    requires p * PAGE <= x && x + size <= (p + n) * PAGE && q * PAGE <= y < (q + m) * PAGE && x < y
    ensures x + size <= y
  {
  }

  lemma {:induction false} SameZone(s: Slab, b: Book, x: nat, y: nat)
    requires Heap(s, b) && x in b.chunks && y in b.chunks && x < y
    requires x / PAGE < |b.owner| && y / PAGE < |b.owner| && b.owner[x / PAGE] == b.owner[y / PAGE]
    ensures x + b.chunks[x] <= y
  {
    hide PagesOwned, BigOwned, ZonesOk, ChunksOk, Listed, RetiredOk, Counted;
    LiveZone(s, b, x, KEEP, None);
    LiveZone(s, b, y, KEEP, None);
    var zn := s.zones[b.owner[x / PAGE].z];
    ZoneBasics(s, b, b.owner[x / PAGE].z, KEEP, None);
    var i :| 0 <= i <= zn.uindex && x == ChunkAt(zn, i);
    var j :| 0 <= j <= zn.uindex && y == ChunkAt(zn, j);
    if i < j { ChunkSpacing(zn, i, j); } else if j < i { ChunkSpacing(zn, j, i); }
  }

  /** The links the allocator keeps in the free chunks of a zone lie outside every live block. */
  lemma {:induction false} LinksApart(s: Slab, b: Book, z: nat, f: nat, y: nat)
    requires Heap(s, b) && z in s.zones && f in s.zones[z].free && IsLive(b, y)
    ensures f + s.zones[z].chunk <= y || y + SizeOf(b, y) <= f
  {
    ZoneBasics(s, b, z, KEEP, None);
    ZoneFacts(s, b, z);
    hide Inv, Shaped, IsChunk;
    var zn, n := s.zones[z], ZonePages(s);
    ChunkSpan(s.zoneSize, z, zn, f, n);
    var q, m := BlockPages(s, b, y);
    if b.owner[q] != InZone(z) {
      OwnersApart(b.owner, z, n, q, m);
      PagesBeside(z, n, q, m, f, zn.chunk, y, SizeOf(b, y));
    } else {
      FreeInZone(s, b, z, f, y);
    }
  }

  /** So do the headers of the zones. */
  lemma {:induction false} HeaderApart(s: Slab, b: Book, z: nat, y: nat)
    requires Heap(s, b) && z in s.zones && IsLive(b, y)
    ensures z * PAGE + HEADER <= y || y + SizeOf(b, y) <= z * PAGE
  {
    ZoneBasics(s, b, z, KEEP, None);
    ZoneFacts(s, b, z);
    FirstBehind(s.zoneSize, z, s.zones[z]);
    hide Inv, Shaped;
    var n := ZonePages(s);
    var q, m := BlockPages(s, b, y);
    if b.owner[q] != InZone(z) {
      OwnersApart(b.owner, z, n, q, m);
      PagesBeside(z, n, q, m, z * PAGE, HEADER, y, SizeOf(b, y));
    } else {
      BehindHeader(s, b, z, y);
    }
  }

  lemma {:induction false} ZoneFacts(s: Slab, b: Book, z: nat)
    requires Heap(s, b) && z in s.zones
    ensures ZoneSize(s.zoneSize) && Reserved(s, b.owner, z) && Accounted(s.zones[z], b.chunks)
    ensures ZonePages(s) > 0 && z + ZonePages(s) <= |b.owner|
    ensures forall p :: z <= p < z + ZonePages(s) ==> b.owner[p] == InZone(z)
  {
  }

  lemma {:induction false} BehindHeader(s: Slab, b: Book, z: nat, y: nat)
    requires Heap(s, b) && z in s.zones
    requires y in b.chunks && y / PAGE < |b.owner| && b.owner[y / PAGE] == InZone(z)
    ensures z * PAGE + HEADER <= y
  {
    hide PagesOwned, BigOwned, ZonesOk, ChunksOk, Listed, RetiredOk, Counted;
    LiveZone(s, b, y, KEEP, None);
    ZoneBasics(s, b, z, KEEP, None);
    FirstBehind(s.zoneSize, z, s.zones[z]);
  }

  lemma {:induction false} FirstBehind(zoneSize: nat, z: nat, zn: Zone)
    requires Shaped(zoneSize, z, zn)
    ensures z * PAGE + HEADER <= zn.base
  {
    OffsetFits(zn.zi);
  }

  lemma {:induction false} PagesBeside(p: nat, n: nat, q: nat, m: nat, x: nat, size: nat, y: nat, other: nat)
    requires p + n <= q || q + m <= p
    requires p * PAGE <= x && x + size <= (p + n) * PAGE && q * PAGE <= y && y + other <= (q + m) * PAGE
    ensures x + size <= y || y + other <= x
  {
  }

  /** The same within one zone. */
  lemma {:induction false} FreeInZone(s: Slab, b: Book, z: nat, f: nat, y: nat)
    requires Heap(s, b) && z in s.zones && IsChunk(s.zones[z], f) && f !in b.chunks
    requires y in b.chunks && y / PAGE < |b.owner| && b.owner[y / PAGE] == InZone(z)
    ensures f + s.zones[z].chunk <= y || y + b.chunks[y] <= f
  {
    hide PagesOwned, BigOwned, ZonesOk, ChunksOk, Listed, RetiredOk, Counted;
    LiveZone(s, b, y, KEEP, None);
    ZoneBasics(s, b, z, KEEP, None);
    var zn := s.zones[z];
    var i :| 0 <= i <= zn.uindex && f == ChunkAt(zn, i);
    var j :| 0 <= j <= zn.uindex && y == ChunkAt(zn, j);
    if i < j { ChunkSpacing(zn, i, j); } else if j < i { ChunkSpacing(zn, j, i); }
  }

  /** Every live block is 8-byte aligned, a large one page-aligned. */
  lemma {:induction false} LiveAligned(s: Slab, b: Book, a: nat)
    requires Heap(s, b) && IsLive(b, a)
    ensures a % 8 == 0 && (a !in b.chunks ==> a % PAGE == 0)
  {
    hide Inv;
    if a in b.chunks { ChunkLiveEight(s, b, a); } else { PageEight(a); }
  }

  lemma {:induction false} PageEight(a: nat)
    requires a % PAGE == 0
    ensures a % 8 == 0
  {
    assert a == 8 * (512 * (a / PAGE));
  }

  lemma {:induction false} ChunkLiveEight(s: Slab, b: Book, a: nat)
    requires Heap(s, b) && a in b.chunks
    ensures a % 8 == 0
  {
    hide Inv, ChunkAt, Shaped, IsChunk;
    LiveZone(s, b, a, KEEP, None);
    var z := b.owner[a / PAGE].z;
    ZoneBasics(s, b, z, KEEP, None);
    ChunkEight(s.zoneSize, z, s.zones[z], a);
  }

  lemma {:induction false} ChunkEight(zoneSize: nat, z: nat, zn: Zone, a: nat)
    requires Shaped(zoneSize, z, zn) && IsChunk(zn, a)
    ensures a % 8 == 0
  {
    var i :| 0 <= i <= zn.uindex && a == ChunkAt(zn, i);
    ChunkAligned(zoneSize, z, zn, i);
  }

  /** A chunk of a power of two up to a page is aligned to its size. */
  lemma {:induction false} LivePower(s: Slab, b: Book, a: nat)
    requires Heap(s, b) && a in b.chunks && PowerOfTwo(b.chunks[a]) && b.chunks[a] <= PAGE
    ensures a % b.chunks[a] == 0
  {
    hide Inv, ChunkAt, Shaped, PowerOfTwo;
    LiveZone(s, b, a, KEEP, None);
    var z := b.owner[a / PAGE].z;
    ZoneBasics(s, b, z, KEEP, None);
    var zn := s.zones[z];
    var i :| 0 <= i <= zn.uindex && a == ChunkAt(zn, i);
    ChunkPower(s.zoneSize, z, zn, i);
  }

  /** Every list that is not empty can serve a request. */
  lemma {:induction false} ListsReady(s: Slab, b: Book)
    requires Heap(s, b)
    ensures |s.arrays| == NZONES && forall zi :: 0 <= zi < NZONES && s.arrays[zi] != [] ==> Ready(s, zi)
  {
    forall zi | 0 <= zi < NZONES && s.arrays[zi] != [] ensures Ready(s, zi) { TakeReady(s, b, zi, KEEP); }
  }

  /** `c` is `b` plus one live block of `n` bytes at `a`. */
  ghost predicate Gained(b: Book, c: Book, a: nat, n: nat) {
    && !IsLive(b, a) && IsLive(c, a) && SizeOf(c, a) == n
    && forall x :: x != a ==> (IsLive(c, x) <==> IsLive(b, x)) && (IsLive(b, x) ==> SizeOf(c, x) == SizeOf(b, x))
  }

  /** A page of a large block holds no chunk. */
  lemma {:induction false} NotBoth(s: Slab, b: Book, a: nat)
    requires Heap(s, b) && a in b.chunks
    ensures a / PAGE !in b.big
  {
    assert a / PAGE in b.big ==> Block(s, b.owner, a / PAGE, b.big[a / PAGE]);
    LiveZone(s, b, a, KEEP, None);
  }

  lemma {:induction false} GrantGained(s: Slab, b: Book, c: Book, a: nat, k: nat)
    requires Heap(s, c) && a !in b.chunks && c.chunks == b.chunks[a := k] && c.big == b.big
    ensures Gained(b, c, a, k)
  {
    NotBoth(s, c, a);
  }

  lemma {:induction false} ChunkKeeps(s: Slab, b: Book, zi: nat) returns (c: Book)
    requires Heap(s, b) && zi < NZONES && 0 < ChunkSize(zi) <= ZoneLimit(s.zoneSize)
    requires |s.arrays| == NZONES && (s.arrays[zi] != [] ==> Ready(s, zi)) && AllocChunk(s, zi).address.Some?
    ensures Heap(AllocChunk(s, zi).slab, c) && Gained(b, c, AllocChunk(s, zi).address.value, ChunkSize(zi))
  {
    hide Inv, Gained, Take, Install, Ready, ChunkSize, Offset;
    if s.arrays[zi] != [] {
      c := FromList(s, b, zi);
    } else if s.retired != [] {
      c := FromRetired(s, b, zi);
    } else {
      c := FromPages(s, b, zi, Obtain(s).value.0, Obtain(s).value.1);
    }
  }

  lemma {:induction false} FromList(s: Slab, b: Book, zi: nat) returns (c: Book)
    requires Heap(s, b) && zi < NZONES && |s.arrays| == NZONES && s.arrays[zi] != [] && Ready(s, zi)
    ensures Next(s.zones[s.arrays[zi][0]]) >= 0
    ensures Heap(Take(s, zi), c) && Gained(b, c, Next(s.zones[s.arrays[zi][0]]), ChunkSize(zi))
  {
    hide Inv, Take, Gained, ChunkSize;
    TakeKeeps(s, b, zi, KEEP);
    TakeFresh(s, b, zi, KEEP);
    var a := Next(s.zones[s.arrays[zi][0]]);
    c := Grant(b, a, ChunkSize(zi));
    assert c.chunks == b.chunks[a := ChunkSize(zi)] && c.big == b.big;
    GrantGained(Take(s, zi), b, c, a, ChunkSize(zi));
  }

  lemma {:induction false} Installed(s: Slab, b: Book, d: Book, z: nat, zi: nat, most: nat) returns (c: Book)
    requires Inv(s, d, most, Some(z)) && most <= KEEP && d.chunks == b.chunks && d.big == b.big
    requires zi < NZONES && 0 < ChunkSize(zi) <= ZoneLimit(s.zoneSize)
    ensures |s.arrays| == NZONES && Heap(Install(s, z, zi), c)
    ensures Gained(b, c, z * PAGE + Offset(ChunkSize(zi)), ChunkSize(zi))
  {
    hide Inv, Install, Gained, ChunkSize, Offset;
    var a, k := z * PAGE + Offset(ChunkSize(zi)), ChunkSize(zi);
    c := Grant(d, a, k);
    InstallKeeps(s, d, z, zi, most);
    Fewer(Install(s, z, zi), c, most);
    GrantGained(Install(s, z, zi), b, c, a, k);
  }

  lemma {:induction false} FromRetired(s: Slab, b: Book, zi: nat) returns (c: Book)
    requires Heap(s, b) && zi < NZONES && 0 < ChunkSize(zi) <= ZoneLimit(s.zoneSize) && |s.arrays| == NZONES
    requires s.retired != []
    ensures Heap(Install(Evict(s), s.retired[0], zi), c)
    ensures Gained(b, c, s.retired[0] * PAGE + Offset(ChunkSize(zi)), ChunkSize(zi))
  {
    hide Inv, Install, Gained, ChunkSize, Offset;
    EvictKeeps(s, b, KEEP);
    c := Installed(Evict(s), b, b, s.retired[0], zi, KEEP - 1);
  }

  lemma {:induction false} FromPages(s: Slab, b: Book, zi: nat, z: nat, n: Slab) returns (c: Book)
    requires Heap(s, b) && zi < NZONES && 0 < ChunkSize(zi) <= ZoneLimit(s.zoneSize) && Obtain(s) == Some((z, n))
    ensures |n.arrays| == NZONES && Heap(Install(n, z, zi), c)
    ensures Gained(b, c, z * PAGE + Offset(ChunkSize(zi)), ChunkSize(zi))
  {
    var d := Reowned(b, z, ZonePages(s), InZone(z));
    assert d.chunks == b.chunks && d.big == b.big;
    hide Inv, Install, Obtain, Gained, ChunkSize, Offset, Reowned;
    ObtainKeeps(s, b, KEEP, z, n);
    c := Installed(n, b, d, z, zi, KEEP);
  }

  lemma {:induction false} Fewer(s: Slab, b: Book, most: nat)
    requires Inv(s, b, most, None) && most <= KEEP
    ensures Heap(s, b)
  {
  }

  lemma {:induction false} BigGained(s: Slab, b: Book, k: nat, p: nat, n: Slab) returns (c: Book)
    requires Heap(s, b) && k > 0 && BigTake(s, k) == Some((p, n))
    ensures Heap(n, c) && Gained(b, c, p * PAGE, k * PAGE)
  {
    BigTakeKeeps(s, b, k, KEEP, p, n);
    c := Reowned(b, p, k, InBig(p)).(big := b.big[p := k]);
    assert c.chunks == b.chunks && c.big == b.big[p := k];
    hide Inv, BigTake, Reowned;
    BigAdded(n, b, c, p, k);
  }

  lemma {:induction false} BigAtPage(big: map<nat, nat>, p: nat)
    ensures BigAt(big, p * PAGE) <==> p in big
    ensures p in big ==> BigSize(big, p * PAGE) == big[p] * PAGE
  {
  }

  lemma {:induction false} BigAtOther(x: map<nat, nat>, y: map<nat, nat>, p: nat, a: nat)
    requires a != p * PAGE && forall q :: q != p ==> (q in x <==> q in y) && (q in x ==> x[q] == y[q])
    ensures BigAt(y, a) <==> BigAt(x, a)
    ensures BigAt(x, a) ==> BigSize(x, a) == BigSize(y, a)
  {
    assert a % PAGE == 0 ==> a == a / PAGE * PAGE;
  }

  lemma {:induction false} BigAdded(n: Slab, b: Book, c: Book, p: nat, k: nat)
    requires Heap(n, c) && p !in b.big && c.chunks == b.chunks && c.big == b.big[p := k]
    ensures Gained(b, c, p * PAGE, k * PAGE)
  {
    BigAtPage(c.big, p);
    BigAtPage(b.big, p);
    if p * PAGE in c.chunks { NotBoth(n, c, p * PAGE); }
    hide Inv, BigAt, BigSize;
    forall x | x != p * PAGE ensures BigAt(c.big, x) <==> BigAt(b.big, x)
      ensures BigAt(b.big, x) ==> BigSize(b.big, x) == BigSize(c.big, x)
    {
      BigAtOther(b.big, c.big, p, x);
    }
  }

  /** A request of no pages finds none. */
  lemma {:induction false} NoPages(s: Slab)
    ensures BigTake(s, 0) == None
  {
  }

  /** `PageAlign` covers the request unless the addition wraps, and then no page is asked for. */
  lemma {:induction false} PageAlignCovers(size: Word)
    ensures PageAlign(size) % PAGE == 0 && (PageAlign(size) > 0 ==> PageAlign(size) >= size)
    ensures PageAlign(size) == 0 <==> size == 0 || size > U32 - PAGE
  {
    if size <= U32 - PAGE {
      assert Wrap(size + PAGE - 1) == size + PAGE - 1;
    } else {
      assert Wrap(size + PAGE - 1) == size + PAGE - 1 - U32;
    }
  }

  /** The size of the block a request gets. */
  function Grain(s: Slab, size: Word): nat {
    if size >= ZoneLimit(s.zoneSize) then PageAlign(size) else ZoneFor(size).0
  }

  /** Allocation keeps the heap. A success grants a block that was not live, at least as large as asked, 8-byte
      aligned, a power of two up to a page being aligned to itself, and leaves every other live block as it was; a
      failure changes nothing. */
  lemma {:induction false} AllocKeeps(s: Slab, b: Book, size: Word) returns (c: Book)
    requires Heap(s, b) && |s.arrays| == NZONES && forall zi :: 0 <= zi < NZONES && s.arrays[zi] != [] ==> Ready(s, zi)
    ensures Heap(Alloc(s, size).slab, c)
    ensures Alloc(s, size).address.None? ==> Alloc(s, size).slab == s && c == b
    ensures Alloc(s, size).address.Some? ==>
      Grain(s, size) >= size && Gained(b, c, Alloc(s, size).address.value, Grain(s, size))
    ensures Alloc(s, size).address.Some? ==> Alloc(s, size).address.value % 8 == 0
    ensures Alloc(s, size).address.Some? && PowerOfTwo(size) && size <= PAGE ==>
      Alloc(s, size).address.value % size == 0
  {
    hide Inv, Gained, Grain, PowerOfTwo;
    c := GrantKeeps(s, b, size);
    LimitAbovePage(s, b);
    if Alloc(s, size).address.Some? {
      var a := Alloc(s, size).address.value;
      GrantAligned(Alloc(s, size).slab, b, c, a, Grain(s, size));
      if PowerOfTwo(size) && size <= PAGE { PowerAligned(s, Alloc(s, size).slab, b, c, a, size); }
    }
  }

  lemma {:induction false} LimitAbovePage(s: Slab, b: Book)
    requires Heap(s, b)
    ensures PAGE < ZoneLimit(s.zoneSize)
  {
  }

  lemma {:induction false} PowerAligned(s: Slab, n: Slab, b: Book, c: Book, a: nat, size: Word)
    requires Heap(n, c) && Gained(b, c, a, Grain(s, size)) && PAGE < ZoneLimit(s.zoneSize)
    requires PowerOfTwo(size) && size <= PAGE
    ensures a % size == 0
  {
    hide Inv, PowerOfTwo;
    ZoneForPower(size);
    if a in c.chunks {
      if size >= 8 {
        LivePower(n, c, a);
      } else {
        PageIsPower();
        PowersDivide(size, 8);
        LiveAligned(n, c, a);
        MultipleTwice(a, 8, size);
      }
    } else {
      PageIsPower();
      PowersDivide(size, PAGE);
      LiveAligned(n, c, a);
      MultipleTwice(a, PAGE, size);
    }
  }

  lemma {:induction false} MultipleTwice(a: nat, d: nat, c: nat)
    requires d > 0 && c > 0 && a % d == 0 && d % c == 0
    ensures a % c == 0
  {
    var q, p := a / d, d / c;
    assert a == q * d && d == p * c;
    assert a == (q * p) * c;
    MultipleMod(q * p, c);
  }

  lemma {:induction false} GrantAligned(s: Slab, b: Book, c: Book, a: nat, size: nat)
    requires Heap(s, c) && Gained(b, c, a, size)
    ensures a % 8 == 0
  {
    hide Inv;
    LiveAligned(s, c, a);
  }

  lemma {:induction false} GrantKeeps(s: Slab, b: Book, size: Word) returns (c: Book)
    requires Heap(s, b) && |s.arrays| == NZONES && forall zi :: 0 <= zi < NZONES && s.arrays[zi] != [] ==> Ready(s, zi)
    ensures Heap(Alloc(s, size).slab, c)
    ensures Alloc(s, size).address.None? ==> Alloc(s, size).slab == s && c == b
    ensures Alloc(s, size).address.Some? ==>
      Grain(s, size) >= size && Gained(b, c, Alloc(s, size).address.value, Grain(s, size))
  {
    c := b;
    if size == 0 {
    } else if size >= ZoneLimit(s.zoneSize) {
      PageAlignCovers(size);
      NoPages(s);
      var k := PageAlign(size) / PAGE;
      if BigTake(s, k).Some? {
        c := BigGained(s, b, k, BigTake(s, k).value.0, BigTake(s, k).value.1);
        assert k * PAGE >= size;
      }
    } else {
      ZoneForFits(size);
      RoundedLimit(s.zoneSize, size);
      var zi := ZoneFor(size).1;
      NotNegative(s, b, zi);
      if AllocChunk(s, zi).address.Some? {
        c := ChunkKeeps(s, b, zi);
      }
    }
  }

  lemma {:induction false} NotNegative(s: Slab, b: Book, zi: nat)
    requires Heap(s, b) && zi < NZONES && |s.arrays| == NZONES && 0 < ChunkSize(zi)
    requires (s.arrays[zi] != [] ==> Ready(s, zi))
    ensures AllocChunk(s, zi).address.None? ==> AllocChunk(s, zi).slab == s
  {
    if s.arrays[zi] != [] { TakeFresh(s, b, zi, KEEP); }
  }

  /** Rounding never leaves the zones' range. */
  lemma {:induction false} RoundedLimit(zoneSize: nat, size: nat)
    requires ZoneSize(zoneSize) && 0 < size < ZoneLimit(zoneSize)
    ensures size < 16384 && 0 < ZoneFor(size).0 <= ZoneLimit(zoneSize)
  {
    ZoneForFits(size);
  }

  /** `c` is `b` without the live block at `a`. */
  ghost predicate Lost(b: Book, c: Book, a: nat) {
    && IsLive(b, a) && !IsLive(c, a)
    && forall x :: x != a ==> (IsLive(c, x) <==> IsLive(b, x)) && (IsLive(b, x) ==> SizeOf(c, x) == SizeOf(b, x))
  }

  lemma {:induction false} ChunkLost(s: Slab, b: Book, c: Book, a: nat)
    requires Heap(s, b) && a in b.chunks && c.chunks == b.chunks - {a} && c.big == b.big
    ensures Lost(b, c, a)
  {
    hide Inv;
    NotBoth(s, b, a);
  }

  lemma {:induction false} BigLost(s: Slab, b: Book, c: Book, p: nat)
    requires Heap(s, b) && p in b.big && c.chunks == b.chunks && c.big == b.big - {p}
    ensures Lost(b, c, p * PAGE)
  {
    BigAtPage(c.big, p);
    BigAtPage(b.big, p);
    if p * PAGE in b.chunks { NotBoth(s, b, p * PAGE); }
    hide Inv, BigAt, BigSize;
    forall x | x != p * PAGE ensures BigAt(c.big, x) <==> BigAt(b.big, x)
      ensures BigAt(b.big, x) ==> BigSize(b.big, x) == BigSize(c.big, x)
    {
      BigAtOther(b.big, c.big, p, x);
    }
  }

  /** Retiring and releasing zones moves no live block. */
  lemma {:induction false} SettleKeeps(s: Slab, b: Book, z: nat) returns (c: Book)
    requires Heap(s, b) && z in s.zones && s.zones[z].zi < |s.arrays| && z !in s.retired
    ensures Heap(Settle(s, z), c) && c.chunks == b.chunks && c.big == b.big
  {
    c := b;
    if s.zones[z].nfree == s.zones[z].nmax && s.arrays[s.zones[z].zi] != [z] {
      RetireKeeps(s, b, z, KEEP);
      var n := Retire(s, z);
      if |n.retired| > KEEP {
        assert n.retired[0] == z;
        hide Inv, Retire;
        EvictKeeps(n, b, KEEP + 1);
        GiveBackKeeps(Evict(n), b, z, KEEP);
        c := Reowned(b, z, ZonePages(Evict(n)), Nobody);
      } else {
        FewerThan(n, b);
      }
    }
  }

  lemma {:induction false} FewerThan(s: Slab, b: Book)
    requires Inv(s, b, KEEP + 1, None) && |s.retired| <= KEEP
    ensures Heap(s, b)
  {
  }

  /** Freeing a live block is always possible. */
  lemma {:induction false} Freeable(s: Slab, b: Book, a: nat)
    requires Heap(s, b) && IsLive(b, a)
    ensures a / PAGE < |s.usage| == |b.owner| && (s.usage[a / PAGE].kind != Large ==> InZoneOf(s, a))
    ensures a in b.chunks ==> s.usage[a / PAGE].kind == Small
    ensures a in b.chunks ==> b.owner[a / PAGE] == InZone(a / PAGE - s.usage[a / PAGE].size)
    ensures a !in b.chunks ==> s.usage[a / PAGE] == Usage(Large, b.big[a / PAGE])
  {
    hide PagesOwned, ZonesOk, ChunksOk, Listed, RetiredOk, Counted;
    if a in b.chunks {
      LiveZone(s, b, a, KEEP, None);
      ZoneBasics(s, b, b.owner[a / PAGE].z, KEEP, None);
    } else {
      assert Block(s, b.owner, a / PAGE, b.big[a / PAGE]);
    }
  }

  /** Freeing a live block keeps the heap and takes exactly that block out. */
  lemma {:induction false} FreeKeeps(s: Slab, b: Book, a: nat) returns (c: Book)
    requires Heap(s, b) && IsLive(b, a) && a / PAGE < |s.usage| && (s.usage[a / PAGE].kind != Large ==> InZoneOf(s, a))
    ensures Heap(Free(s, a), c) && Lost(b, c, a)
  {
    Freeable(s, b, a);
    hide Inv, Lost, BigAt, Free, Put, Settle, BigGive, InZoneOf;
    if a in b.chunks {
      var z := FreeIsPut(s, a);
      c := FreeChunkKeeps(s, b, a, z);
    } else {
      PageStart(b.big, a);
      var p := FreeIsBig(s, a);
      c := FreeBigKeeps(s, b, p);
    }
  }

  lemma {:induction false} FreeIsPut(s: Slab, a: nat) returns (z: nat)
    requires InZoneOf(s, a)
    ensures z == a / PAGE - s.usage[a / PAGE].size && z in s.zones && s.zones[z].zi < |s.arrays|
    ensures z in Put(s, z, a).zones && Put(s, z, a).zones[z].zi < |Put(s, z, a).arrays|
    ensures Free(s, a) == Settle(Put(s, z, a), z)
  {
    z := a / PAGE - s.usage[a / PAGE].size;
  }

  lemma {:induction false} FreeIsBig(s: Slab, a: nat) returns (p: nat)
    requires a / PAGE < |s.usage| && s.usage[a / PAGE].kind == Large
    ensures p == a / PAGE && p < |s.usage| && Free(s, a) == BigGive(s, p)
  {
    p := a / PAGE;
  }

  lemma {:induction false} PageStart(big: map<nat, nat>, a: nat)
    requires BigAt(big, a)
    ensures a / PAGE in big && a == a / PAGE * PAGE
  {
  }

  lemma {:induction false} FreeChunkKeeps(s: Slab, b: Book, a: nat, z: nat) returns (c: Book)
    requires Heap(s, b) && a in b.chunks && a / PAGE < |b.owner| && b.owner[a / PAGE] == InZone(z)
    ensures z in s.zones && s.zones[z].zi < |s.arrays| && z in Put(s, z, a).zones
    ensures Put(s, z, a).zones[z].zi < |Put(s, z, a).arrays|
    ensures Heap(Settle(Put(s, z, a), z), c) && Lost(b, c, a)
  {
    PutKeeps(s, b, a, z, KEEP);
    hide Inv, Settle, Lost;
    c := SettleKeeps(Put(s, z, a), Unchunk(b, a), z);
    ChunkLost(s, b, c, a);
  }

  lemma {:induction false} FreeBigKeeps(s: Slab, b: Book, p: nat) returns (c: Book)
    requires Heap(s, b) && p in b.big
    ensures p < |s.usage| && Heap(BigGive(s, p), c) && Lost(b, c, p * PAGE)
  {
    BigGiveKeeps(s, b, p, KEEP);
    c := Reowned(b, p, b.big[p], Nobody).(big := b.big - {p});
    assert c.chunks == b.chunks && c.big == b.big - {p};
    hide Inv, BigGive, Lost, Reowned;
    BigLost(s, b, c, p);
  }

  /** Calls on the heap: freeing concerns live blocks only. */
  datatype Call = Allocate(size: Word) | Release(a: nat)

  ghost predicate Step(s: Slab, b: Book, call: Call, n: Slab, c: Book) {
    match call
    case Allocate(size) =>
      && |s.arrays| == NZONES && (forall zi :: 0 <= zi < NZONES && s.arrays[zi] != [] ==> Ready(s, zi))
      && n == Alloc(s, size).slab
      && (if Alloc(s, size).address.Some?
          then exists k :: k >= size && Gained(b, c, Alloc(s, size).address.value, k) else c == b)
    case Release(a) =>
      && IsLive(b, a) && a / PAGE < |s.usage| && (s.usage[a / PAGE].kind != Large ==> InZoneOf(s, a))
      && n == Free(s, a) && Lost(b, c, a)
  }

  /** Every sequence of allocations of any size and frees of live blocks can be carried out, each step granting or
      taking exactly one block, and the heap stays one throughout. */
  lemma {:induction false} RunKeeps(s: Slab, b: Book, calls: seq<Call>) returns (trace: seq<(Slab, Book)>)
    requires Heap(s, b)
    ensures 0 < |trace| <= |calls| + 1 && trace[0] == (s, b)
    ensures forall i :: 0 <= i < |trace| ==> Heap(trace[i].0, trace[i].1)
    ensures forall i :: 0 <= i < |trace| - 1 ==> Step(trace[i].0, trace[i].1, calls[i], trace[i + 1].0, trace[i + 1].1)
    ensures |trace| <= |calls| ==>
      calls[|trace| - 1].Release? && !IsLive(trace[|trace| - 1].1, calls[|trace| - 1].a)
    decreases |calls|
  {
    hide Step, Heap;
    trace := [(s, b)];
    if calls != [] && (calls[0].Allocate? || IsLive(b, calls[0].a)) {
      var n, c := OneStep(s, b, calls[0]);
      var rest := RunKeeps(n, c, calls[1..]);
      trace := [(s, b)] + rest;
    }
  }

  lemma {:induction false} OneStep(s: Slab, b: Book, call: Call) returns (n: Slab, c: Book)
    requires Heap(s, b) && (call.Release? ==> IsLive(b, call.a))
    ensures Heap(n, c) && Step(s, b, call, n, c)
  {
    hide Inv;
    match call
    case Allocate(size) =>
      ListsReady(s, b);
      n := Alloc(s, size).slab;
      c := AllocKeeps(s, b, size);
    case Release(a) =>
      Freeable(s, b, a);
      n := Free(s, a);
      c := FreeKeeps(s, b, a);
  }

  /** Zone accounting, spelled out. Every chunk of a zone is exactly one of live, on the free list, or never handed
      out; the zone's count of free chunks is what that leaves. */
  lemma {:induction false} ZoneAccounting(s: Slab, b: Book, z: nat, i: nat)
    requires Heap(s, b) && z in s.zones && i < s.zones[z].nmax
    ensures var zn, a := s.zones[z], ChunkAt(s.zones[z], i);
      && zn.nmax >= 3 && zn.nfree == zn.nmax - 1 - zn.uindex + |zn.free|
      && (a in b.chunks ==> a !in zn.free && i <= zn.uindex && b.chunks[a] == zn.chunk)
      && (a >= 0 && a in zn.free ==> i <= zn.uindex)
      && (i <= zn.uindex ==> a in b.chunks || a in zn.free)
  {
    var zn, a := s.zones[z], ChunkAt(s.zones[z], i);
    assert Shaped(s.zoneSize, z, zn) && Accounted(zn, b.chunks);
    AtLeastThree(s.zoneSize, zn.zi);
    ChunkOwner(s, b, z, i, KEEP, None);
    if i <= zn.uindex { assert InUse(zn, b.chunks, i); }
    if a in b.chunks { LiveZone(s, b, a, KEEP, None); }
    if IsChunk(zn, a) {
      var j :| 0 <= j <= zn.uindex && a == ChunkAt(zn, j);
      if i < j { ChunkSpacing(zn, i, j); } else if j < i { ChunkSpacing(zn, j, i); }
    }
  }

  /** A zone is on exactly the list of its index while it has free chunks and is not retired; at most two zones stay
      retired, none with a live chunk; and `used` is the sum of the live sizes. */
  lemma {:induction false} HeapAccounting(s: Slab, b: Book, z: nat, zi: nat)
    requires Heap(s, b) && zi < NZONES
    ensures |s.arrays| == NZONES && |s.retired| <= KEEP && s.used == Total(b.chunks) + PAGE * Total(b.big)
    ensures s.used <= s.max
    ensures z in s.arrays[zi] <==> z in s.zones && s.zones[z].zi == zi && s.zones[z].nfree > 0 && z !in s.retired
    ensures z in s.retired ==> forall a :: a in b.chunks ==> a / PAGE < |b.owner| && b.owner[a / PAGE] != InZone(z)
  {
    assert z in s.arrays[zi] <==> OnList(s, zi, z);
    if z in s.retired {
      forall a | a in b.chunks ensures a / PAGE < |b.owner| && b.owner[a / PAGE] != InZone(z) {
        LiveZone(s, b, a, KEEP, None);
        NotRetired(s, b, b.owner[a / PAGE].z, a, KEEP, None);
      }
    }
  }

  /** The loop of `rt_slab_init` that doubles the zone size. */
  function ZoneSizeFor(limit: nat, z: nat): nat
    decreases 131072 - z
  {
    if 0 < z < 131072 && z * 2 < limit / 1024 then ZoneSizeFor(limit, z * 2) else z
  }

  lemma {:induction false} ZoneSizeChosen(limit: nat)
    ensures ZoneSize(ZoneSizeFor(limit, 32768))
  {
    assert ZoneSizeFor(limit, 131072) == 131072;
    assert ZoneSizeFor(limit, 65536) == (if 131072 < limit / 1024 then ZoneSizeFor(limit, 131072) else 65536);
    assert ZoneSizeFor(limit, 32768) == (if 65536 < limit / 1024 then ZoneSizeFor(limit, 65536) else 32768);
  }

  /** Pages of the usage table: four bytes for every page. */
  function TablePages(n: nat): nat {
    (n * 4 + PAGE - 1) / PAGE
  }

  /** `rt_slab_init` on `n` pages; the usage table is not cleared. */
  function Init(n: nat, usage: seq<Usage>): Slab {
    Slab(PageList.Alloc(Give([], 0, n), TablePages(n)).1, usage, map[], seq(NZONES, i => []), [], 0, 0,
         ZoneSizeFor(n * PAGE, 32768))
  }

  ghost function InitBook(n: nat): Book {
    Book(map[], map[], seq(n, i requires 0 <= i < n => if i < TablePages(n) then Table else Nobody))
  }

  /** A new heap is one whatever the table contains, and nothing is live. */
  lemma {:induction false} InitKeeps(n: nat, usage: seq<Usage>)
    requires n > 0 && |usage| == n
    ensures Heap(Init(n, usage), InitBook(n)) && forall a :: !IsLive(InitBook(n), a)
  {
    var s, b, t := Init(n, usage), InitBook(n), TablePages(n);
    assert 0 < t <= n;
    ZoneSizeChosen(n * PAGE);
    assert Give([], 0, n) == [Run(0, n)];
    assert FitAt([Run(0, n)], t, 0) == 0;
    AllocKeeps0([Run(0, n)], t);
    forall p: nat ensures PageList.Free(s.pages, p) <==> p < |b.owner| && b.owner[p] == Nobody {
      InitFree(n, t, p);
    }
    assert Total(map[]) == 0;
  }

  lemma {:induction false} AllocKeeps0(runs: seq<Run>, t: nat)
    requires Canonical(runs) && PageList.Alloc(runs, t).0.Some?
    ensures Canonical(PageList.Alloc(runs, t).1)
  {
    PageList.AllocKeeps(runs, t);
  }

  lemma {:induction false} InitFree(n: nat, t: nat, p: nat)
    requires 0 < t <= n
    ensures PageList.Free(PageList.Alloc([Run(0, n)], t).1, p) <==> t <= p < n
  {
    var r := PageList.Alloc([Run(0, n)], t).1;
    assert FitAt([Run(0, n)], t, 0) == 0;
    if n > t {
      assert r == [Run(t, n - t)];
      if t <= p < n { FreeIn(r, 0, p); }
    } else {
      assert r == [];
    }
  }

  /** Beyond a page a power of two is aligned only by luck: for every such size there is a heap whose first allocation
      of that size is not aligned to it, measured from the start of the heap. */
  lemma {:induction false} PowerBound(size: Word, usage: seq<Usage>)
    requires PowerOfTwo(size) && size > PAGE && |usage| == size / PAGE + size / PAGE / 2
    ensures var s := Init(|usage|, usage);
      && |s.arrays| == NZONES && (forall zi :: 0 <= zi < NZONES ==> s.arrays[zi] == [])
      && Alloc(s, size).address.Some? && Alloc(s, size).address.value % size != 0
  {
    hide PowerOfTwo, TablePages, ZoneLimit, ZoneSizeFor, Alloc;
    var n, k := |usage|, size / PAGE;
    BigPower(size);
    TableHalf(k);
    InitPages(n, usage);
    LimitSmall(size);
    FirstBig(n, TablePages(n), size, usage);
    BelowSize(TablePages(n) * PAGE, size);
  }

  lemma {:induction false} BelowSize(a: nat, size: nat)
    requires 0 < a < size
    ensures a % size != 0
  {
  }

  lemma {:induction false} TableHalf(k: nat)
    requires k >= 2 && k % 2 == 0
    ensures 1 <= TablePages(k + k / 2) <= k / 2
  {
  }

  lemma {:induction false} InitPages(n: nat, usage: seq<Usage>)
    requires 0 < TablePages(n) < n
    ensures Init(n, usage).pages == [Run(TablePages(n), n - TablePages(n))]
  {
    hide TablePages, ZoneSizeFor;
    assert Give([], 0, n) == [Run(0, n)];
    assert FitAt([Run(0, n)], TablePages(n), 0) == 0;
  }

  lemma {:induction false} FirstBig(n: nat, t: nat, size: Word, usage: seq<Usage>)
    requires t + size / PAGE <= n && Init(n, usage).pages == [Run(t, n - t)]
    requires size % PAGE == 0 && size > PAGE && ZoneLimit(Init(n, usage).zoneSize) <= size
    ensures var s := Init(n, usage);
      && |s.arrays| == NZONES && (forall zi :: 0 <= zi < NZONES ==> s.arrays[zi] == [])
      && Alloc(s, size).address == Some(t * PAGE)
  {
    hide TablePages, ZoneLimit, ZoneSizeFor, PageAlign;
    PageAlignExact(size);
    assert FitAt(Init(n, usage).pages, size / PAGE, 0) == 0;
  }

  lemma {:induction false} BigPower(size: Word)
    requires PowerOfTwo(size) && size > PAGE
    ensures size % PAGE == 0 && size / PAGE >= 2 && (size / PAGE) % 2 == 0 && (size == 8192 || size >= 16384)
  {
    PageIsPower();
    PowersDivide(PAGE, size);
    assert PowerOfTwo(8192);
    PowersDivide(8192, size);
  }

  lemma {:induction false} LimitSmall(size: Word)
    requires size == 8192 || size >= 16384
    ensures ZoneLimit(ZoneSizeFor((size / PAGE + size / PAGE / 2) * PAGE, 32768)) <= size
  {
    ZoneSizeChosen((size / PAGE + size / PAGE / 2) * PAGE);
    if size == 8192 { assert ZoneSizeFor(3 * PAGE, 32768) == 32768; }
  }

  lemma {:induction false} PageAlignExact(size: Word)
    requires size % PAGE == 0
    ensures PageAlign(size) == size
  {
    assert size <= U32 - PAGE;
    assert Wrap(size + PAGE - 1) == size + PAGE - 1;
  }

  /** Some zone of chunks of this size, not retired, has one to give. */
  ghost predicate InStock(s: Slab, chunk: nat) {
    exists z :: HasChunk(s, chunk, z)
  }

  ghost predicate HasChunk(s: Slab, chunk: nat, z: nat) {
    z in s.zones && s.zones[z].chunk == chunk && s.zones[z].nfree > 0 && z !in s.retired
  }

  /** `n` free pages lie in a row. */
  ghost predicate PagesInRow(s: Slab, n: nat) {
    exists a: nat :: AllFree(s.pages, a, n)
  }

  lemma {:induction false} StockIsList(s: Slab, b: Book, zi: nat)
    requires Heap(s, b) && zi < NZONES && |s.arrays| == NZONES
    ensures s.arrays[zi] != [] <==> InStock(s, ChunkSize(zi))
  {
    hide PagesOwned, BigOwned, ChunksOk, RetiredOk, Counted, ChunkSize, Accounted;
    if s.arrays[zi] != [] {
      TakeReady(s, b, zi, KEEP);
      assert HasChunk(s, ChunkSize(zi), s.arrays[zi][0]);
    }
    if InStock(s, ChunkSize(zi)) {
      var z :| HasChunk(s, ChunkSize(zi), z);
      ZoneBasics(s, b, z, KEEP, None);
      var i := s.zones[z].zi;
      if i < zi { ChunkSizeInjective(i, zi); }
      if zi < i { ChunkSizeInjective(zi, i); }
      assert OnList(s, zi, z) && z in s.arrays[zi];
    }
  }

  /** A request is served exactly if there is something to serve it from: for a large one, enough free pages in a row;
      for a small one, a chunk of its size in stock, a retired zone, or the pages of a new zone in a row. */
  ghost predicate Servable(s: Slab, size: Word) {
    && size != 0
    && if size >= ZoneLimit(s.zoneSize) then PageAlign(size) != 0 && PagesInRow(s, PageAlign(size) / PAGE)
       else InStock(s, ZoneFor(size).0) || s.retired != [] || PagesInRow(s, ZonePages(s))
  }

  lemma {:induction false} ServesExactly(s: Slab, b: Book, size: Word)
    requires Heap(s, b) && |s.arrays| == NZONES && forall zi :: 0 <= zi < NZONES && s.arrays[zi] != [] ==> Ready(s, zi)
    ensures Alloc(s, size).address.Some? <==> Servable(s, size)
  {
    HeapPages(s, b);
    hide Inv, Ready;
    if size == 0 {
    } else if size >= ZoneLimit(s.zoneSize) {
      PageAlignCovers(size);
      NoPages(s);
      if PageAlign(size) != 0 { AllocLowest(s.pages, PageAlign(size) / PAGE); }
    } else {
      LimitTop(s, b);
      ZoneForFits(size);
      var zi := ZoneFor(size).1;
      StockIsList(s, b, zi);
      AllocLowest(s.pages, ZonePages(s));
      if s.arrays[zi] != [] { TakeFresh(s, b, zi, KEEP); }
    }
  }

  lemma {:induction false} HeapPages(s: Slab, b: Book)
    requires Heap(s, b)
    ensures Canonical(s.pages) && ZonePages(s) > 0
  {
  }

  lemma {:induction false} LimitTop(s: Slab, b: Book)
    requires Heap(s, b)
    ensures ZoneLimit(s.zoneSize) <= 16384
  {
  }

  /** A small request draws on the stock first, then on retired zones, and takes new pages only when there is neither.
      The most ever in use is recorded. */
  lemma {:induction false} DrawsOn(s: Slab, b: Book, size: Word)
    requires Heap(s, b) && |s.arrays| == NZONES && forall zi :: 0 <= zi < NZONES && s.arrays[zi] != [] ==> Ready(s, zi)
    ensures Alloc(s, size).slab.max == Max(s.max, Alloc(s, size).slab.used)
    ensures 0 < size < ZoneLimit(s.zoneSize) ==>
      var n := Alloc(s, size).slab;
      && (InStock(s, ZoneFor(size).0) ==> n.pages == s.pages && n.retired == s.retired)
      && (!InStock(s, ZoneFor(size).0) && s.retired != [] ==>
            n.pages == s.pages && s.retired == [s.retired[0]] + n.retired)
      && (!InStock(s, ZoneFor(size).0) && s.retired == [] ==> n.retired == [])
  {
    MaxCovers(s, b);
    hide Inv, Ready, PageList.Alloc, ChunkSize, ZoneFor, PageAlign;
    if 0 < size < ZoneLimit(s.zoneSize) {
      LimitTop(s, b);
      ZoneForFits(size);
      StockIsList(s, b, ZoneFor(size).1);
    }
  }

  lemma {:induction false} MaxCovers(s: Slab, b: Book)
    requires Heap(s, b)
    ensures s.used <= s.max
  {
  }

  /** Freeing does not touch the most ever in use. */
  lemma {:induction false} FreeRecords(s: Slab, b: Book, a: nat)
    requires Heap(s, b) && IsLive(b, a) && a / PAGE < |s.usage| && (s.usage[a / PAGE].kind != Large ==> InZoneOf(s, a))
    ensures Free(s, a).max == s.max
  {
    hide Inv, PageList.Give;
  }

  /** Some other zone is on the list of zone `z`. */
  ghost predicate HasFellow(s: Slab, z: nat)
    requires z in s.zones
  {
    exists y :: y != z && OnList(s, s.zones[z].zi, y)
  }

  lemma {:induction false} OnlyElement(list: seq<nat>, z: nat)
    requires NoDup(list) && z in list
    ensures list == [z] <==> forall y :: y in list ==> y == z
  {
    assert |list| > 1 ==> list[0] in list && list[1] in list && Differ(list, 0, 1);
  }

  /** Settling after a free: a zone that became wholly free stays unless it has a fellow on its list; then it is
      retired, or its pages become free again if enough zones are retired already. */
  lemma {:induction false} SettleMeans(s: Slab, b: Book, z: nat)
    requires Heap(s, b) && z in s.zones && s.zones[z].zi < |s.arrays| && OnList(s, s.zones[z].zi, z)
    ensures var n := Settle(s, z);
      && n.used == s.used && n.max == s.max
      && if s.zones[z].nfree == s.zones[z].nmax && HasFellow(s, z) then
           if |s.retired| < KEEP then n.retired == [z] + s.retired && n.zones == s.zones && n.pages == s.pages
           else
             && n.retired == s.retired && n.zones == s.zones - {z}
             && forall p: nat :: PageList.Free(n.pages, p) <==>
                  PageList.Free(s.pages, p) || z <= p < z + ZonePages(s)
         else n == s
  {
    var i := s.zones[z].zi;
    ListFacts(s, b, i);
    OnlyElement(s.arrays[i], z);
    assert HasFellow(s, z) <==> s.arrays[i] != [z];
    ReleasedPages(s, b, z);
  }

  lemma {:induction false} ListFacts(s: Slab, b: Book, i: nat)
    requires Heap(s, b) && i < |s.arrays|
    ensures NoDup(s.arrays[i]) && |s.retired| <= KEEP && forall z :: z in s.arrays[i] <==> OnList(s, i, z)
  {
  }

  /** Giving back the pages of a zone makes exactly those free. */
  lemma {:induction false} ReleasedPages(s: Slab, b: Book, z: nat)
    requires Heap(s, b) && z in s.zones
    ensures forall p: nat :: PageList.Free(Give(s.pages, z, ZonePages(s)), p) <==>
      PageList.Free(s.pages, p) || z <= p < z + ZonePages(s)
  {
    assert Reserved(s, b.owner, z);
    assert NoneFree(s.pages, z, ZonePages(s)) by {
      forall p | z <= p < z + ZonePages(s) ensures !PageList.Free(s.pages, p) { assert b.owner[p] == InZone(z); }
    }
    HeapPages(s, b);
    PageList.GiveKeeps(s.pages, z, ZonePages(s));
  }
}
