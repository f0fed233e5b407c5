/** The chunk allocator of the slab heap (`rt_slab_alloc` and `rt_slab_free` in `rt-thread/src/slab.c`): zones of
    equal chunks, zone lists, retired zones and page-granular large blocks, on top of the page list.
    Addresses are bytes from the start of the heap. */
module SlabZone {
  import opened KernelTypes
  import opened Lists
  import opened PageList
  import opened ZoneIndex

  datatype Kind = Unused | Small | Large

  /** `struct rt_slab_memusage`: a page's type, and its offset in its zone or the length of its block. */
  datatype Usage = Usage(kind: Kind, size: nat)

  /** `struct rt_slab_zone`; `free` is `z_freechunk`. */
  datatype Zone = Zone(zi: nat, chunk: nat, base: nat, nmax: int, nfree: int, uindex: int, free: seq<nat>)

  /** `struct rt_slab`: `arrays` is `zone_array`, `retired` is `zone_free`. Zones are named by their first page. */
  datatype Slab = Slab(pages: seq<Run>, usage: seq<Usage>, zones: map<nat, Zone>, arrays: seq<seq<nat>>,
                       retired: seq<nat>, used: int, max: int, zoneSize: nat)

  /** To whom a page belongs: nobody, a zone, a large block, or the allocator's own table. */
  datatype Owner = Nobody | InZone(z: nat) | InBig(b: nat) | Table

  /** What the callers hold: the live chunks with their sizes, the live large blocks with their page counts;
      and the owner of every page. */
  datatype Book = Book(chunks: map<nat, nat>, big: map<nat, nat>, owner: seq<Owner>)

  function ZonePages(s: Slab): nat {
    s.zoneSize / PAGE
  }

  function ChunkAt(zn: Zone, i: int): int {
    zn.base + i * zn.chunk
  }

  /** An address that was handed out at least once. */
  ghost predicate IsChunk(zn: Zone, a: nat) {
    exists i :: 0 <= i <= zn.uindex && a == ChunkAt(zn, i)
  }

  /** The layout of a zone. */
  ghost predicate Shaped(zoneSize: nat, z: nat, zn: Zone) {
    && zn.zi < NZONES && zn.chunk == ChunkSize(zn.zi) && zn.chunk <= ZoneLimit(zoneSize) && zn.chunk > 0
    && zn.base == z * PAGE + Offset(zn.chunk) && zn.nmax == MaxChunks(zoneSize, zn.chunk)
    && 0 <= zn.uindex < zn.nmax
  }

  /** Every chunk handed out before is either on the free list or live, not both. */
  ghost predicate Accounted(zn: Zone, chunks: map<nat, nat>) {
    && zn.nfree == zn.nmax - 1 - zn.uindex + |zn.free|
    && NoDup(zn.free)
    && (forall a :: a in zn.free ==> IsChunk(zn, a) && a !in chunks)
    && (forall i :: 0 <= i <= zn.uindex ==> InUse(zn, chunks, i))
  }

  ghost predicate InUse(zn: Zone, chunks: map<nat, nat>, i: int) {
    ChunkAt(zn, i) in zn.free || ChunkAt(zn, i) in chunks
  }

  /** The pages of zone `z` are its own and marked with their offsets. */
  ghost predicate Reserved(s: Slab, owner: seq<Owner>, z: nat) {
    && z + ZonePages(s) <= |owner| == |s.usage|
    && forall p :: z <= p < z + ZonePages(s) ==> owner[p] == InZone(z) && s.usage[p] == Usage(Small, p - z)
  }

  ghost predicate PagesOwned(s: Slab, owner: seq<Owner>, extra: Option<nat>) {
    && |owner| == |s.usage| && Canonical(s.pages)
    && (forall p: nat :: Free(s.pages, p) <==> p < |owner| && owner[p] == Nobody)
    && (forall z :: z in s.zones ==> Reserved(s, owner, z))
    && (forall p :: 0 <= p < |owner| && owner[p].InZone? ==> OwnedBy(s, p, owner[p].z, extra))
  }

  ghost predicate OwnedBy(s: Slab, p: nat, z: nat, extra: Option<nat>) {
    (z in s.zones || extra == Some(z)) && z <= p < z + ZonePages(s)
  }

  ghost predicate BigOwned(s: Slab, b: Book) {
    forall a :: a in b.big ==> Block(s, b.owner, a, b.big[a])
  }

  ghost predicate Block(s: Slab, owner: seq<Owner>, a: nat, n: nat) {
    && n > 0 && a + n <= |owner| == |s.usage| && s.usage[a] == Usage(Large, n)
    && forall p :: a <= p < a + n ==> owner[p] == InBig(a)
  }

  ghost predicate ZonesOk(s: Slab, chunks: map<nat, nat>) {
    forall z :: z in s.zones ==> Shaped(s.zoneSize, z, s.zones[z]) && Accounted(s.zones[z], chunks)
  }

  /** Every live chunk is a chunk of the zone that owns its page. */
  ghost predicate ChunksOk(s: Slab, b: Book) {
    forall a :: a in b.chunks ==> LiveIn(s, b, a)
  }

  ghost predicate LiveIn(s: Slab, b: Book, a: nat)
    requires a in b.chunks
  {
    && a / PAGE < |b.owner| && b.owner[a / PAGE].InZone?
    && var z := b.owner[a / PAGE].z;
    && z in s.zones && IsChunk(s.zones[z], a) && b.chunks[a] == s.zones[z].chunk
  }

  /** A zone is on the list of its index exactly if it has free chunks and is not retired. */
  ghost predicate Listed(s: Slab) {
    && |s.arrays| == NZONES
    && (forall i :: 0 <= i < NZONES ==> NoDup(s.arrays[i]))
    && (forall i, z :: 0 <= i < NZONES ==> (z in s.arrays[i] <==> OnList(s, i, z)))
  }

  ghost predicate OnList(s: Slab, i: nat, z: nat) {
    z in s.zones && s.zones[z].zi == i && s.zones[z].nfree > 0 && z !in s.retired
  }

  ghost predicate RetiredOk(s: Slab, most: nat) {
    && NoDup(s.retired) && |s.retired| <= most
    && forall z :: z in s.retired ==> z in s.zones && s.zones[z].nfree == s.zones[z].nmax
  }

  ghost function Total(m: map<nat, nat>): nat {
    if m == map[] then 0 else var k := Least(m.Keys); m[k] + Total(m - {k})
  }

  ghost function Least(s: set<nat>): (k: nat)
    requires s != {}
    ensures k in s
  {
    var k :| k in s; k
  }

  ghost predicate Counted(s: Slab, b: Book) {
    s.used == Total(b.chunks) + PAGE * Total(b.big) && s.used <= s.max
  }

  /** What holds of every slab heap: `most` bounds the retired zones, `extra` is a zone in transit whose pages are
      taken but which is no zone yet, or no longer. */
  ghost predicate Inv(s: Slab, b: Book, most: nat, extra: Option<nat>) {
    && ZoneSize(s.zoneSize)
    && PagesOwned(s, b.owner, extra) && (extra.Some? ==> extra.value !in s.zones && Reserved(s, b.owner, extra.value))
    && BigOwned(s, b) && ZonesOk(s, b.chunks) && ChunksOk(s, b)
    && Listed(s) && RetiredOk(s, most) && Counted(s, b)
  }

  lemma {:induction false} TotalRemove(m: map<nat, nat>, k: nat)
    requires k in m
    ensures Total(m) == m[k] + Total(m - {k})
    decreases |m|
  {
    var l := Least(m.Keys);
    if l != k {
      TotalRemove(m - {l}, k);
      assert (m - {l}) - {k} == (m - {k}) - {l};
      var r := Least((m - {k}).Keys);
      TotalRemove(m - {k}, l);
    }
  }

  lemma {:induction false} TotalAdd(m: map<nat, nat>, k: nat, v: nat)
    requires k !in m
    ensures Total(m[k := v]) == v + Total(m)
  {
    TotalRemove(m[k := v], k);
    assert m[k := v] - {k} == m;
  }

  /** Chunks of one zone do not overlap, and lie inside the zone's pages. */
  lemma {:induction false} ChunkSpacing(zn: Zone, i: int, j: int)
    requires i < j && zn.chunk > 0
    ensures ChunkAt(zn, i) + zn.chunk <= ChunkAt(zn, j)
  {
    assert (j - i) * zn.chunk >= zn.chunk by { Scale(1, j - i, zn.chunk); }
    assert (j - i) * zn.chunk == j * zn.chunk - i * zn.chunk;
  }

  lemma {:induction false} Scale(i: int, j: int, c: int)
    requires i <= j && c >= 0
    ensures i * c <= j * c
  {
    assert (j - i) * c >= 0;
  }

  lemma {:induction false} ChunkInside(zoneSize: nat, z: nat, zn: Zone, i: int)
    requires ZoneSize(zoneSize) && Shaped(zoneSize, z, zn) && 0 <= i < zn.nmax
    ensures z * PAGE + HEADER <= ChunkAt(zn, i) && ChunkAt(zn, i) + zn.chunk <= z * PAGE + zoneSize
  {
    AtLeastThree(zoneSize, zn.zi);
    OffsetFits(zn.zi);
    Scale(0, i, zn.chunk);
    ChunkSpacing(zn, i, zn.nmax);
  }

  lemma {:induction false} ChunkPage(zoneSize: nat, z: nat, zn: Zone, i: int)
    requires ZoneSize(zoneSize) && Shaped(zoneSize, z, zn) && 0 <= i < zn.nmax
    ensures ChunkAt(zn, i) >= 0 && z <= ChunkAt(zn, i) / PAGE < z + zoneSize / PAGE
  {
    ChunkInside(zoneSize, z, zn, i);
    assert ChunkAt(zn, i) < (z + zoneSize / PAGE) * PAGE;
  }

  lemma {:induction false} ChunkAligned(zoneSize: nat, z: nat, zn: Zone, i: int)
    requires Shaped(zoneSize, z, zn)
    ensures ChunkAt(zn, i) % 8 == 0
  {
    OffsetFits(zn.zi);
    if zn.zi > 0 { ChunkSizeInjective(0, zn.zi); }
    var c, o, base := zn.chunk, Offset(zn.chunk), zn.base;
    Multiple(i, c);
    Multiple(z, PAGE);
    EightSum(z * PAGE, o);
    EightSum(base, i * c);
  }

  /** Chunks of a power of two up to a page are aligned to their size. */
  lemma {:induction false} ChunkPower(zoneSize: nat, z: nat, zn: Zone, i: int)
    requires Shaped(zoneSize, z, zn) && PowerOfTwo(zn.chunk) && zn.chunk <= PAGE
    ensures ChunkAt(zn, i) % zn.chunk == 0
  {
    hide PowerOfTwo, RoundUp, ChunkSize, MaxChunks;
    PageIsPower();
    PowersDivide(zn.chunk, PAGE);
    RoundUpBounds(HEADER, zn.chunk);
    MultipleSum(z, PAGE, Offset(zn.chunk), i, zn.chunk);
  }

  lemma {:induction false} MultipleSum(z: nat, page: nat, o: nat, i: int, c: nat)
    requires c > 0 && page % c == 0 && o % c == 0
    ensures (z * page + o + i * c) % c == 0
  {
    var q, r := page / c, o / c;
    assert page == q * c && o == r * c;
    assert z * (q * c) == (z * q) * c;
    var k := z * q + r + i;
    assert k * c == (z * q) * c + r * c + i * c;
    MultipleMod(k, c);
  }

  lemma {:induction false} MultipleMod(k: int, c: nat)
    requires c > 0
    ensures (k * c) % c == 0
  {
    var p, r := k * c / c, k * c % c;
    assert k * c == p * c + r;
    Multiples(p, k, c);
    Multiples(k, p, c);
  }

  lemma {:induction false} EightSum(a: int, b: int)
    requires a % 8 == 0 && b % 8 == 0
    ensures (a + b) % 8 == 0
  {
  }

  lemma {:induction false} Multiple(i: int, c: nat)
    requires c % 8 == 0
    ensures (i * c) % 8 == 0
  {
    assert i * c == 8 * (i * (c / 8)) by {
      assert c == 8 * (c / 8);
      assert i * (8 * (c / 8)) == 8 * (i * (c / 8));
    }
  }

  function Fill<T>(s: seq<T>, a: nat, n: nat, v: T): (r: seq<T>)
    ensures |r| == |s| && forall i :: 0 <= i < |s| ==> r[i] == if a <= i < a + n then v else s[i]
  {
    seq(|s|, i requires 0 <= i < |s| => if a <= i < a + n then v else s[i])
  }

  /** A freed chunk goes to the front of its zone's free list; a zone that was full goes back on its list. */
  function Put(s: Slab, z: nat, a: nat): Slab
    requires z in s.zones && s.zones[z].zi < |s.arrays|
  {
    var zn := s.zones[z];
    s.(zones := s.zones[z := zn.(free := [a] + zn.free, nfree := zn.nfree + 1)],
       arrays := if zn.nfree == 0 then s.arrays[zn.zi := [z] + s.arrays[zn.zi]] else s.arrays,
       used := s.used - zn.chunk)
  }

  /** A wholly free zone that is not alone on its list leaves it for the retired ones. */
  function Retire(s: Slab, z: nat): Slab
    requires z in s.zones && s.zones[z].zi < |s.arrays|
  {
    var i := s.zones[z].zi;
    s.(arrays := s.arrays[i := Without(s.arrays[i], z)], retired := [z] + s.retired)
  }

  /** The first retired zone is taken off the list and is no zone any more. */
  function Evict(s: Slab): Slab
    requires s.retired != []
  {
    s.(zones := s.zones - {s.retired[0]}, retired := s.retired[1..])
  }

  /** The pages of a zone go back to the page list. */
  function GiveBack(s: Slab, z: nat): Slab {
    s.(usage := Fill(s.usage, z, ZonePages(s), Usage(Unused, 0)), pages := Give(s.pages, z, ZonePages(s)))
  }

  /** Pages for a new zone. */
  function Obtain(s: Slab): Option<(nat, Slab)> {
    var (z, pages) := PageList.Alloc(s.pages, ZonePages(s));
    if z.None? then None
    else Some((z.value, s.(usage := Marked(s.usage, z.value, ZonePages(s)), pages := pages)))
  }

  function Marked(usage: seq<Usage>, z: nat, n: nat): (r: seq<Usage>)
    ensures |r| == |usage|
    ensures forall p :: 0 <= p < |usage| ==> r[p] == if z <= p < z + n then Usage(Small, p - z) else usage[p]
  {
    seq(|usage|, p requires 0 <= p < |usage| => if z <= p < z + n then Usage(Small, p - z) else usage[p])
  }

  /** A zone header is laid out for chunks of one size, the first chunk being handed out at once. */
  function Install(s: Slab, z: nat, zi: nat): Slab
    requires zi < |s.arrays| && zi < NZONES && ChunkSize(zi) > 0
  {
    var c := ChunkSize(zi);
    var n := MaxChunks(s.zoneSize, c);
    s.(zones := s.zones[z := Zone(zi, c, z * PAGE + Offset(c), n, n - 1, 0, [])],
       arrays := s.arrays[zi := [z] + s.arrays[zi]], used := s.used + c, max := Max(s.max, s.used + c))
  }

  /** The chunk the first zone of a list hands out: unused space first, then the free list. */
  function Next(zn: Zone): int
    requires zn.uindex + 1 == zn.nmax ==> zn.free != []
  {
    if zn.uindex + 1 != zn.nmax then ChunkAt(zn, zn.uindex + 1) else zn.free[0]
  }

  function Take(s: Slab, zi: nat): Slab
    requires zi < |s.arrays| && s.arrays[zi] != [] && s.arrays[zi][0] in s.zones
    requires var zn := s.zones[s.arrays[zi][0]]; zn.uindex + 1 == zn.nmax ==> zn.free != []
  {
    var z := s.arrays[zi][0];
    var zn := s.zones[z];
    var zn' := if zn.uindex + 1 != zn.nmax then zn.(nfree := zn.nfree - 1, uindex := zn.uindex + 1)
               else zn.(nfree := zn.nfree - 1, free := zn.free[1..]);
    s.(zones := s.zones[z := zn'], arrays := if zn.nfree == 1 then s.arrays[zi := s.arrays[zi][1..]] else s.arrays,
       used := s.used + zn.chunk, max := Max(s.max, s.used + zn.chunk))
  }

  function BigTake(s: Slab, n: nat): Option<(nat, Slab)> {
    var (p, pages) := PageList.Alloc(s.pages, n);
    if p.None? then None
    else Some((p.value, s.(usage := Fill(s.usage, p.value, 1, Usage(Large, n)), pages := pages,
                           used := s.used + n * PAGE, max := Max(s.max, s.used + n * PAGE))))
  }

  function BigGive(s: Slab, p: nat): Slab
    requires p < |s.usage|
  {
    var n := s.usage[p].size;
    s.(usage := s.usage[p := s.usage[p].(size := 0)], pages := Give(s.pages, p, n), used := s.used - n * PAGE)
  }

  /** Facts about zone addresses, as consequences of the invariant. */
  lemma {:induction false} LiveZone(s: Slab, b: Book, a: nat, most: nat, extra: Option<nat>)
    requires Inv(s, b, most, extra) && a in b.chunks
    ensures a / PAGE < |b.owner| == |s.usage| && b.owner[a / PAGE].InZone?
    ensures var z := b.owner[a / PAGE].z;
      && z in s.zones && IsChunk(s.zones[z], a) && b.chunks[a] == s.zones[z].chunk && a !in s.zones[z].free
      && s.usage[a / PAGE] == Usage(Small, a / PAGE - z) && z <= a / PAGE && s.zones[z].zi < NZONES
  {
    assert LiveIn(s, b, a);
    var p := a / PAGE;
    assert OwnedBy(s, p, b.owner[p].z, extra) && Reserved(s, b.owner, b.owner[p].z);
  }

  lemma {:induction false} ZoneBasics(s: Slab, b: Book, z: nat, most: nat, extra: Option<nat>)
    requires Inv(s, b, most, extra) && z in s.zones
    ensures s.zones[z].nfree >= 0 && s.zones[z].zi < NZONES == |s.arrays| && Shaped(s.zoneSize, z, s.zones[z])
  {
  }

  lemma {:induction false} ShapedRange(zoneSize: nat, z: nat, zn: Zone)
    requires Shaped(zoneSize, z, zn)
    ensures 0 <= zn.uindex < zn.nmax && zn.chunk > 0
  {
  }

  /** The page of a chunk belongs to its zone. */
  lemma {:induction false} ChunkOwner(s: Slab, b: Book, z: nat, i: int, most: nat, extra: Option<nat>)
    requires Inv(s, b, most, extra) && z in s.zones && 0 <= i < s.zones[z].nmax
    ensures ChunkAt(s.zones[z], i) >= 0 && ChunkAt(s.zones[z], i) / PAGE < |b.owner|
    ensures b.owner[ChunkAt(s.zones[z], i) / PAGE] == InZone(z)
  {
    ChunkPage(s.zoneSize, z, s.zones[z], i);
    assert Reserved(s, b.owner, z);
  }

  /** Changing which addresses are live leaves a zone accounted for if none of them is its own. */
  lemma {:induction false} AccountedFrame(zn: Zone, c: map<nat, nat>, d: map<nat, nat>)
    requires Accounted(zn, c) && forall i :: 0 <= i <= zn.uindex ==> (ChunkAt(zn, i) in c <==> ChunkAt(zn, i) in d)
    ensures Accounted(zn, d)
  {
    forall i | 0 <= i <= zn.uindex ensures InUse(zn, d, i) { assert InUse(zn, c, i); }
  }

  lemma {:induction false} OthersAccounted(s: Slab, b: Book, z: nat, a: nat, d: map<nat, nat>, most: nat,
      extra: Option<nat>)
    requires Inv(s, b, most, extra) && a / PAGE < |b.owner| && b.owner[a / PAGE] == InZone(z)
    requires forall x :: x != a ==> (x in b.chunks <==> x in d)
    ensures forall w :: w in s.zones && w != z ==> Accounted(s.zones[w], d)
  {
    forall w | w in s.zones && w != z ensures Accounted(s.zones[w], d) {
      forall i | 0 <= i <= s.zones[w].uindex
        ensures ChunkAt(s.zones[w], i) in b.chunks <==> ChunkAt(s.zones[w], i) in d
      {
        ChunkOwner(s, b, w, i, most, extra);
      }
      AccountedFrame(s.zones[w], b.chunks, d);
    }
  }

  lemma {:induction false} FreedAccounted(zn: Zone, c: map<nat, nat>, a: nat)
    requires Accounted(zn, c) && a in c && IsChunk(zn, a)
    ensures Accounted(zn.(free := [a] + zn.free, nfree := zn.nfree + 1), c - {a})
  {
    var n := zn.(free := [a] + zn.free, nfree := zn.nfree + 1);
    forall i | 0 <= i <= n.uindex ensures InUse(n, c - {a}, i) {
      assert InUse(zn, c, i) && ChunkAt(n, i) == ChunkAt(zn, i);
      assert forall x :: x in zn.free ==> x in n.free;
    }
    forall x | x in n.free ensures IsChunk(n, x) && x !in c - {a} {
      assert x == a || x in zn.free;
      assert IsChunk(zn, x);
      var i :| 0 <= i <= zn.uindex && x == ChunkAt(zn, i);
      assert x == ChunkAt(n, i);
    }
    NoDupAppend([a], zn.free);
  }

  /** The chunk size and layout of a zone survive; so do the chunks handed out. */
  ghost predicate SameLayout(x: Zone, y: Zone) {
    x.zi == y.zi && x.chunk == y.chunk && x.base == y.base && x.nmax == y.nmax && x.uindex == y.uindex
  }

  lemma {:induction false} ChunksFrame(s: Slab, b: Book, n: Slab, chunks: map<nat, nat>)
    requires ChunksOk(s, b) && (forall x :: x in chunks ==> x in b.chunks && chunks[x] == b.chunks[x])
    requires forall z :: z in s.zones ==> z in n.zones && SameLayout(s.zones[z], n.zones[z])
    ensures ChunksOk(n, b.(chunks := chunks))
  {
    forall x | x in chunks ensures LiveIn(n, b.(chunks := chunks), x) {
      assert LiveIn(s, b, x);
      var z := b.owner[x / PAGE].z;
      var i :| 0 <= i <= s.zones[z].uindex && x == ChunkAt(s.zones[z], i);
      assert x == ChunkAt(n.zones[z], i);
    }
  }

  lemma {:induction false} PagesFrame(s: Slab, n: Slab, b: Book, extra: Option<nat>)
    requires PagesOwned(s, b.owner, extra) && BigOwned(s, b)
    requires n.pages == s.pages && n.usage == s.usage && n.zoneSize == s.zoneSize && n.zones.Keys == s.zones.Keys
    ensures PagesOwned(n, b.owner, extra) && BigOwned(n, b)
  {
    forall z | z in n.zones ensures Reserved(n, b.owner, z) { assert z in s.zones.Keys && Reserved(s, b.owner, z); }
    forall p | 0 <= p < |b.owner| && b.owner[p].InZone? ensures OwnedBy(n, p, b.owner[p].z, extra) {
      assert OwnedBy(s, p, b.owner[p].z, extra);
      assert b.owner[p].z in s.zones ==> b.owner[p].z in n.zones.Keys;
    }
    forall a | a in b.big ensures Block(n, b.owner, a, b.big[a]) { assert Block(s, b.owner, a, b.big[a]); }
  }

  /** A zone all of whose chunks are free has no live chunk: its free list is as long as the chunks handed out. */
  lemma {:induction false} WholeFree(zn: Zone, c: map<nat, nat>, i: int)
    requires Accounted(zn, c) && zn.nfree == zn.nmax && zn.chunk > 0 && 0 <= i <= zn.uindex
    ensures ChunkAt(zn, i) in zn.free && ChunkAt(zn, i) !in c
  {
    if ChunkAt(zn, i) !in zn.free {
      var all := Handed(zn, zn.uindex + 1);
      FreeBound(zn, c, ChunkAt(zn, i));
    }
  }

  /** The addresses of the first `n` chunks. */
  ghost function Handed(zn: Zone, n: nat): set<int> {
    set i | 0 <= i < n :: ChunkAt(zn, i)
  }

  lemma {:induction false} HandedSize(zn: Zone, n: nat)
    requires zn.chunk > 0
    ensures |Handed(zn, n)| == n
  {
    if n > 0 {
      HandedSize(zn, n - 1);
      assert Handed(zn, n) == Handed(zn, n - 1) + {ChunkAt(zn, n - 1)};
      if ChunkAt(zn, n - 1) in Handed(zn, n - 1) {
        var i :| 0 <= i < n - 1 && ChunkAt(zn, i) == ChunkAt(zn, n - 1);
        ChunkSpacing(zn, i, n - 1);
      }
    }
  }

  lemma {:induction false} NoDupSize(s: seq<nat>)
    requires NoDup(s)
    ensures |(set x: int | x in s)| == |s|
  {
    if s != [] {
      var t := s[1..];
      NoDupTail(s);
      NoDupSize(t);
      assert (set x: int | x in s) == (set x: int | x in t) + {s[0] as int};
    }
  }

  /** The free list cannot be longer than the chunks handed out, and is shorter if one of those is not on it. */
  lemma {:induction false} FreeBound(zn: Zone, c: map<nat, nat>, a: int)
    requires Accounted(zn, c) && zn.chunk > 0 && zn.uindex >= 0
    ensures |zn.free| <= zn.uindex + 1
    ensures a in Handed(zn, zn.uindex + 1) && (a < 0 || a !in zn.free) ==> |zn.free| <= zn.uindex
  {
    var free, all := (set x: int | x in zn.free), Handed(zn, zn.uindex + 1);
    HandedSize(zn, zn.uindex + 1);
    NoDupSize(zn.free);
    assert free <= all by {
      forall x | x in zn.free ensures x in all { assert IsChunk(zn, x); }
    }
    Subset(free, all);
    if a in all && (a < 0 || a !in zn.free) { Subset(free, all - {a}); }
  }

  lemma {:induction false} Subset(x: set<int>, y: set<int>)
    requires x <= y
    ensures |x| <= |y|
  {
    assert y == x + (y - x);
  }

  /** Lists after one zone's place changed: `list` replaces the list of index `i`, with `z` on it or not. */
  lemma {:induction false} RelistedOk(s: Slab, n: Slab, z: nat, i: nat, list: seq<nat>)
    requires Listed(s) && i < NZONES && n.arrays == s.arrays[i := list] && NoDup(list)
    requires forall w :: w in list <==> (if w == z then OnList(n, i, z) else w in s.arrays[i])
    requires forall j :: 0 <= j < NZONES && j != i ==> !OnList(s, j, z) && !OnList(n, j, z)
    requires forall j, w :: 0 <= j < NZONES && w != z ==> (OnList(s, j, w) <==> OnList(n, j, w))
    ensures Listed(n)
  {
    forall j, w | 0 <= j < NZONES ensures w in n.arrays[j] <==> OnList(n, j, w) {
      assert w in s.arrays[j] <==> OnList(s, j, w);
      if j != i { assert n.arrays[j] == s.arrays[j]; }
    }
  }

  lemma {:induction false} NotRetired(s: Slab, b: Book, z: nat, a: nat, most: nat, extra: Option<nat>)
    requires Inv(s, b, most, extra) && z in s.zones && a in b.chunks && IsChunk(s.zones[z], a)
    ensures z !in s.retired && s.zones[z].nfree != s.zones[z].nmax
  {
    var zn := s.zones[z];
    var i :| 0 <= i <= zn.uindex && a == ChunkAt(zn, i);
    if zn.nfree == zn.nmax { WholeFree(zn, b.chunks, i); }
  }

  ghost function Unchunk(b: Book, a: nat): Book {
    b.(chunks := b.chunks - {a})
  }

  /** Freeing a live chunk, up to the zone becoming wholly free. */
  lemma {:induction false} PutKeeps(s: Slab, b: Book, a: nat, z: nat, most: nat)
    requires Inv(s, b, most, None) && a in b.chunks && a / PAGE < |b.owner| && b.owner[a / PAGE] == InZone(z)
    ensures z in s.zones && s.zones[z].zi < |s.arrays|
    ensures Inv(Put(s, z, a), Unchunk(b, a), most, None)
    ensures z !in Put(s, z, a).retired && Put(s, z, a).zones[z].nfree > 0
  {
    hide PagesOwned, BigOwned, ChunksOk, Listed, RetiredOk, Accounted, Shaped, IsChunk, ZonesOk;
    LiveZone(s, b, a, most, None);
    NotRetired(s, b, z, a, most, None);
    ZoneBasics(s, b, z, most, None);
    var n, c := Put(s, z, a), Unchunk(b, a);
    PutZones(s, b, a, z, most);
    ChunksFrame(s, b, n, c.chunks);
    PagesFrame(s, n, b, None);
    PagesSame(n, b, c, None);
    TotalRemove(b.chunks, a);
    PutListed(s, z, a);
    PutRetired(s, z, a, most);
  }

  lemma {:induction false} PagesSame(s: Slab, b: Book, c: Book, extra: Option<nat>)
    requires PagesOwned(s, b.owner, extra) && BigOwned(s, b) && c.owner == b.owner && c.big == b.big
    ensures PagesOwned(s, c.owner, extra) && BigOwned(s, c)
  {
    forall a | a in c.big ensures Block(s, c.owner, a, c.big[a]) { assert Block(s, b.owner, a, b.big[a]); }
  }

  lemma {:induction false} PutZones(s: Slab, b: Book, a: nat, z: nat, most: nat)
    requires Inv(s, b, most, None) && a in b.chunks && a / PAGE < |b.owner| && b.owner[a / PAGE] == InZone(z)
    requires z in s.zones && s.zones[z].zi < |s.arrays| && IsChunk(s.zones[z], a)
    ensures ZonesOk(Put(s, z, a), b.chunks - {a})
  {
    hide PagesOwned, BigOwned, ChunksOk, Listed, RetiredOk, Counted, Accounted, IsChunk;
    FreedAccounted(s.zones[z], b.chunks, a);
    OthersAccounted(s, b, z, a, b.chunks - {a}, most, None);
  }

  lemma {:induction false} PutListed(s: Slab, z: nat, a: nat)
    requires Listed(s) && z in s.zones && s.zones[z].zi < NZONES && s.zones[z].nfree >= 0 && z !in s.retired
    ensures Listed(Put(s, z, a))
  {
    var n, zn := Put(s, z, a), s.zones[z];
    var list := if zn.nfree == 0 then [z] + s.arrays[zn.zi] else s.arrays[zn.zi];
    assert z in s.arrays[zn.zi] <==> OnList(s, zn.zi, z);
    if zn.nfree == 0 { NoDupAppend([z], s.arrays[zn.zi]); }
    assert n.arrays == s.arrays[zn.zi := list];
    RelistedOk(s, n, z, zn.zi, list);
  }

  lemma {:induction false} PutRetired(s: Slab, z: nat, a: nat, most: nat)
    requires RetiredOk(s, most) && z in s.zones && s.zones[z].zi < |s.arrays| && z !in s.retired
    ensures RetiredOk(Put(s, z, a), most)
  {
  }

  /** Retiring a wholly free zone. */
  lemma {:induction false} RetireKeeps(s: Slab, b: Book, z: nat, most: nat)
    requires Inv(s, b, most, None) && z in s.zones && z !in s.retired && s.zones[z].nfree == s.zones[z].nmax
    ensures s.zones[z].zi < |s.arrays| && Inv(Retire(s, z), b, most + 1, None)
  {
    var n, i := Retire(s, z), s.zones[z].zi;
    WithoutNoDup(s.arrays[i], z);
    NoDupAppend([z], s.retired);
    PagesFrame(s, n, b, None);
    ChunksFrame(s, b, n, b.chunks);
    assert b.(chunks := b.chunks) == b;
    RelistedOk(s, n, z, i, Without(s.arrays[i], z));
  }

  /** Taking the first retired zone off the list: it has no live chunk, and no list names it. */
  lemma {:induction false} EvictKeeps(s: Slab, b: Book, most: nat)
    requires Inv(s, b, most, None) && s.retired != [] && most > 0
    ensures Inv(Evict(s), b, most - 1, Some(s.retired[0]))
  {
    var n, z := Evict(s), s.retired[0];
    assert z in s.retired;
    EvictRetired(s, most);
    EvictChunks(s, b, most);
    EvictPages(s, b);
    forall j, w | 0 <= j < NZONES ensures w in n.arrays[j] <==> OnList(n, j, w) {
      assert w in s.arrays[j] <==> OnList(s, j, w);
      assert w in s.retired <==> w == z || w in n.retired;
    }
  }

  lemma {:induction false} EvictRetired(s: Slab, most: nat)
    requires RetiredOk(s, most) && s.retired != [] && most > 0
    ensures RetiredOk(Evict(s), most - 1) && s.retired[0] !in Evict(s).retired
  {
    NoDupTail(s.retired);
  }

  lemma {:induction false} EvictChunks(s: Slab, b: Book, most: nat)
    requires Inv(s, b, most, None) && s.retired != []
    ensures ChunksOk(Evict(s), b)
  {
    forall x | x in b.chunks ensures LiveIn(Evict(s), b, x) {
      assert LiveIn(s, b, x);
      NotRetired(s, b, b.owner[x / PAGE].z, x, most, None);
      assert s.retired[0] in s.retired;
    }
  }

  lemma {:induction false} EvictPages(s: Slab, b: Book)
    requires PagesOwned(s, b.owner, None) && BigOwned(s, b) && s.retired != [] && s.retired[0] in s.zones
    ensures PagesOwned(Evict(s), b.owner, Some(s.retired[0])) && BigOwned(Evict(s), b)
    ensures Reserved(Evict(s), b.owner, s.retired[0])
  {
    var n, z := Evict(s), s.retired[0];
    forall w | w in n.zones || w == z ensures Reserved(n, b.owner, w) { assert Reserved(s, b.owner, w); }
    forall p | 0 <= p < |b.owner| && b.owner[p].InZone? ensures OwnedBy(n, p, b.owner[p].z, Some(z)) {
      assert OwnedBy(s, p, b.owner[p].z, None);
    }
    forall a | a in b.big ensures Block(n, b.owner, a, b.big[a]) { assert Block(s, b.owner, a, b.big[a]); }
  }

  ghost function Reowned(b: Book, a: nat, n: nat, o: Owner): Book {
    b.(owner := Fill(b.owner, a, n, o))
  }

  /** Pages of a range change hands: whoever owned other pages still does. */
  lemma {:induction false} ZonesElsewhere(s: Slab, n: Slab, b: Book, a: nat, k: nat, o: Owner, extra: Option<nat>)
    requires PagesOwned(s, b.owner, extra) && ChunksOk(s, b)
    requires n.zoneSize == s.zoneSize && n.zones == s.zones && |n.usage| == |s.usage|
    requires forall p :: 0 <= p < |s.usage| && !(a <= p < a + k) ==> n.usage[p] == s.usage[p]
    requires forall p :: a <= p < a + k && p < |b.owner| && b.owner[p].InZone? ==> b.owner[p].z !in s.zones
    ensures (forall z :: z in n.zones ==> Reserved(n, Fill(b.owner, a, k, o), z)) && ChunksOk(n, Reowned(b, a, k, o))
  {
    var owner := Fill(b.owner, a, k, o);
    forall z | z in n.zones ensures Reserved(n, owner, z) {
      assert Reserved(s, b.owner, z);
      forall p | z <= p < z + ZonePages(s) ensures owner[p] == InZone(z) && n.usage[p] == Usage(Small, p - z) {
        assert b.owner[p] == InZone(z);
      }
    }
    forall x | x in b.chunks ensures LiveIn(n, Reowned(b, a, k, o), x) {
      assert LiveIn(s, b, x);
      assert owner[x / PAGE] == b.owner[x / PAGE];
    }
  }

  lemma {:induction false} BigElsewhere(s: Slab, n: Slab, b: Book, a: nat, k: nat, o: Owner, big: map<nat, nat>)
    requires BigOwned(s, b) && |b.owner| == |n.usage| == |s.usage|
    requires forall p :: 0 <= p < |s.usage| && !(a <= p < a + k) ==> n.usage[p] == s.usage[p]
    requires forall p, x :: a <= p < a + k && p < |b.owner| && x in big ==> b.owner[p] != InBig(x)
    requires forall x :: x in big ==> x in b.big && b.big[x] == big[x]
    ensures BigOwned(n, Reowned(b, a, k, o).(big := big))
  {
    var owner := Fill(b.owner, a, k, o);
    forall x | x in big ensures Block(n, owner, x, big[x]) {
      assert Block(s, b.owner, x, b.big[x]);
      assert b.owner[x] == InBig(x);
      forall p | x <= p < x + big[x] ensures owner[p] == InBig(x) { assert b.owner[p] == InBig(x); }
    }
  }

  /** Returning an evicted zone's pages. */
  lemma {:induction false} GiveBackKeeps(s: Slab, b: Book, z: nat, most: nat)
    requires Inv(s, b, most, Some(z))
    ensures Inv(GiveBack(s, z), Reowned(b, z, ZonePages(s), Nobody), most, None)
  {
    var n, k, c := GiveBack(s, z), ZonePages(s), Reowned(b, z, ZonePages(s), Nobody);
    assert Reserved(s, b.owner, z);
    forall p | z <= p < z + k ensures !Free(s.pages, p) { assert b.owner[p] == InZone(z); }
    GiveKeeps(s.pages, z, k);
    ZonesElsewhere(s, n, b, z, k, Nobody, Some(z));
    BigElsewhere(s, n, b, z, k, Nobody, b.big);
    forall p | 0 <= p < |c.owner| && c.owner[p].InZone? ensures OwnedBy(n, p, c.owner[p].z, None) {
      assert OwnedBy(s, p, b.owner[p].z, Some(z));
    }
    assert PagesOwned(n, c.owner, None);
    assert c.(big := b.big) == c;
    RestFrame(s, n, b, c, most);
  }

  /** The parts of the invariant that do not speak of pages. */
  lemma {:induction false} RestFrame(s: Slab, n: Slab, b: Book, c: Book, most: nat)
    requires ZonesOk(s, b.chunks) && Listed(s) && RetiredOk(s, most)
    requires n.zones == s.zones && n.arrays == s.arrays && n.retired == s.retired
    requires n.zoneSize == s.zoneSize && c.chunks == b.chunks
    ensures ZonesOk(n, c.chunks) && Listed(n) && RetiredOk(n, most)
  {
    forall j, w | 0 <= j < NZONES ensures w in n.arrays[j] <==> OnList(n, j, w) {
      assert w in s.arrays[j] <==> OnList(s, j, w);
    }
  }

  /** Free pages in a row, by owner. */
  lemma {:induction false} RowOfFree(s: Slab, b: Book, k: nat, extra: Option<nat>)
    requires PagesOwned(s, b.owner, extra) && PageList.Alloc(s.pages, k).0.Some? && k > 0
    ensures var a := PageList.Alloc(s.pages, k).0.value;
      a + k <= |b.owner| && forall p :: a <= p < a + k ==> b.owner[p] == Nobody
  {
    var a := PageList.Alloc(s.pages, k).0.value;
    AllocKeeps(s.pages, k);
    assert Free(s.pages, a + k - 1);
    forall p | a <= p < a + k ensures p < |b.owner| && b.owner[p] == Nobody { assert Free(s.pages, p); }
  }

  /** Obtaining the pages of a new zone. */
  lemma {:induction false} ObtainKeeps(s: Slab, b: Book, most: nat, z: nat, n: Slab)
    requires Inv(s, b, most, None) && Obtain(s) == Some((z, n))
    ensures Inv(n, Reowned(b, z, ZonePages(s), InZone(z)), most, Some(z)) && n.zoneSize == s.zoneSize
    ensures n.zones == s.zones
  {
    var k, o := ZonePages(s), InZone(z);
    var c := Reowned(b, z, k, o);
    ObtainOwned(s, b, z, n, c);
    hide PagesOwned, BigOwned, ChunksOk, Reserved;
    RestFrame(s, n, b, c, most);
  }

  lemma {:induction false} ObtainOwned(s: Slab, b: Book, z: nat, n: Slab, c: Book)
    requires ZonePages(s) > 0 && PagesOwned(s, b.owner, None) && ChunksOk(s, b) && BigOwned(s, b)
    requires Obtain(s) == Some((z, n))
    requires c == Reowned(b, z, ZonePages(s), InZone(z))
    ensures PagesOwned(n, c.owner, Some(z)) && Reserved(n, c.owner, z) && z !in s.zones && ChunksOk(n, c)
    ensures BigOwned(n, c)
  {
    var k, o := ZonePages(s), InZone(z);
    assert z in s.zones ==> Reserved(s, b.owner, z);
    RowOfFree(s, b, k, None);
    AllocKeeps(s.pages, k);
    assert b.owner[z] == Nobody;
    ZonesElsewhere(s, n, b, z, k, o, None);
    BigElsewhere(s, n, b, z, k, o, b.big);
    assert c.(big := b.big) == c;
    forall p | 0 <= p < |c.owner| && c.owner[p].InZone? ensures OwnedBy(n, p, c.owner[p].z, Some(z)) {
      if !(z <= p < z + k) { assert OwnedBy(s, p, b.owner[p].z, None); }
    }
  }

  ghost function Grant(b: Book, a: nat, size: nat): Book {
    b.(chunks := b.chunks[a := size])
  }

  /** Chunks stay accounted for when a zone's own chunk is granted. */
  lemma {:induction false} ChunksGranted(s: Slab, b: Book, n: Slab, a: nat, z: nat)
    requires ChunksOk(s, b) && a / PAGE < |b.owner| && b.owner[a / PAGE] == InZone(z)
    requires z in n.zones && IsChunk(n.zones[z], a)
    requires forall w, x :: w in s.zones && IsChunk(s.zones[w], x) ==>
      w in n.zones && IsChunk(n.zones[w], x) && n.zones[w].chunk == s.zones[w].chunk
    ensures ChunksOk(n, Grant(b, a, n.zones[z].chunk))
  {
    var c := Grant(b, a, n.zones[z].chunk);
    forall x | x in c.chunks ensures LiveIn(n, c, x) {
      if x != a { assert LiveIn(s, b, x); }
    }
  }

  /** Laying out a zone in transit: its first chunk is granted. */
  lemma {:induction false} InstallKeeps(s: Slab, b: Book, z: nat, zi: nat, most: nat)
    requires Inv(s, b, most, Some(z)) && zi < NZONES && ChunkSize(zi) <= ZoneLimit(s.zoneSize)
    ensures ChunkSize(zi) > 0 && |s.arrays| == NZONES && z * PAGE + Offset(ChunkSize(zi)) !in b.chunks
    ensures Inv(Install(s, z, zi), Grant(b, z * PAGE + Offset(ChunkSize(zi)), ChunkSize(zi)), most, None)
  {
    hide PagesOwned, BigOwned, ChunksOk, Listed, RetiredOk, Accounted, Shaped, IsChunk, ZonesOk, Reserved, Offset;
    InstallFresh(s, b, z, zi, most);
    var a, n, k := z * PAGE + Offset(ChunkSize(zi)), Install(s, z, zi), ChunkSize(zi);
    var c := Grant(b, a, k);
    TotalAdd(b.chunks, a, k);
    InstallZones(s, b, z, zi, a, most);
    InstallPages(s, n, b, z);
    PagesSame(n, b, c, None);
    ChunksGranted(s, b, n, a, z);
    InstallLists(s, z, zi, most);
  }

  /** The first chunk of a zone in transit was not live. */
  lemma {:induction false} InstallFresh(s: Slab, b: Book, z: nat, zi: nat, most: nat)
    requires Inv(s, b, most, Some(z)) && zi < NZONES && ChunkSize(zi) <= ZoneLimit(s.zoneSize)
    ensures ChunkSize(zi) > 0 && |s.arrays| == NZONES && MaxChunks(s.zoneSize, ChunkSize(zi)) >= 3
    ensures var a := z * PAGE + Offset(ChunkSize(zi)); var zn := Install(s, z, zi).zones[z];
      a !in b.chunks && Shaped(s.zoneSize, z, zn) && IsChunk(zn, a)
      && a / PAGE < |b.owner| && b.owner[a / PAGE] == InZone(z)
  {
    hide PagesOwned, BigOwned, RetiredOk, Accounted, ZonesOk, Offset;
    AtLeastThree(s.zoneSize, zi);
    var a, zn := z * PAGE + Offset(ChunkSize(zi)), Install(s, z, zi).zones[z];
    assert ChunkAt(zn, 0) == a;
    ChunkPage(s.zoneSize, z, zn, 0);
    assert Reserved(s, b.owner, z);
    if a in b.chunks { assert LiveIn(s, b, a); }
  }

  lemma {:induction false} InstallZones(s: Slab, b: Book, z: nat, zi: nat, a: nat, most: nat)
    requires Inv(s, b, most, Some(z)) && zi < NZONES && 0 < ChunkSize(zi) <= ZoneLimit(s.zoneSize)
    requires a == z * PAGE + Offset(ChunkSize(zi)) && a / PAGE < |b.owner| && b.owner[a / PAGE] == InZone(z)
    requires Shaped(s.zoneSize, z, Install(s, z, zi).zones[z])
    ensures ZonesOk(Install(s, z, zi), b.chunks[a := ChunkSize(zi)])
  {
    var n, d := Install(s, z, zi), b.chunks[a := ChunkSize(zi)];
    OthersAccounted(s, b, z, a, d, most, Some(z));
    assert Accounted(n.zones[z], d) by {
      assert ChunkAt(n.zones[z], 0) == a;
      forall i | 0 <= i <= 0 ensures InUse(n.zones[z], d, i) { assert i == 0; }
    }
  }

  lemma {:induction false} InstallPages(s: Slab, n: Slab, b: Book, z: nat)
    requires PagesOwned(s, b.owner, Some(z)) && BigOwned(s, b) && Reserved(s, b.owner, z)
    requires n.pages == s.pages && n.usage == s.usage && n.zoneSize == s.zoneSize && n.zones.Keys == s.zones.Keys + {z}
    ensures PagesOwned(n, b.owner, None) && BigOwned(n, b)
  {
    forall w | w in n.zones ensures Reserved(n, b.owner, w) {
      assert w in n.zones.Keys;
      assert Reserved(s, b.owner, w);
    }
    forall p | 0 <= p < |b.owner| && b.owner[p].InZone? ensures OwnedBy(n, p, b.owner[p].z, None) {
      assert OwnedBy(s, p, b.owner[p].z, Some(z));
      assert b.owner[p].z in n.zones.Keys;
    }
    forall x | x in b.big ensures Block(n, b.owner, x, b.big[x]) { assert Block(s, b.owner, x, b.big[x]); }
  }

  lemma {:induction false} InstallLists(s: Slab, z: nat, zi: nat, most: nat)
    requires Listed(s) && RetiredOk(s, most) && z !in s.zones && zi < NZONES && ChunkSize(zi) > 0
    requires MaxChunks(s.zoneSize, ChunkSize(zi)) >= 3
    ensures Listed(Install(s, z, zi)) && RetiredOk(Install(s, z, zi), most)
  {
    var n := Install(s, z, zi);
    assert z in s.arrays[zi] <==> OnList(s, zi, z);
    NoDupAppend([z], s.arrays[zi]);
    RelistedOk(s, n, z, zi, [z] + s.arrays[zi]);
  }

  /** Handing out a chunk from the first zone of a list. */
  lemma {:induction false} TakeReady(s: Slab, b: Book, zi: nat, most: nat)
    requires Inv(s, b, most, None) && zi < NZONES && |s.arrays| == NZONES && s.arrays[zi] != []
    ensures var z := s.arrays[zi][0];
      && OnList(s, zi, z) && (s.zones[z].uindex + 1 == s.zones[z].nmax ==> s.zones[z].free != [])
      && s.zones[z].chunk == ChunkSize(zi)
  {
    assert s.arrays[zi][0] in s.arrays[zi];
  }

  ghost predicate Ready(s: Slab, zi: nat) {
    && zi < |s.arrays| && s.arrays[zi] != [] && s.arrays[zi][0] in s.zones
    && var zn := s.zones[s.arrays[zi][0]]; zn.uindex + 1 == zn.nmax ==> zn.free != []
  }

  /** The zone after handing out its next chunk `a`, which was not live. */
  lemma {:induction false} TakenAccounted(zn: Zone, c: map<nat, nat>, a: nat, k: nat, n: Zone)
    requires Accounted(zn, c) && zn.chunk > 0 && 0 <= zn.uindex < zn.nmax && zn.nfree > 0 && a !in c
    requires if zn.uindex + 1 != zn.nmax then
        a == ChunkAt(zn, zn.uindex + 1) && n == zn.(nfree := zn.nfree - 1, uindex := zn.uindex + 1)
      else zn.free != [] && a == zn.free[0] && n == zn.(nfree := zn.nfree - 1, free := zn.free[1..])
    ensures Accounted(n, c[a := k]) && IsChunk(n, a) && forall x :: IsChunk(zn, x) ==> IsChunk(n, x)
  {
    var d := c[a := k];
    forall x | IsChunk(zn, x) ensures IsChunk(n, x) {
      var i :| 0 <= i <= zn.uindex && x == ChunkAt(zn, i);
      assert x == ChunkAt(n, i);
    }
    if zn.uindex + 1 != zn.nmax {
      assert a == ChunkAt(n, n.uindex);
      if a in zn.free {
        var i :| 0 <= i <= zn.uindex && a == ChunkAt(zn, i);
        ChunkSpacing(zn, i, zn.uindex + 1);
      }
      forall i | 0 <= i <= n.uindex ensures InUse(n, d, i) {
        if i <= zn.uindex { assert InUse(zn, c, i) && ChunkAt(n, i) == ChunkAt(zn, i); }
      }
    } else {
      assert a in zn.free;
      NoDupTail(zn.free);
      forall i | 0 <= i <= n.uindex ensures InUse(n, d, i) {
        assert InUse(zn, c, i) && ChunkAt(n, i) == ChunkAt(zn, i);
      }
    }
  }

  /** The chunk handed out is one of the zone's own and was not live: no chunk is handed out twice. */
  lemma {:induction false} TakeFresh(s: Slab, b: Book, zi: nat, most: nat)
    requires Inv(s, b, most, None) && Ready(s, zi) && zi < NZONES
    ensures var zn := s.zones[s.arrays[zi][0]]; var a := Next(zn);
      && a >= 0 && a !in b.chunks && (exists i :: 0 <= i < zn.nmax && a == ChunkAt(zn, i))
      && a / PAGE < |b.owner| && b.owner[a / PAGE] == InZone(s.arrays[zi][0])
  {
    hide PagesOwned, BigOwned, Listed, RetiredOk, Shaped, Counted;
    var z := s.arrays[zi][0];
    var zn, a := s.zones[z], Next(s.zones[z]);
    ZoneBasics(s, b, z, most, None);
    ShapedRange(s.zoneSize, z, zn);
    if zn.uindex + 1 != zn.nmax {
      ChunkOwner(s, b, z, zn.uindex + 1, most, None);
      if a in b.chunks {
        assert LiveIn(s, b, a);
        var i :| 0 <= i <= zn.uindex && a == ChunkAt(zn, i);
        ChunkSpacing(zn, i, zn.uindex + 1);
      }
    } else {
      assert a in zn.free && IsChunk(zn, a);
      var i :| 0 <= i <= zn.uindex && a == ChunkAt(zn, i);
      ChunkOwner(s, b, z, i, most, None);
    }
  }

  lemma {:induction false} TakeKeeps(s: Slab, b: Book, zi: nat, most: nat)
    requires Inv(s, b, most, None) && zi < NZONES && |s.arrays| == NZONES && s.arrays[zi] != []
    ensures Ready(s, zi) && Next(s.zones[s.arrays[zi][0]]) >= 0
    ensures Inv(Take(s, zi), Grant(b, Next(s.zones[s.arrays[zi][0]]), ChunkSize(zi)), most, None)
  {
    hide PagesOwned, BigOwned, ZonesOk, ChunksOk, Listed, RetiredOk, Shaped, Accounted, IsChunk;
    TakeReady(s, b, zi, most);
    TakeFresh(s, b, zi, most);
    var z, n := s.arrays[zi][0], Take(s, zi);
    var a := Next(s.zones[z]);
    var c := Grant(b, a, ChunkSize(zi));
    TakeZones(s, b, zi, z, a, most);
    TakeLists(s, zi, z, most);
    PagesFrame(s, n, b, None);
    PagesSame(n, b, c, None);
    TotalAdd(b.chunks, a, ChunkSize(zi));
    ChunksGranted(s, b, n, a, z);
  }

  lemma {:induction false} TakeZones(s: Slab, b: Book, zi: nat, z: nat, a: nat, most: nat)
    requires Inv(s, b, most, None) && Ready(s, zi) && z == s.arrays[zi][0] && OnList(s, zi, z) && zi < NZONES
    requires a == Next(s.zones[z]) && a !in b.chunks && a / PAGE < |b.owner| && b.owner[a / PAGE] == InZone(z)
    ensures ZonesOk(Take(s, zi), b.chunks[a := ChunkSize(zi)]) && IsChunk(Take(s, zi).zones[z], a)
    ensures forall w, x :: w in s.zones && IsChunk(s.zones[w], x) ==>
      w in Take(s, zi).zones && IsChunk(Take(s, zi).zones[w], x) && Take(s, zi).zones[w].chunk == s.zones[w].chunk
  {
    hide Accounted, IsChunk, PagesOwned, BigOwned, ChunksOk, Listed, RetiredOk, Counted;
    var n, d := Take(s, zi), b.chunks[a := ChunkSize(zi)];
    TakenAccounted(s.zones[z], b.chunks, a, ChunkSize(zi), n.zones[z]);
    OthersAccounted(s, b, z, a, d, most, None);
  }

  lemma {:induction false} TakeLists(s: Slab, zi: nat, z: nat, most: nat)
    requires Listed(s) && RetiredOk(s, most) && Ready(s, zi) && z == s.arrays[zi][0] && OnList(s, zi, z) && zi < NZONES
    ensures Listed(Take(s, zi)) && RetiredOk(Take(s, zi), most)
  {
    var n := Take(s, zi);
    var list := if s.zones[z].nfree == 1 then s.arrays[zi][1..] else s.arrays[zi];
    NoDupTail(s.arrays[zi]);
    RelistedOk(s, n, z, zi, list);
  }

  /** Large blocks. */
  lemma {:induction false} BigTakeKeeps(s: Slab, b: Book, k: nat, most: nat, p: nat, n: Slab)
    requires Inv(s, b, most, None) && k > 0 && BigTake(s, k) == Some((p, n))
    ensures p !in b.big && Inv(n, Reowned(b, p, k, InBig(p)).(big := b.big[p := k]), most, None)
  {
    var c := Reowned(b, p, k, InBig(p)).(big := b.big[p := k]);
    BigTakeOwned(s, b, k, p, n, c);
    TotalAdd(b.big, p, k);
    hide PagesOwned, BigOwned, ChunksOk, Reserved;
    RestFrame(s, n, b, c, most);
  }

  lemma {:induction false} BigTakeOwned(s: Slab, b: Book, k: nat, p: nat, n: Slab, c: Book)
    requires k > 0 && PagesOwned(s, b.owner, None) && ChunksOk(s, b) && BigOwned(s, b) && BigTake(s, k) == Some((p, n))
    requires c == Reowned(b, p, k, InBig(p)).(big := b.big[p := k])
    ensures p !in b.big && PagesOwned(n, c.owner, None) && ChunksOk(n, c) && BigOwned(n, c)
  {
    var o := InBig(p);
    assert p in b.big ==> Block(s, b.owner, p, b.big[p]);
    RowOfFree(s, b, k, None);
    AllocKeeps(s.pages, k);
    assert b.owner[p] == Nobody;
    ZonesElsewhere(s, n, b, p, k, o, None);
    BigElsewhere(s, n, b, p, k, o, b.big);
    forall q | 0 <= q < |c.owner| && c.owner[q].InZone? ensures OwnedBy(n, q, c.owner[q].z, None) {
      assert OwnedBy(s, q, b.owner[q].z, None);
    }
    forall x | x in c.chunks ensures LiveIn(n, c, x) { assert LiveIn(n, Reowned(b, p, k, o), x); }
    forall x | x in c.big ensures Block(n, c.owner, x, c.big[x]) {
      if x != p { assert Block(n, Reowned(b, p, k, o).owner, x, b.big[x]); }
    }
  }

  lemma {:induction false} BigGiveKeeps(s: Slab, b: Book, p: nat, most: nat)
    requires Inv(s, b, most, None) && p in b.big
    ensures p < |s.usage| && s.usage[p] == Usage(Large, b.big[p])
    ensures Inv(BigGive(s, p), Reowned(b, p, b.big[p], Nobody).(big := b.big - {p}), most, None)
  {
    var n, k := BigGive(s, p), b.big[p];
    var c := Reowned(b, p, k, Nobody).(big := b.big - {p});
    assert Block(s, b.owner, p, k);
    BigGiveOwned(s, b, p, n, c);
    TotalRemove(b.big, p);
    hide PagesOwned, BigOwned, ChunksOk, Reserved;
    RestFrame(s, n, b, c, most);
  }

  lemma {:induction false} BigGiveOwned(s: Slab, b: Book, p: nat, n: Slab, c: Book)
    requires PagesOwned(s, b.owner, None) && ChunksOk(s, b) && BigOwned(s, b) && p in b.big
    requires Block(s, b.owner, p, b.big[p])
    requires n == BigGive(s, p) && c == Reowned(b, p, b.big[p], Nobody).(big := b.big - {p})
    ensures PagesOwned(n, c.owner, None) && ChunksOk(n, c) && BigOwned(n, c)
  {
    var k := b.big[p];
    forall q | p <= q < p + k ensures !Free(s.pages, q) { assert b.owner[q] == InBig(p); }
    GiveKeeps(s.pages, p, k);
    ZonesElsewhere(s, n, b, p, k, Nobody, None);
    BigElsewhere(s, n, b, p, k, Nobody, b.big - {p});
    forall q | 0 <= q < |c.owner| && c.owner[q].InZone? ensures OwnedBy(n, q, c.owner[q].z, None) {
      assert OwnedBy(s, q, b.owner[q].z, None);
    }
    forall x | x in c.chunks ensures LiveIn(n, c, x) { assert LiveIn(n, Reowned(b, p, k, Nobody), x); }
  }
}
