/** The slab heap's mutable state and its loops (`rt-thread/src/slab.c`), proved against `SlabHeap`. */
module SlabObject {
  import opened KernelTypes
  import opened Lists
  import PageList
  import opened ZoneIndex
  import opened SlabZone
  import opened SlabHeap

  /** A zone that is both first and last on its list is the whole list. */
  lemma {:induction false} OnlyOne(s: Slab, b: Book, zi: nat, z: nat)
    requires Heap(s, b) && zi < NZONES && |s.arrays| == NZONES && z in s.arrays[zi]
    ensures var list := s.arrays[zi]; list[|list| - 1] == z && list[0] == z <==> list == [z]
  {
    var list := s.arrays[zi];
    assert NoDup(list);
    if |list| > 1 { assert Differ(list, 0, |list| - 1); }
  }

  /** What freeing a live block goes through: `d` is the accounting while the zone may be wholly free. */
  lemma {:induction false} FreePlan(s: Slab, b: Book, a: nat) returns (c: Book, d: Book)
    requires Heap(s, b) && IsLive(b, a)
    ensures a / PAGE < |s.usage| && (s.usage[a / PAGE].kind != Large ==> InZoneOf(s, a))
    ensures Heap(Free(s, a), c) && Lost(b, c, a)
    ensures s.usage[a / PAGE].kind == Large ==> Free(s, a) == BigGive(s, a / PAGE)
    ensures s.usage[a / PAGE].kind != Large ==> PutReady(s, d, a)
  {
    hide Inv, Free, Put, Settle, BigGive, Lost;
    Freeable(s, b, a);
    c := FreeKeeps(s, b, a);
    if s.usage[a / PAGE].kind == Large {
      var p := FreeIsBig(s, a);
      d := c;
    } else {
      var z := FreeIsPut(s, a);
      PutKeeps(s, b, a, z, KEEP);
      d := Unchunk(b, a);
    }
  }

  ghost predicate PutReady(s: Slab, d: Book, a: nat)
    requires a / PAGE < |s.usage| && (s.usage[a / PAGE].kind != Large ==> InZoneOf(s, a))
  {
    && s.usage[a / PAGE].kind != Large && s.usage[a / PAGE].size <= a / PAGE
    && var z := a / PAGE - s.usage[a / PAGE].size;
    && z in s.zones && s.zones[z].zi < |s.arrays|
    && var n := Put(s, z, a);
    && Heap(n, d) && z in n.zones && n.zones[z].zi < |n.arrays| && z !in n.retired && n.zones[z].nfree > 0
    && Free(s, a) == Settle(n, z)
  }

  class SlabMemory {
    var pages: seq<PageList.Run>
    var usage: seq<Usage>
    var zones: map<nat, Zone>
    var arrays: seq<seq<nat>>
    var zoneFree: seq<nat>
    var zoneFreeCnt: int
    var used: int
    var max: int
    const zoneSize: nat
    ghost var book: Book

    ghost function View(): Slab
      reads this
    {
      Slab(pages, usage, zones, arrays, zoneFree, used, max, zoneSize)
    }

    ghost predicate Valid()
      reads this
    {
      Heap(View(), book) && zoneFreeCnt == |zoneFree|
    }

    /** `rt_slab_init` on `n` pages whose usage table still holds `garbage`. */
    constructor (n: nat, garbage: seq<Usage>)
      requires n > 0 && |garbage| == n
      ensures Valid() && View() == Init(n, garbage) && book == InitBook(n)
    {
      var z := 32768;
      while z < 131072 && z * 2 < n * PAGE / 1024
        invariant 0 < z && ZoneSizeFor(n * PAGE, 32768) == ZoneSizeFor(n * PAGE, z)
        decreases 131072 - z
      {
        z := z * 2;
      }
      pages := PageList.Alloc(PageList.Give([], 0, n), TablePages(n)).1;
      usage, zones, arrays, zoneFree := garbage, map[], seq(NZONES, i => []), [];
      zoneFreeCnt, used, max, zoneSize, book := 0, 0, 0, z, InitBook(n);
      new;
      InitKeeps(n, garbage);
    }

    method Count(n: nat)
      modifies this`used, this`max
      ensures used == old(used) + n && max == Max(old(max), used)
    {
      used := used + n;
      if used > max { max := used; }
    }

    /** A block of whole pages. */
    method BigAlloc(npages: nat) returns (a: Option<nat>)
      modifies this`pages, this`usage, this`used, this`max
      ensures match BigTake(old(View()), npages)
        case None => a == None && View() == old(View())
        case Some((p, n)) => a == Some(p * PAGE) && View() == n
    {
      var (p, rest) := PageList.Alloc(pages, npages);
      if p.None? { return None; }
      pages := rest;
      usage := Fill(usage, p.value, 1, Usage(Large, npages));
      Count(npages * PAGE);
      return Some(p.value * PAGE);
    }

    /** The first zone of a list hands out a chunk. */
    method FromZone(zi: nat) returns (a: int)
      requires Ready(View(), zi)
      modifies this`zones, this`arrays, this`used, this`max
      ensures a == Next(old(zones)[old(arrays)[zi][0]]) && View() == Take(old(View()), zi)
    {
      var z := arrays[zi][0];
      var zn := zones[z];
      zones := zones[z := zn.(nfree := zn.nfree - 1)];
      if zones[z].nfree == 0 { arrays := arrays[zi := arrays[zi][1..]]; }
      if zn.uindex + 1 != zn.nmax {
        zones := zones[z := zones[z].(uindex := zn.uindex + 1)];
        a := ChunkAt(zones[z], zn.uindex + 1);
      } else {
        a := zn.free[0];
        zones := zones[z := zones[z].(free := zn.free[1..])];
      }
      Count(zn.chunk);
    }

    /** Pages for a new zone, each marked with its offset. */
    method GetPages() returns (z: Option<nat>)
      requires Valid()
      modifies this`pages, this`usage
      ensures match Obtain(old(View()))
        case None => z == None && View() == old(View())
        case Some((p, n)) => z == Some(p) && View() == n
    {
      var count := zoneSize / PAGE;
      var (p, rest) := PageList.Alloc(pages, count);
      if p.None? { return None; }
      pages := rest;
      RowOfFree(old(View()), book, count, None);
      ghost var was := usage;
      var off := 0;
      while off < count
        invariant 0 <= off <= count && |usage| == |was| && p.value + count <= |was|
        invariant usage == Marked(was, p.value, off) && pages == rest
      {
        usage := usage[p.value + off := Usage(Small, off)];
        off := off + 1;
      }
      return p;
    }

    /** A chunk of list `zi` from a zone laid out for it: a retired one if there is any, else new pages. */
    method NewZone(zi: nat) returns (a: Option<nat>)
      requires Valid() && zi < NZONES && 0 < ChunkSize(zi) && |arrays| == NZONES && arrays[zi] == []
      modifies this`pages, this`usage, this`zones, this`arrays, this`zoneFree, this`zoneFreeCnt, this`used, this`max
      ensures Result(a, View()) == AllocChunk(old(View()), zi) && zoneFreeCnt == |zoneFree|
    {
      hide ChunkSize, MaxChunks, Offset, Heap, Ready, Obtain;
      var z;
      if zoneFree != [] {
        z := zoneFree[0];
        zoneFree := zoneFree[1..];
        zoneFreeCnt := zoneFreeCnt - 1;
        assert zones - {z} == Evict(old(View())).zones;
        zones := zones - {z};
      } else {
        var got := GetPages();
        if got.None? { return None; }
        z := got.value;
      }
      var size := ChunkSize(zi);
      var nmax := MaxChunks(zoneSize, size);
      zones := zones[z := Zone(zi, size, z * PAGE + Offset(size), nmax, nmax - 1, 0, [])];
      arrays := arrays[zi := [z] + arrays[zi]];
      Count(size);
      return Some(z * PAGE + Offset(size));
    }

    /** `rt_slab_alloc`. */
    method AllocMem(size: Word) returns (a: Option<nat>)
      requires Valid()
      modifies this
      ensures Valid() && |old(arrays)| == NZONES
      ensures forall zi :: 0 <= zi < NZONES && old(arrays)[zi] != [] ==> Ready(old(View()), zi)
      ensures Result(a, View()) == Alloc(old(View()), size)
      ensures a.None? ==> book == old(book)
      ensures a.Some? ==>
        Grain(old(View()), size) >= size && Gained(old(book), book, a.value, Grain(old(View()), size))
    {
      hide PagesOwned, BigOwned, ZonesOk, ChunksOk, RetiredOk, Counted, Gained;
      ListsReady(View(), book);
      ghost var c := SlabHeap.AllocKeeps(View(), book, size);
      if size == 0 { return None; }
      if size >= ZoneLimit(zoneSize) {
        a := BigAlloc(PageAlign(size) / PAGE);
      } else {
        ZoneForFits(size);
        var zi := ZoneFor(size).1;
        RoundedLimit(zoneSize, size);
        if arrays[zi] != [] {
          TakeFresh(View(), book, zi, KEEP);
          var p := FromZone(zi);
          a := Some(p);
        } else {
          a := NewZone(zi);
        }
      }
      book := c;
    }

    /** Move a zone from its list, where the search finds it, to the front of the retired ones. */
    method RetireZone(z: nat)
      requires z in zones && zones[z].zi < |arrays| && z in arrays[zones[z].zi]
      modifies this`arrays, this`zoneFree, this`zoneFreeCnt
      ensures View() == Retire(old(View()), z) && zoneFreeCnt == old(zoneFreeCnt) + 1
    {
      var zi := zones[z].zi;
      var list, k := arrays[zi], 0;
      while list[k] != z
        invariant 0 <= k < |list| && forall i :: 0 <= i < k ==> list[i] != z
        invariant z in list[k..]
        decreases |list| - k
      {
        assert list[k..] == [list[k]] + list[k + 1..];
        k := k + 1;
      }
      WithoutAt(list, z, k);
      arrays := arrays[zi := list[..k] + list[k + 1..]];
      zoneFree := [z] + zoneFree;
      zoneFreeCnt := zoneFreeCnt + 1;
    }

    /** Give the first retired zone's pages back, clearing their marks. */
    method ReleaseZone()
      requires zoneFree != [] && zoneFree[0] in zones && zoneFree[0] + zoneSize / PAGE <= |usage|
      modifies this`zones, this`zoneFree, this`zoneFreeCnt, this`usage, this`pages
      ensures View() == GiveBack(Evict(old(View())), old(zoneFree)[0]) && zoneFreeCnt == old(zoneFreeCnt) - 1
    {
      var z, count := zoneFree[0], zoneSize / PAGE;
      zoneFree := zoneFree[1..];
      zoneFreeCnt := zoneFreeCnt - 1;
      zones := zones - {z};
      ghost var was, zs, zf := usage, zones, zoneFree;
      var i := 0;
      while i < count
        invariant 0 <= i <= count && usage == Fill(was, z, i, Usage(Unused, 0))
        invariant zones == zs && zoneFree == zf && pages == old(pages) && zoneFreeCnt == old(zoneFreeCnt) - 1
      {
        usage := usage[z + i := Usage(Unused, 0)];
        i := i + 1;
      }
      pages := PageList.Give(pages, z, count);
    }

    /** The chunk goes to the front of its zone's free list; the zone may have to go back on its list. */
    method PutChunk(z: nat, a: nat)
      requires z in zones && zones[z].zi < |arrays|
      modifies this`zones, this`arrays, this`used
      ensures View() == Put(old(View()), z, a)
    {
      var zn := zones[z];
      zones := zones[z := zn.(free := [a] + zn.free)];
      used := used - zn.chunk;
      zones := zones[z := zones[z].(nfree := zn.nfree + 1)];
      if zn.nfree == 0 { arrays := arrays[zn.zi := [z] + arrays[zn.zi]]; }
    }

    /** `rt_slab_free`: a null pointer is ignored. */
    method FreeMem(ptr: Option<nat>)
      requires Valid()
      requires ptr.Some? ==> IsLive(book, ptr.value)
      modifies this
      ensures Valid()
      ensures ptr.None? ==> View() == old(View()) && book == old(book)
      ensures ptr.Some? ==> Lost(old(book), book, ptr.value)
      ensures ptr.Some? ==> ptr.value / PAGE < |old(usage)|
      ensures ptr.Some? && old(usage)[ptr.value / PAGE].kind != Large ==> InZoneOf(old(View()), ptr.value)
      ensures ptr.Some? ==> View() == Free(old(View()), ptr.value)
    {
      if ptr.Some? { FreeLive(ptr.value); }
    }

    /** `rt_slab_free` of a live block. */
    method FreeLive(a: nat)
      requires Valid() && IsLive(book, a)
      modifies this
      ensures Valid() && Lost(old(book), book, a)
      ensures a / PAGE < |old(usage)| && (old(usage)[a / PAGE].kind != Large ==> InZoneOf(old(View()), a))
      ensures View() == Free(old(View()), a)
    {
      hide Inv, Free, Settle, Put, BigGive, InZoneOf, Lost, IsLive;
      ghost var s, b := View(), book;
      ghost var c, d := FreePlan(s, b, a);
      var page := a / PAGE;
      var kup := usage[page];
      if kup.kind == Large {
        BigFree(page);
      } else {
        var z := page - kup.size;
        PutChunk(z, a);
        SettleZone(z, d);
      }
      book := c;
    }

    /** A large block goes back to the page list. */
    method BigFree(page: nat)
      requires page < |usage|
      modifies this`usage, this`used, this`pages
      ensures View() == BigGive(old(View()), page)
    {
      var kup := usage[page];
      usage := usage[page := kup.(size := 0)];
      used := used - kup.size * PAGE;
      pages := PageList.Give(pages, page, kup.size);
    }

    /** The tail of `rt_slab_free`: a wholly free zone retires unless it is alone on its list, and a zone too many
        is released. */
    method SettleZone(z: nat, ghost b: Book)
      requires Heap(View(), b) && zoneFreeCnt == |zoneFree| && z in zones && z !in zoneFree && zones[z].nfree > 0
      modifies this`zones, this`arrays, this`zoneFree, this`zoneFreeCnt, this`usage, this`pages
      ensures old(zones)[z].zi < |old(arrays)| && View() == Settle(old(View()), z)
      ensures zoneFreeCnt == |zoneFree|
    {
      var zi := zones[z].zi;
      assert OnList(View(), zi, z) && z in arrays[zi];
      OnlyOne(View(), b, zi, z);
      if zones[z].nfree == zones[z].nmax && (arrays[zi][|arrays[zi]| - 1] != z || arrays[zi][0] != z) {
        assert Reserved(View(), b.owner, z);
        RetireZone(z);
        if zoneFreeCnt > KEEP { ReleaseZone(); }
      }
    }
  }
}
