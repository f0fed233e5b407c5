/** Chunk sizes of the slab heap (`zoneindex` and the zone layout of `rt_slab_alloc` in `rt-thread/src/slab.c`). */
module ZoneIndex {
  import opened KernelTypes

  const NZONES := 72
  const PAGE := 4096

  /** `(n + g - 1) & ~(g - 1)` for a power of two `g`. */
  function RoundUp(n: nat, g: nat): nat
    requires g > 0
  {
    (n + g - 1) / g * g
  }

  /** `zoneindex`: the chunk size a request is rounded to, and the index of its zone list. Sizes out of range are
      reported and left alone. */
  function ZoneFor(n: nat): (nat, nat) {
    if n < 128 then var b := RoundUp(n, 8); (b, if b < 8 then 0 else b / 8 - 1)
    else if n < 256 then var b := RoundUp(n, 16); (b, b / 16 + 7)
    else if n < 512 then var b := RoundUp(n, 32); (b, b / 32 + 15)
    else if n < 1024 then var b := RoundUp(n, 64); (b, b / 64 + 23)
    else if n < 2048 then var b := RoundUp(n, 128); (b, b / 128 + 31)
    else if n < 4096 then var b := RoundUp(n, 256); (b, b / 256 + 39)
    else if n < 8192 then var b := RoundUp(n, 512); (b, b / 512 + 47)
    else if n < 16384 then var b := RoundUp(n, 1024); (b, b / 1024 + 55)
    else (n, 0)
  }

  /** The chunk size of a zone list. */
  function ChunkSize(zi: nat): nat {
    if zi < 16 then 8 * (zi + 1)
    else if zi < 24 then 16 * (zi - 7)
    else if zi < 32 then 32 * (zi - 15)
    else if zi < 40 then 64 * (zi - 23)
    else if zi < 48 then 128 * (zi - 31)
    else if zi < 56 then 256 * (zi - 39)
    else if zi < 64 then 512 * (zi - 47)
    else if zi < NZONES then 1024 * (zi - 55)
    else 0
  }

  lemma {:induction false} RoundUpBounds(n: nat, g: nat)
    requires g > 0
    ensures n <= RoundUp(n, g) < n + g && RoundUp(n, g) % g == 0 && RoundUp(n, g) / g == (n + g - 1) / g
    ensures RoundUp(n, g) == g * (RoundUp(n, g) / g)
  {
    var q, r := (n + g - 1) / g, (n + g - 1) % g;
    assert n + g - 1 == q * g + r;
    Divided(q * g, g, q, 0);
  }

  /** Every request below the limit gets a list of its own size class: the chunk holds it with at most an eighth
      (or seven bytes) to spare, and list and chunk size determine each other. */
  lemma {:induction false} ZoneForFits(n: nat)
    requires 0 < n < 16384
    ensures ZoneFor(n).1 < NZONES && ZoneFor(n).0 == ChunkSize(ZoneFor(n).1)
    ensures n <= ZoneFor(n).0 <= 16384 && ZoneFor(n).0 % 8 == 0
    ensures ZoneFor(n).0 - n <= Max(7, n / 8)
    ensures n <= 8192 ==> ZoneFor(n).0 <= 8192
  {
    hide ZoneFor, ChunkSize;
    if n < 1024 { SmallFits(n); } else { LargeFits(n); }
  }

  lemma {:induction false} SmallFits(n: nat)
    requires 0 < n < 1024
    ensures ZoneFor(n).1 < NZONES && ZoneFor(n).0 == ChunkSize(ZoneFor(n).1)
    ensures n <= ZoneFor(n).0 <= 1024 && ZoneFor(n).0 % 8 == 0 && ZoneFor(n).0 - n <= Max(7, n / 8)
  {
    hide RoundUp;
    RoundUpBounds(n, if n < 128 then 8 else if n < 256 then 16 else if n < 512 then 32 else 64);
  }

  lemma {:induction false} LargeFits(n: nat)
    requires 1024 <= n < 16384
    ensures ZoneFor(n).1 < NZONES && ZoneFor(n).0 == ChunkSize(ZoneFor(n).1)
    ensures n <= ZoneFor(n).0 <= 16384 && ZoneFor(n).0 % 8 == 0 && ZoneFor(n).0 - n <= n / 8
    ensures n <= 8192 ==> ZoneFor(n).0 <= 8192
  {
    hide RoundUp;
    RoundUpBounds(n, if n < 2048 then 128 else if n < 4096 then 256 else if n < 8192 then 512 else 1024);
  }

  lemma {:induction false} ChunkSizeInjective(i: nat, j: nat)
    requires i < j < NZONES
    ensures 8 <= ChunkSize(i) < ChunkSize(j) <= 16384 && ChunkSize(i) % 8 == 0 && ChunkSize(j) % 8 == 0
  {
  }

  /** Rounding is idempotent below the limit: a chunk size asks for its own list. */
  lemma {:induction false} ZoneForChunk(zi: nat)
    requires zi < NZONES && ChunkSize(zi) < 16384
    ensures ZoneFor(ChunkSize(zi)) == (ChunkSize(zi), zi)
  {
    var n := ChunkSize(zi);
    ZoneForFits(n);
    var i := ZoneFor(n).1;
    RoundUpBounds(n, if n < 128 then 8 else if n < 256 then 16 else if n < 512 then 32 else if n < 1024 then 64
                     else if n < 2048 then 128 else if n < 4096 then 256 else if n < 8192 then 512 else 1024);
    if zi < i {
      NotSmaller(n, zi);
    } else if i < zi {
      ChunkSizeInjective(i, zi);
    }
  }

  /** A request goes to the list of the smallest chunk that holds it. */
  lemma {:induction false} ZoneForSmallest(n: nat, zi: nat)
    requires 0 < n < 16384 && zi < NZONES && n <= ChunkSize(zi)
    ensures ZoneFor(n).1 <= zi
  {
    ZoneForFits(n);
    if zi < ZoneFor(n).1 { NotSmaller(n, zi); }
  }

  lemma {:induction false} NotSmaller(n: nat, zi: nat)
    requires 0 < n < 16384 && zi < ZoneFor(n).1 < NZONES
    ensures ChunkSize(zi) < n
  {
    ZoneForFits(n);
    RoundUpBounds(n, if n < 128 then 8 else if n < 256 then 16 else if n < 512 then 32 else if n < 1024 then 64
                     else if n < 2048 then 128 else if n < 4096 then 256 else if n < 8192 then 512 else 1024);
    if zi + 1 < ZoneFor(n).1 { ChunkSizeInjective(zi, ZoneFor(n).1 - 1); }
  }

  /** The test `(size | (size - 1)) + 1 == (size << 1)`. */
  predicate PowerOfTwo(n: nat) {
    n == 1 || (n > 1 && n % 2 == 0 && PowerOfTwo(n / 2))
  }

  /** The smaller of two powers of two divides the larger. */
  lemma {:induction false} PowersDivide(c: nat, d: nat)
    requires PowerOfTwo(c) && PowerOfTwo(d) && c <= d
    ensures d % c == 0
    decreases c
  {
    if c > 1 {
      PowersDivide(c / 2, d / 2);
      var q := d / 2 / (c / 2);
      assert d / 2 == q * (c / 2) && c == 2 * (c / 2) && d == 2 * (d / 2);
      assert d == q * c;
      Divided(d, c, q, 0);
    }
  }

  /** A power of two that the zones serve is served by chunks of exactly that size, from 8 bytes on. */
  lemma {:induction false} ZoneForPower(n: nat)
    requires PowerOfTwo(n) && n < 16384
    ensures ZoneFor(n).0 == Max(n, 8)
  {
    PageIsPower();
    var g := if n < 128 then 8 else if n < 256 then 16 else if n < 512 then 32 else if n < 1024 then 64
             else if n < 2048 then 128 else if n < 4096 then 256 else if n < 8192 then 512 else 1024;
    assert PowerOfTwo(g);
    if g <= n {
      PowersDivide(g, n);
      Divided(n + g - 1, g, n / g, g - 1);
    } else {
      RoundUpOnce(n, g);
    }
  }

  lemma {:induction false} PageIsPower()
    ensures PowerOfTwo(8) && PowerOfTwo(16) && PowerOfTwo(32) && PowerOfTwo(64) && PowerOfTwo(128) && PowerOfTwo(256)
    ensures PowerOfTwo(512) && PowerOfTwo(1024) && PowerOfTwo(2048) && PowerOfTwo(PAGE)
  {
    assert PowerOfTwo(1) && PowerOfTwo(2) && PowerOfTwo(4) && PowerOfTwo(8);
  }

  /** `sizeof(struct rt_slab_zone)`: nine words. */
  const HEADER := 36

  /** Where the chunks of a zone begin: aligned to the chunk size if that is a power of two, else to 8. */
  function Offset(chunk: nat): nat
    requires chunk > 0
  {
    if PowerOfTwo(chunk) then RoundUp(HEADER, chunk) else RoundUp(HEADER, 8)
  }

  function MaxChunks(zoneSize: nat, chunk: nat): int
    requires 0 < chunk
  {
    (zoneSize - Offset(chunk)) / chunk
  }

  /** The zone sizes `rt_slab_init` can choose. */
  predicate ZoneSize(n: nat) {
    n == 32768 || n == 65536 || n == 131072
  }

  function ZoneLimit(zoneSize: nat): nat {
    Min(zoneSize / 4, 16384)
  }

  lemma {:induction false} OffsetFits(zi: nat)
    requires zi < NZONES
    ensures ChunkSize(zi) > 0
    ensures HEADER <= Offset(ChunkSize(zi)) && Offset(ChunkSize(zi)) % 8 == 0
    ensures Offset(ChunkSize(zi)) <= Max(64, ChunkSize(zi))
  {
    var c := ChunkSize(zi);
    if zi > 0 { ChunkSizeInjective(0, zi); }
    if c >= HEADER {
      RoundUpOnce(HEADER, c);
      RoundUpBounds(HEADER, 8);
    } else {
      SmallOffsets();
      assert c == 8 || c == 16 || c == 24 || c == 32;
    }
  }

  lemma {:induction false} RoundUpOnce(n: nat, c: nat)
    requires 0 < n <= c
    ensures RoundUp(n, c) == c
  {
    var m := n + c - 1;
    assert m / c == 1 by { if m / c >= 2 { Quotient(m, c, 2); } if m / c < 1 { Quotient(m, c, 1); } }
  }

  lemma {:induction false} SmallOffsets()
    ensures Offset(8) == 40 && Offset(16) == 48 && Offset(24) == 40 && Offset(32) == 64
  {
    assert PowerOfTwo(1) && PowerOfTwo(2) && PowerOfTwo(4) && PowerOfTwo(8) && PowerOfTwo(16) && PowerOfTwo(32);
    assert !PowerOfTwo(3) && !PowerOfTwo(6) && !PowerOfTwo(12) && !PowerOfTwo(24);
    assert RoundUp(HEADER, 8) == 40 && RoundUp(HEADER, 16) == 48 && RoundUp(HEADER, 32) == 64;
  }

  /** A zone has room for at least three chunks, and they end inside it. */
  lemma {:induction false} AtLeastThree(zoneSize: nat, zi: nat)
    requires ZoneSize(zoneSize) && zi < NZONES && ChunkSize(zi) <= ZoneLimit(zoneSize)
    ensures ChunkSize(zi) > 0 && Offset(ChunkSize(zi)) <= zoneSize
    ensures MaxChunks(zoneSize, ChunkSize(zi)) >= 3
    ensures Offset(ChunkSize(zi)) + MaxChunks(zoneSize, ChunkSize(zi)) * ChunkSize(zi) <= zoneSize
  {
    OffsetFits(zi);
    var c, room := ChunkSize(zi), zoneSize - Offset(ChunkSize(zi));
    assert room >= 3 * c;
    Quotient(room, c, 3);
  }

  lemma {:induction false} Quotient(n: nat, c: nat, k: nat)
    requires c > 0 && n >= k * c
    ensures n / c >= k && n / c * c <= n
  {
    var q := n / c;
    assert n == q * c + n % c;
    Multiples(q, k, c);
  }
}
