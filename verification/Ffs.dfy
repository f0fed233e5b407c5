/** Priority lookup: bit masks as 32-bit words, and `__rt_ffs` of `rt-thread/src/kservice.c`. */
module Ffs {
  import opened KernelTypes

  /** Bit `i` of `w`. */
  predicate Bit(w: nat, i: nat)
    decreases i
  {
    if i == 0 then w % 2 == 1 else Bit(w / 2, i - 1)
  }

  /** `w | (1 << i)`. */
  function SetBit(w: nat, i: nat): nat
    decreases i
  {
    if i == 0 then w - w % 2 + 1 else 2 * SetBit(w / 2, i - 1) + w % 2
  }

  /** `w & ~(1 << i)`. */
  function ClearBit(w: nat, i: nat): nat
    decreases i
  {
    if i == 0 then w - w % 2 else 2 * ClearBit(w / 2, i - 1) + w % 2
  }

  /** Setting or clearing a bit changes that bit and no other. */
  lemma {:induction false} BitChanged(w: nat, i: nat, j: nat)
    ensures Bit(SetBit(w, i), j) <==> i == j || Bit(w, j)
    ensures Bit(ClearBit(w, i), j) <==> i != j && Bit(w, j)
    decreases i
  {
    if i > 0 {
      assert SetBit(w, i) / 2 == SetBit(w / 2, i - 1) && ClearBit(w, i) / 2 == ClearBit(w / 2, i - 1);
      assert SetBit(w, i) % 2 == w % 2 && ClearBit(w, i) % 2 == w % 2;
      if j > 0 { BitChanged(w / 2, i - 1, j - 1); }
    } else if j > 0 {
      assert SetBit(w, 0) / 2 == w / 2 && ClearBit(w, 0) / 2 == w / 2;
    }
  }

  function Pow2(n: nat): nat {
    if n == 0 then 1 else 2 * Pow2(n - 1)
  }

  lemma {:induction false} WordWidth()
    ensures Pow2(32) == U32
  {
    assert Pow2(8) == 256;
    assert Pow2(16) == 65536;
    assert Pow2(24) == 16777216;
  }

  /** Masks stay within their width. */
  lemma {:induction false} BitsFit(w: nat, i: nat, n: nat)
    requires w < Pow2(n) && i < n
    ensures SetBit(w, i) < Pow2(n) && ClearBit(w, i) < Pow2(n)
    decreases n
  {
    hide SetBit, ClearBit, Pow2;
    DoublePow2(n);
    if i > 0 {
      HalfFits(w, Pow2(n - 1));
      BitsFit(w / 2, i - 1, n - 1);
      BitAbove(w, i);
    } else {
      BitZero(w);
      Even(w, Pow2(n - 1));
    }
  }

  lemma {:induction false} DoublePow2(n: nat)
    requires n > 0
    ensures Pow2(n) == 2 * Pow2(n - 1)
  {
  }

  lemma {:induction false} HalfFits(w: nat, h: nat)
    requires w < 2 * h
    ensures w / 2 < h && w % 2 < 2
  {
  }

  lemma {:induction false} Even(w: nat, h: nat)
    requires w < 2 * h
    ensures w - w % 2 + 1 < 2 * h
  {
    assert w == 2 * (w / 2) + w % 2;
  }

  lemma {:induction false} BitAbove(w: nat, i: nat)
    requires i > 0
    ensures SetBit(w, i) == 2 * SetBit(w / 2, i - 1) + w % 2 && ClearBit(w, i) == 2 * ClearBit(w / 2, i - 1) + w % 2
    ensures w % 2 < 2
  {
  }

  lemma {:induction false} BitZero(w: nat)
    ensures SetBit(w, 0) == w - w % 2 + 1 && ClearBit(w, 0) == w - w % 2
  {
  }

  /** The position of the lowest bit set. */
  function Lowest(w: nat): nat
    requires w > 0
  {
    if w % 2 == 1 then 0 else 1 + Lowest(w / 2)
  }

  lemma {:induction false} LowestBit(w: nat, j: nat)
    requires w > 0
    ensures Bit(w, Lowest(w)) && (j < Lowest(w) ==> !Bit(w, j))
  {
    if w % 2 == 0 { LowestBit(w / 2, if j > 0 then j - 1 else 0); }
  }

  lemma {:induction false} ZeroBits(i: nat)
    ensures !Bit(0, i)
    decreases i
  {
    if i > 0 { ZeroBits(i - 1); }
  }

  /** `__lowest_bit_bitmap`, row by row. */
  const ROWS: seq<seq<nat>> := [
    [0, 0, 1, 0, 2, 0, 1, 0, 3, 0, 1, 0, 2, 0, 1, 0],
    [4, 0, 1, 0, 2, 0, 1, 0, 3, 0, 1, 0, 2, 0, 1, 0],
    [5, 0, 1, 0, 2, 0, 1, 0, 3, 0, 1, 0, 2, 0, 1, 0],
    [4, 0, 1, 0, 2, 0, 1, 0, 3, 0, 1, 0, 2, 0, 1, 0],
    [6, 0, 1, 0, 2, 0, 1, 0, 3, 0, 1, 0, 2, 0, 1, 0],
    [4, 0, 1, 0, 2, 0, 1, 0, 3, 0, 1, 0, 2, 0, 1, 0],
    [5, 0, 1, 0, 2, 0, 1, 0, 3, 0, 1, 0, 2, 0, 1, 0],
    [4, 0, 1, 0, 2, 0, 1, 0, 3, 0, 1, 0, 2, 0, 1, 0],
    [7, 0, 1, 0, 2, 0, 1, 0, 3, 0, 1, 0, 2, 0, 1, 0],
    [4, 0, 1, 0, 2, 0, 1, 0, 3, 0, 1, 0, 2, 0, 1, 0],
    [5, 0, 1, 0, 2, 0, 1, 0, 3, 0, 1, 0, 2, 0, 1, 0],
    [4, 0, 1, 0, 2, 0, 1, 0, 3, 0, 1, 0, 2, 0, 1, 0],
    [6, 0, 1, 0, 2, 0, 1, 0, 3, 0, 1, 0, 2, 0, 1, 0],
    [4, 0, 1, 0, 2, 0, 1, 0, 3, 0, 1, 0, 2, 0, 1, 0],
    [5, 0, 1, 0, 2, 0, 1, 0, 3, 0, 1, 0, 2, 0, 1, 0],
    [4, 0, 1, 0, 2, 0, 1, 0, 3, 0, 1, 0, 2, 0, 1, 0]]

  function Table(v: nat): nat
    requires v < 256
  {
    ROWS[v / 16][v % 16]
  }

  /** Halving sixteens: the low digit decides unless it is zero. */
  lemma {:induction false} LowestDigit(w: nat, base: nat, n: nat)
    requires w > 0 && base == Pow2(n) && base > 0
    ensures w % base > 0 ==> Lowest(w) == Lowest(w % base)
    ensures w % base == 0 ==> w / base > 0 && Lowest(w) == n + Lowest(w / base)
    decreases n
  {
    if n > 0 {
      var half := Pow2(n - 1);
      assert base == 2 * half;
      Halve(w, half);
      if w % 2 == 0 {
        LowestDigit(w / 2, half, n - 1);
      }
    } else {
      assert base == 1 && w % 1 == 0 && w / 1 == w;
    }
  }

  lemma {:induction false} Halve(w: nat, half: nat)
    requires half > 0
    ensures w % (2 * half) % 2 == w % 2 && w % (2 * half) / 2 == w / 2 % half && w / (2 * half) == w / 2 / half
  {
    var q, r := w / 2 / half, w / 2 % half;
    assert w / 2 == q * half + r;
    var d := w % 2;
    assert w == q * (2 * half) + (2 * r + d);
    Divided(w, 2 * half, q, 2 * r + d);
  }

  /** Every entry of the table but the first is the position of the lowest bit of its index. */
  lemma {:induction false} TableLowest(v: nat)
    requires 0 < v < 256
    ensures Table(v) == Lowest(v)
  {
    var r, c := v / 16, v % 16;
    assert Pow2(4) == 16;
    LowestDigit(v, 16, 4);
    if c > 0 {
      RowTail(r, c);
    } else {
      RowHead(r);
    }
  }

  lemma {:induction false} RowTail(r: nat, c: nat)
    requires r < 16 && 0 < c < 16
    ensures ROWS[r][c] == Lowest(c)
  {
    assert Lowest(1) == 0 && Lowest(2) == 1 && Lowest(3) == 0 && Lowest(4) == 2 && Lowest(5) == 0;
    assert Lowest(6) == 1 && Lowest(7) == 0 && Lowest(8) == 3 && Lowest(9) == 0 && Lowest(10) == 1;
    assert Lowest(11) == 0 && Lowest(12) == 2 && Lowest(13) == 0 && Lowest(14) == 1 && Lowest(15) == 0;
  }

  lemma {:induction false} RowHead(r: nat)
    requires 0 < r < 16
    ensures ROWS[r][0] == 4 + Lowest(r)
  {
    assert Lowest(1) == 0 && Lowest(2) == 1 && Lowest(3) == 0 && Lowest(4) == 2 && Lowest(5) == 0;
    assert Lowest(6) == 1 && Lowest(7) == 0 && Lowest(8) == 3 && Lowest(9) == 0 && Lowest(10) == 1;
    assert Lowest(11) == 0 && Lowest(12) == 2 && Lowest(13) == 0 && Lowest(14) == 1 && Lowest(15) == 0;
  }

  /** `__rt_ffs`: masks and shifts by whole bytes. */
  function FindFirstSet(value: Word): nat {
    if value == 0 then 0
    else if value % 256 != 0 then Table(value % 256) + 1
    else if value / 256 % 256 != 0 then Table(value / 256 % 256) + 9
    else if value / 65536 % 256 != 0 then Table(value / 65536 % 256) + 17
    else Table(value / 16777216 % 256) + 25
  }

  /** `__rt_ffs` is one more than the position of the lowest bit set: that bit is set and none below it. */
  lemma {:induction false} FindsLowest(value: Word, j: nat)
    requires value > 0
    ensures FindFirstSet(value) == Lowest(value) + 1 && FindFirstSet(value) <= 32
    ensures Bit(value, FindFirstSet(value) - 1) && (j < FindFirstSet(value) - 1 ==> !Bit(value, j))
  {
    hide *;
    LowestBit(value, j);
    ByBytes(value);
  }

  lemma {:induction false} ByBytes(value: Word)
    requires value > 0
    ensures FindFirstSet(value) == Lowest(value) + 1 <= 32
  {
    hide Table, Lowest, Pow2;
    var v := value / 256;
    var u := v / 256;
    ByteOf(value);
    if value % 256 == 0 {
      ByteOf(v);
      if v % 256 == 0 {
        ByteOf(u);
        if u % 256 == 0 { ByteOf(u / 256); }
      }
    }
  }

  /** The low byte decides unless it is zero. */
  lemma {:induction false} ByteOf(v: nat)
    requires v > 0
    ensures v % 256 > 0 ==> Table(v % 256) == Lowest(v) < 8
    ensures v % 256 == 0 ==> v / 256 > 0 && Lowest(v) == 8 + Lowest(v / 256)
  {
    assert Pow2(8) == 256;
    LowestDigit(v, 256, 8);
    if v % 256 > 0 { ByteFirst(v % 256); }
  }

  lemma {:induction false} ByteFirst(v: nat)
    requires 0 < v < 256
    ensures Table(v) == Lowest(v) < 8
  {
    TableLowest(v);
    assert Pow2(8) == 256;
    LowestSmall(v, 8);
  }

  lemma {:induction false} LowestSmall(v: nat, n: nat)
    requires 0 < v < Pow2(n)
    ensures Lowest(v) < n
    decreases n
  {
    if v % 2 == 0 && n > 0 { LowestSmall(v / 2, n - 1); }
  }
}
