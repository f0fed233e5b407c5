/** Integer widths, alignment and the small datatypes shared by the kernel models. */
module KernelTypes {

  datatype Option<+T> = None | Some(value: T)

  /** One more than the largest 32-bit unsigned value. */
  const U32: int := 0x1_0000_0000

  /** A 32-bit unsigned machine word (`rt_size_t`, `rt_ubase_t`, `rt_tick_t` on this target). */
  type Word = x: int | 0 <= x < U32

  /** Unsigned arithmetic wraps modulo 2^32. */
  function Wrap(x: int): Word {
    x % U32
  }

  /** 32-bit addition and subtraction, without a division. */
  function Plus(a: Word, b: Word): Word {
    if a + b < U32 then a + b else a + b - U32
  }

  function Minus(a: Word, b: Word): Word {
    if b <= a then a - b else a - b + U32
  }

  lemma {:induction false} WrapsOnce(a: Word, b: Word)
    ensures Plus(a, b) == Wrap(a + b) && Minus(a, b) == Wrap(a - b)
    ensures Minus(Plus(a, b), b) == a
  {
  }

  function Max(a: int, b: int): int {
    if a < b then b else a
  }

  function Min(a: int, b: int): int {
    if a < b then a else b
  }

  /** Multiples of `m` are at least `m` apart. */
  lemma {:induction false} Multiples(a: int, b: int, m: nat)
    ensures a < b ==> (a + 1) * m <= b * m
  {
    if a < b { assert (b - a - 1) * m >= 0; }
  }

  /** Quotient and remainder are unique. */
  lemma {:induction false} Divided(w: nat, m: nat, q: int, r: nat)
    requires m > 0 && w == q * m + r && r < m
    ensures w / m == q && w % m == r
  {
    var p, s := w / m, w % m;
    assert w == p * m + s;
    Multiples(p, q, m);
    Multiples(q, p, m);
  }

  /** `RT_ALIGN(size, 4)`: add three with wrap-around, then clear the two low bits. */
  function RtAlign(size: Word): Word {
    var s := Wrap(size + 3);
    s - s % 4
  }

  /** `RT_ALIGN` rounds up exactly when the addition does not wrap; the last three sizes collapse to 0. */
  lemma {:induction false} RtAlignRoundsUp(size: Word)
    ensures RtAlign(size) % 4 == 0
    ensures size <= RtAlign(size) <==> size <= U32 - 4
    ensures size <= U32 - 4 ==> RtAlign(size) < size + 4
    ensures size > U32 - 4 ==> RtAlign(size) == 0
  {
    if size <= U32 - 4 {
      assert Wrap(size + 3) == size + 3;
    } else {
      assert Wrap(size + 3) == size + 3 - U32;
    }
  }
}
