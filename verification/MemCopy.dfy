/** `rt_memcpy` of `rt-thread/src/kservice.c`: four words at a time, then words, then bytes, always upwards. */
module MemCopy {
  import opened KernelTypes

  type Byte = x: int | 0 <= x < 256

  /** Copying one byte after the other, upwards. */
  function Upwards(mem: seq<Byte>, dst: nat, src: nat, n: nat): (r: seq<Byte>)
    requires dst + n <= |mem| && src + n <= |mem|
    ensures |r| == |mem|
    decreases n
  {
    if n == 0 then mem else Upwards(mem[dst := mem[src]], dst + 1, src + 1, n - 1)
  }

  lemma {:induction false} UpwardsSplit(mem: seq<Byte>, dst: nat, src: nat, a: nat, b: nat)
    requires dst + a + b <= |mem| && src + a + b <= |mem|
    ensures Upwards(mem, dst, src, a + b) == Upwards(Upwards(mem, dst, src, a), dst + a, src + a, b)
    decreases a
  {
    if a > 0 { UpwardsSplit(mem[dst := mem[src]], dst + 1, src + 1, a - 1, b); }
  }

  /** Nothing outside the destination changes. */
  lemma {:induction false} UpwardsFrame(mem: seq<Byte>, dst: nat, src: nat, n: nat, i: nat)
    requires dst + n <= |mem| && src + n <= |mem| && i < |mem| && (i < dst || dst + n <= i)
    ensures Upwards(mem, dst, src, n)[i] == mem[i]
    decreases n
  {
    if n > 0 { UpwardsFrame(mem[dst := mem[src]], dst + 1, src + 1, n - 1, i); }
  }

  /** A source that does not begin below the destination and reach into it is copied as it was. */
  lemma {:induction false} UpwardsCopies(mem: seq<Byte>, dst: nat, src: nat, n: nat, i: nat)
    requires dst + n <= |mem| && src + n <= |mem| && i < n && (dst <= src || src + n <= dst)
    ensures Upwards(mem, dst, src, n)[dst + i] == mem[src + i]
    decreases n
  {
    var m := mem[dst := mem[src]];
    if i == 0 {
      UpwardsFrame(m, dst + 1, src + 1, n - 1, dst);
    } else {
      UpwardsCopies(m, dst + 1, src + 1, n - 1, i - 1);
    }
  }

  ghost predicate Faithful(mem: seq<Byte>, dst: nat, src: nat, n: nat)
    requires dst + n <= |mem| && src + n <= |mem|
  {
    Upwards(mem, dst, src, n)[dst..dst + n] == mem[src..src + n]
  }

  /** The destination receives the source whatever the memory holds exactly if the source does not begin below the
      destination and reach into it. */
  lemma {:induction false} FaithfulExactly(size: nat, dst: nat, src: nat, n: nat)
    requires dst + n <= size && src + n <= size
    ensures (forall mem: seq<Byte> :: |mem| == size ==> Faithful(mem, dst, src, n)) <==> !(src < dst < src + n)
  {
    if src < dst < src + n {
      var mem: seq<Byte> := seq(size, i => if i == dst then 1 else 0);
      Overwritten(mem, dst, src, n);
      assert Upwards(mem, dst, src, n)[dst..dst + n][dst - src] != mem[src..src + n][dst - src];
      assert !Faithful(mem, dst, src, n);
    } else {
      forall mem: seq<Byte> | |mem| == size ensures Faithful(mem, dst, src, n) {
        var got, sent := Upwards(mem, dst, src, n)[dst..dst + n], mem[src..src + n];
        forall i | 0 <= i < n ensures got[i] == sent[i] { UpwardsCopies(mem, dst, src, n, i); }
      }
    }
  }

  /** The first source byte comes back where the destination's own first byte should go. */
  lemma {:induction false} Overwritten(mem: seq<Byte>, dst: nat, src: nat, n: nat)
    requires dst + n <= |mem| && src < dst < src + n
    ensures Upwards(mem, dst, src, n)[dst + (dst - src)] == mem[src]
  {
    var d := dst - src;
    UpwardsSplit(mem, dst, src, d, n - d);
    var m := Upwards(mem, dst, src, d);
    UpwardsCopies(mem, dst, src, d, 0);
    assert Upwards(m, dst + d, dst, n - d) == Upwards(m[dst + d := m[dst]], dst + d + 1, dst + 1, n - d - 1);
    UpwardsFrame(m[dst + d := m[dst]], dst + d + 1, dst + 1, n - d - 1, dst + d);
  }

  /** Four bytes moved at once are four bytes moved in turn when the addresses do not differ by one, two or three. */
  lemma {:induction false} WordUpwards(mem: seq<Byte>, dst: nat, src: nat)
    requires dst + 4 <= |mem| && src + 4 <= |mem| && !(src < dst < src + 4)
    ensures Upwards(mem, dst, src, 4) == mem[..dst] + mem[src..src + 4] + mem[dst + 4..]
  {
    var r := Upwards(mem, dst, src, 4);
    var w := mem[..dst] + mem[src..src + 4] + mem[dst + 4..];
    forall i | 0 <= i < |mem| ensures r[i] == w[i] {
      if dst <= i < dst + 4 { UpwardsCopies(mem, dst, src, 4, i - dst); } else { UpwardsFrame(mem, dst, src, 4, i); }
    }
  }

  /** `done` bytes of the copy are in place. */
  ghost predicate Progress(mem: array<Byte>, was: seq<Byte>, dst: nat, src: nat, done: nat)
    reads mem
  {
    && |was| == mem.Length && dst + done <= |was| && src + done <= |was|
    && mem[..] == Upwards(was, dst, src, done)
  }

  /** One aligned `long`. */
  method StoreWord(mem: array<Byte>, to: nat, from: nat)
    requires to + 4 <= mem.Length && from + 4 <= mem.Length && !(from < to < from + 4)
    modifies mem
    ensures mem[..] == Upwards(old(mem[..]), to, from, 4)
  {
    WordUpwards(mem[..], to, from);
    ghost var now := mem[..];
    var a, b, c, d := mem[from], mem[from + 1], mem[from + 2], mem[from + 3];
    mem[to], mem[to + 1], mem[to + 2], mem[to + 3] := a, b, c, d;
    assert mem[..] == now[..to] + now[from..from + 4] + now[to + 4..];
  }

  method MoveWord(mem: array<Byte>, ghost was: seq<Byte>, dst: nat, src: nat, done: nat)
    requires dst + done + 4 <= mem.Length && src + done + 4 <= mem.Length && !(src < dst < src + 4)
    requires Progress(mem, was, dst, src, done)
    modifies mem
    ensures Progress(mem, was, dst, src, done + 4)
  {
    UpwardsSplit(was, dst, src, done, 4);
    StoreWord(mem, dst + done, src + done);
  }

  method MoveByte(mem: array<Byte>, ghost was: seq<Byte>, dst: nat, src: nat, done: nat)
    requires dst + done < mem.Length && src + done < mem.Length
    requires Progress(mem, was, dst, src, done)
    modifies mem
    ensures Progress(mem, was, dst, src, done + 1)
  {
    UpwardsSplit(was, dst, src, done, 1);
    ghost var now := mem[..];
    mem[dst + done] := mem[src + done];
    assert mem[..] == now[dst + done := now[src + done]];
    assert Upwards(now[dst + done := now[src + done]], dst + done + 1, src + done + 1, 0) == mem[..];
  }

  /** The word loops leave exactly what copying byte by byte leaves, overlapping or not. */
  method Copy(mem: array<Byte>, dst: nat, src: nat, count: Word)
    requires dst + count <= mem.Length && src + count <= mem.Length
    modifies mem
    ensures mem[..] == Upwards(old(mem[..]), dst, src, count)
  {
    ghost var was := mem[..];
    var len: nat := count;
    if len >= 16 && dst % 4 == 0 && src % 4 == 0 {
      Apart(dst, src);
      while len >= 16
        invariant len <= count && Progress(mem, was, dst, src, count - len)
      {
        var done := count - len;
        MoveWord(mem, was, dst, src, done);
        MoveWord(mem, was, dst, src, done + 4);
        MoveWord(mem, was, dst, src, done + 8);
        MoveWord(mem, was, dst, src, done + 12);
        len := len - 16;
      }
      while len >= 4
        invariant len <= count && Progress(mem, was, dst, src, count - len)
      {
        MoveWord(mem, was, dst, src, count - len);
        len := len - 4;
      }
    }
    while len != 0
      invariant len <= count && Progress(mem, was, dst, src, count - len)
    {
      MoveByte(mem, was, dst, src, count - len);
      len := len - 1;
    }
  }

  lemma {:induction false} Apart(dst: nat, src: nat)
    requires dst % 4 == 0 && src % 4 == 0
    ensures !(src < dst < src + 4)
  {
  }
}
