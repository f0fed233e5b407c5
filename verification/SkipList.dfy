/** The timer skip list (`rt_timer_start` and `_timer_remove` in `rt-thread/src/timer.c`): rows ordered by
    wrap-around subtraction of 32-bit ticks, upper rows being thinned copies of the bottom row. */
module SkipList {
  import opened KernelTypes
  import opened Lists
  import opened WaitList

  /** `RT_TICK_MAX / 2`. */
  const HALF: nat := 0x7fff_ffff

  /** A timer is named by a number; `Tid` lists and their insertion order are shared with the wait lists. */
  type Timer = Tid

  /** Ticks from `base` to the expiry of a timer. */
  function Remaining(timeout: map<Timer, Word>, base: Word): Priorities {
    t => if t in timeout then Minus(timeout[t], base) else 0
  }

  /** The two comparisons of the search loop, under wrap-around, against the true order of two expiries that
      lie within one half range of `base`. */
  lemma {:induction false} WrapOrder(a: Word, b: Word, base: Word)
    requires Minus(a, base) < HALF && Minus(b, base) < HALF
    ensures Minus(a, b) == 0 <==> Minus(a, base) == Minus(b, base)
    ensures 0 < Minus(a, b) < HALF <==> Minus(b, base) < Minus(a, base)
  {
  }

  /** The elements of `b` that belong to `s`, in order. */
  function Filter(b: seq<Timer>, s: set<Timer>): seq<Timer> {
    if b == [] then [] else (if b[0] in s then [b[0]] else []) + Filter(b[1..], s)
  }

  ghost function Elems(b: seq<Timer>): set<Timer> {
    set x | x in b
  }

  lemma {:induction false} FilterElems(b: seq<Timer>, s: set<Timer>)
    ensures forall x :: x in Filter(b, s) <==> x in b && x in s
  {
    if b != [] {
      FilterElems(b[1..], s);
      assert forall x :: x in b <==> x == b[0] || x in b[1..];
    }
  }

  lemma {:induction false} FilterConcat(a: seq<Timer>, b: seq<Timer>, s: set<Timer>)
    ensures Filter(a + b, s) == Filter(a, s) + Filter(b, s)
  {
    if a == [] {
      assert a + b == b;
    } else {
      FilterConcat(a[1..], b, s);
      assert (a + b)[1..] == a[1..] + b && (a + b)[0] == a[0];
      assert Filter(a, s) + Filter(b, s)
          == (if a[0] in s then [a[0]] else []) + (Filter(a[1..], s) + Filter(b, s));
    }
  }

  lemma {:induction false} FilterSame(b: seq<Timer>, s: set<Timer>, r: set<Timer>)
    requires forall x :: x in b ==> (x in s <==> x in r)
    ensures Filter(b, s) == Filter(b, r)
  {
    if b != [] {
      assert forall x :: x in b[1..] ==> x in b;
      FilterSame(b[1..], s, r);
    }
  }

  lemma {:induction false} FilterAll(b: seq<Timer>, s: set<Timer>)
    requires forall x :: x in b ==> x in s
    ensures Filter(b, s) == b
  {
    if b != [] {
      assert forall x :: x in b[1..] ==> x in b;
      FilterAll(b[1..], s);
    }
  }

  lemma {:induction false} FilterTwice(b: seq<Timer>, s: set<Timer>, r: set<Timer>)
    ensures Filter(Filter(b, s), r) == Filter(b, s * r)
  {
    if b != [] {
      FilterTwice(b[1..], s, r);
      FilterConcat(if b[0] in s then [b[0]] else [], Filter(b[1..], s), r);
      assert Filter([b[0]], r) == (if b[0] in r then [b[0]] else []);
    }
  }

  lemma {:induction false} FilterNoDup(b: seq<Timer>, s: set<Timer>)
    requires NoDup(b)
    ensures NoDup(Filter(b, s))
  {
    if b != [] {
      NoDupTail(b);
      FilterNoDup(b[1..], s);
      FilterElems(b[1..], s);
      NoDupAppend(if b[0] in s then [b[0]] else [], Filter(b[1..], s));
    }
  }

  /** Row `a` is row `b` without some of its timers. */
  ghost predicate Thinned(a: seq<Timer>, b: seq<Timer>) {
    a == Filter(b, Elems(a))
  }

  lemma {:induction false} PositionUnique(list: seq<Timer>, p: nat, prio: Priorities, from: nat, k: nat)
    requires from <= k <= |list| && (k < |list| ==> p < prio(list[k]))
    requires forall i :: from <= i < k ==> prio(list[i]) <= p
    ensures Position(list, p, prio, from) == k
    decreases k - from
  {
    if from < k { PositionUnique(list, p, prio, from + 1, k); }
  }

  /** Searching may start anywhere that skips only expiries no later than the new one. */
  lemma {:induction false} PositionSkip(list: seq<Timer>, p: nat, prio: Priorities, from: nat)
    requires from <= |list| && forall i :: 0 <= i < from ==> prio(list[i]) <= p
    ensures Position(list, p, prio, 0) == Position(list, p, prio, from)
  {
    PositionUnique(list, p, prio, 0, Position(list, p, prio, from));
  }

  /** The part of a thinned row before a cut of the full row. */
  lemma {:induction false} ThinnedPosition(a: seq<Timer>, b: seq<Timer>, s: set<Timer>, p: nat, prio: Priorities,
      k: nat)
    requires a == Filter(b, s) && Sorted(b, prio) && k == Position(b, p, prio, 0)
    ensures var n := Position(a, p, prio, 0); a[..n] == Filter(b[..k], s) && a[n..] == Filter(b[k..], s)
  {
    var lo, hi := Filter(b[..k], s), Filter(b[k..], s);
    assert b == b[..k] + b[k..];
    FilterConcat(b[..k], b[k..], s);
    SplitBounds(b, p, prio, k, s);
    CutAt(a, lo, hi, p, prio);
  }

  lemma {:induction false} SplitBounds(b: seq<Timer>, p: nat, prio: Priorities, k: nat, s: set<Timer>)
    requires Sorted(b, prio) && k == Position(b, p, prio, 0)
    ensures forall x :: x in Filter(b[..k], s) ==> prio(x) <= p
    ensures forall x :: x in Filter(b[k..], s) ==> p < prio(x)
  {
    FilterElems(b[..k], s);
    FilterElems(b[k..], s);
    forall x | x in b[k..] ensures p < prio(x) {
      var j :| k <= j < |b| && b[j] == x;
      if k < j { assert InOrder(b, prio, k, j); }
    }
  }

  lemma {:induction false} CutAt(a: seq<Timer>, lo: seq<Timer>, hi: seq<Timer>, p: nat, prio: Priorities)
    requires a == lo + hi
    requires (forall x :: x in lo ==> prio(x) <= p) && forall x :: x in hi ==> p < prio(x)
    ensures Position(a, p, prio, 0) == |lo| && a[..|lo|] == lo && a[|lo|..] == hi
  {
    forall i | 0 <= i < |lo| ensures prio(a[i]) <= p { assert lo[i] in lo; }
    if hi != [] { assert hi[0] in hi; }
    PositionUnique(a, p, prio, 0, |lo|);
  }

  /** Stable insertion commutes with thinning, and inserting below changes nothing above. */
  lemma {:induction false} EnqueueThinned(a: seq<Timer>, b: seq<Timer>, t: Timer, prio: Priorities)
    requires Thinned(a, b) && Sorted(b, prio) && t !in b
    ensures Thinned(Enqueue(a, t, Prio, prio), Enqueue(b, t, Prio, prio))
    ensures Thinned(a, Enqueue(b, t, Prio, prio))
  {
    var s := Elems(a);
    FilterElems(b, s);
    var k, n := Position(b, prio(t), prio, 0), Position(a, prio(t), prio, 0);
    ThinnedPosition(a, b, s, prio(t), prio, k);
    InsertFiltered(a, b, s, t, n, k);
    InsertElements(a, n, t);
    assert Elems(InsertAt(a, n, t)) == s + {t};
  }

  lemma {:induction false} InsertFiltered(a: seq<Timer>, b: seq<Timer>, s: set<Timer>, t: Timer, n: nat, k: nat)
    requires n <= |a| && k <= |b| && t !in b && t !in s
    requires a[..n] == Filter(b[..k], s) && a[n..] == Filter(b[k..], s)
    ensures Filter(InsertAt(b, k, t), s + {t}) == InsertAt(a, n, t)
    ensures Filter(InsertAt(b, k, t), s) == a
  {
    FilterAround(b[..k], t, b[k..], s + {t});
    FilterAround(b[..k], t, b[k..], s);
    FilterSame(b[..k], s, s + {t});
    FilterSame(b[k..], s, s + {t});
    assert a == a[..n] + a[n..];
  }

  lemma {:induction false} FilterAround(l: seq<Timer>, t: Timer, r: seq<Timer>, s: set<Timer>)
    ensures Filter(l + [t] + r, s) == Filter(l, s) + (if t in s then [t] else []) + Filter(r, s)
  {
    FilterConcat(l + [t], r, s);
    FilterConcat(l, [t], s);
    assert Filter([t], s) == if t in s then [t] else [];
  }

  lemma {:induction false} WithoutIsFilter(b: seq<Timer>, t: Timer, s: set<Timer>)
    requires NoDup(b) && t !in s && forall x :: x in b && x != t ==> x in s
    ensures Without(b, t) == Filter(b, s)
  {
    if b != [] {
      NoDupTail(b);
      if b[0] == t {
        FilterAll(b[1..], s);
      } else {
        WithoutIsFilter(b[1..], t, s);
      }
    }
  }

  /** Removing a timer from both rows keeps one a thinning of the other. */
  lemma {:induction false} WithoutThinned(a: seq<Timer>, b: seq<Timer>, t: Timer)
    requires Thinned(a, b) && NoDup(b)
    ensures NoDup(a) && Thinned(Without(a, t), Without(b, t))
  {
    var s := Elems(a);
    var all := s + Elems(b) - {t};
    FilterNoDup(b, s);
    WithoutNoDup(a, t);
    WithoutIsFilter(a, t, all);
    WithoutIsFilter(b, t, all);
    FilterTwice(b, s, all);
    FilterTwice(b, all, s - {t});
    assert s * all == all * (s - {t});
    assert Elems(Without(a, t)) == s - {t};
  }

  /** What the skip list must be: at least one row, the bottom one without repetition, every row sorted by
      time remaining, every row a thinning of the one below. */
  ghost predicate Rows(rows: seq<seq<Timer>>, prio: Priorities) {
    && |rows| >= 1
    && NoDup(rows[|rows| - 1])
    && (forall i :: 0 <= i < |rows| ==> RowSorted(rows, i, prio))
    && (forall i :: 0 <= i < |rows| - 1 ==> RowThinned(rows, i))
  }

  ghost predicate RowSorted(rows: seq<seq<Timer>>, i: nat, prio: Priorities)
    requires i < |rows|
  {
    Sorted(rows[i], prio)
  }

  ghost predicate RowThinned(rows: seq<seq<Timer>>, i: nat)
    requires i + 1 < |rows|
  {
    Thinned(rows[i], rows[i + 1])
  }

  /** `tst_nr & RT_TIMER_SKIP_LIST_MASK` is zero, and the shift past the bits tested, for the mask 3. */
  predicate LowBitsClear(nr: Word) {
    nr % 4 == 0
  }

  function Shifted(nr: Word): Word {
    nr / 4
  }

  /** The number of rows a new timer enters, from the counter: one more than the trailing pairs of zero bits. */
  function Height(levels: nat, nr: Word): (h: nat)
    requires levels >= 1
    ensures 1 <= h <= levels
  {
    if levels == 1 || !LowBitsClear(nr) then 1 else 1 + Height(levels - 1, Shifted(nr))
  }

  function Pow4(k: nat): nat
    ensures Pow4(k) > 0
  {
    if k == 0 then 1 else 4 * Pow4(k - 1)
  }

  /** A timer enters `k` rows or more exactly on every 4^(k-1)-th count, as far as there are rows. */
  lemma {:induction false} HeightAtLeast(levels: nat, nr: Word, k: nat)
    requires 1 <= k <= levels
    ensures Height(levels, nr) >= k <==> nr % Pow4(k - 1) == 0
    decreases k
  {
    if k > 1 {
      HeightAtLeast(levels - 1, nr / 4, k - 1);
      QuarterDivides(nr, Pow4(k - 2));
    } else {
      assert nr % 1 == 0;
    }
  }

  lemma {:induction false} QuarterDivides(n: nat, p: nat)
    requires p > 0
    ensures n % (4 * p) == 0 <==> n % 4 == 0 && (n / 4) % p == 0
  {
    if n % (4 * p) == 0 {
      var q := n / (4 * p);
      assert n == q * (4 * p);
      assert n == 4 * (q * p);
      assert n / 4 == q * p;
      Divided(n / 4, p, q, 0);
    }
    if n % 4 == 0 && (n / 4) % p == 0 {
      var q := n / 4 / p;
      assert n == 4 * (q * p);
      assert n == q * (4 * p);
      Divided(n, 4 * p, q, 0);
    }
  }

  /** Stable insertion of `t` into the lowest `h` rows. */
  ghost function Insert(rows: seq<seq<Timer>>, t: Timer, h: nat, prio: Priorities): seq<seq<Timer>> {
    seq(|rows|, i requires 0 <= i < |rows| => if i + h >= |rows| then Enqueue(rows[i], t, Prio, prio) else rows[i])
  }

  ghost function Remove(rows: seq<seq<Timer>>, t: Timer): seq<seq<Timer>> {
    seq(|rows|, i requires 0 <= i < |rows| => Without(rows[i], t))
  }

  lemma {:induction false} RowBelow(rows: seq<seq<Timer>>, prio: Priorities, i: nat)
    requires Rows(rows, prio) && i < |rows|
    ensures NoDup(rows[i]) && forall x :: x in rows[i] ==> x in rows[|rows| - 1]
    decreases |rows| - i
  {
    if i < |rows| - 1 {
      RowBelow(rows, prio, i + 1);
      assert RowThinned(rows, i);
      FilterNoDup(rows[i + 1], Elems(rows[i]));
      FilterElems(rows[i + 1], Elems(rows[i]));
    }
  }

  /** A timer inserted into any number of rows leaves a skip list, and the bottom row is what stable linear
      insertion would produce. */
  lemma {:induction false} InsertRows(rows: seq<seq<Timer>>, t: Timer, h: nat, prio: Priorities)
    requires Rows(rows, prio) && t !in rows[|rows| - 1] && 1 <= h <= |rows|
    ensures Rows(Insert(rows, t, h, prio), prio)
    ensures Insert(rows, t, h, prio)[|rows| - 1] == Enqueue(rows[|rows| - 1], t, Prio, prio)
  {
    var n := Insert(rows, t, h, prio);
    forall i | 0 <= i < |rows| ensures RowSorted(n, i, prio) {
      assert RowSorted(rows, i, prio);
      EnqueueSorted(rows[i], t, prio);
    }
    forall i | 0 <= i < |rows| - 1 ensures RowThinned(n, i) { InsertThinned(rows, t, h, prio, i); }
    EnqueueElements(rows[|rows| - 1], t, Prio, prio);
  }

  lemma {:induction false} InsertThinned(rows: seq<seq<Timer>>, t: Timer, h: nat, prio: Priorities, i: nat)
    requires Rows(rows, prio) && t !in rows[|rows| - 1] && 1 <= h <= |rows| && i < |rows| - 1
    ensures RowThinned(Insert(rows, t, h, prio), i)
  {
    RowBelow(rows, prio, i + 1);
    assert RowThinned(rows, i) && RowSorted(rows, i + 1, prio) && t !in rows[i + 1];
    EnqueueThinned(rows[i], rows[i + 1], t, prio);
  }

  /** `_timer_remove` leaves a skip list without the timer. */
  lemma {:induction false} RemoveRows(rows: seq<seq<Timer>>, t: Timer, prio: Priorities)
    requires Rows(rows, prio)
    ensures Rows(Remove(rows, t), prio) && t !in Remove(rows, t)[|rows| - 1]
  {
    var n := Remove(rows, t);
    forall i | 0 <= i < |rows| ensures RowSorted(n, i, prio) {
      assert RowSorted(rows, i, prio);
      WithoutSorted(rows[i], t, prio);
    }
    forall i | 0 <= i < |rows| - 1 ensures RowThinned(n, i) {
      RowBelow(rows, prio, i + 1);
      assert RowThinned(rows, i);
      WithoutThinned(rows[i], rows[i + 1], t);
    }
    WithoutNoDup(rows[|rows| - 1], t);
  }
}
