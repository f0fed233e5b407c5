/** Fixed-block memory pool (`rt-thread/src/mempool.c`): a free list threaded through the block headers and
    a last-in, first-out list of suspended allocators that re-test after waking. */
module MemPool {
  import opened KernelTypes
  import opened Lists
  import opened WaitList

  /** `free` in list order; `live` the blocks handed out. */
  datatype Mp = Mp(total: nat, free: seq<nat>, live: set<nat>, gate: Gate)

  datatype AllocResult = Allocated(block: nat) | NoBlock | Suspended

  /** `rt_list_insert_after(head)`: the newest waiter is woken first. */
  function BlockFront(g: Gate, t: Tid): Gate {
    g.(waiting := [t] + g.waiting)
  }

  /** One pass of `rt_mp_alloc`. */
  function Alloc(m: Mp, t: Tid, time: int): (Mp, AllocResult) {
    var gate := Run(m.gate, t);
    if m.free == [] then
      if time == 0 then (m.(gate := gate), NoBlock) else (m.(gate := BlockFront(gate, t)), Suspended)
    else
      (m.(free := m.free[1..], live := m.live + {m.free[0]}, gate := gate), Allocated(m.free[0]))
  }

  /** `rt_mp_free`. */
  function Free(m: Mp, b: nat): Mp {
    m.(free := [b] + m.free, live := m.live - {b}, gate := Wake(m.gate))
  }

  datatype Event = DoAlloc(t: Tid, time: int) | DoFree(b: nat) | DoExpire(t: Tid)

  ghost predicate Enabled(m: Mp, e: Event) {
    match e
    case DoAlloc(t, _) => t !in m.gate.waiting
    case DoFree(b) => b in m.live
    case DoExpire(t) => t in m.gate.waiting
  }

  function Apply(m: Mp, e: Event): Mp {
    match e
    case DoAlloc(t, time) => Alloc(m, t, time).0
    case DoFree(b) => Free(m, b)
    case DoExpire(t) => m.(gate := TimeOut(m.gate, t))
  }

  /** Every block is free or live, not both, and no wake-up is lost. */
  ghost predicate Inv(m: Mp) {
    && NoDup(m.free)
    && (forall b :: b in m.free ==> b !in m.live)
    && (forall b :: b in m.free || b in m.live <==> 0 <= b < m.total)
    && |m.free| + |m.live| == m.total
    && NoLostWakeup(m.gate, |m.free|)
  }

  lemma {:induction false} AllocKeeps(m: Mp, t: Tid, time: int)
    requires Inv(m) && t !in m.gate.waiting
    ensures Inv(Alloc(m, t, time).0)
    ensures Alloc(m, t, time).1.Allocated? ==> Alloc(m, t, time).1.block !in m.live
  {
    if m.free != [] {
      TakeUnit(m.gate, t, |m.free|);
      NoDupTail(m.free);
    } else {
      var g := BlockFront(Run(m.gate, t), t);
      NoDupAppend([t], m.gate.waiting);
      assert forall x :: x in g.waiting <==> x == t || x in m.gate.waiting;
    }
  }

  lemma {:induction false} FreeKeeps(m: Mp, b: nat)
    requires Inv(m) && b in m.live
    ensures Inv(Free(m, b))
  {
    AddUnit(m.gate, |m.free|);
    var n := Free(m, b);
    NoDupAppend([b], m.free);
    assert forall x :: x in n.free <==> x == b || x in m.free;
  }

  lemma {:induction false} StepKeeps(m: Mp, e: Event)
    requires Inv(m) && Enabled(m, e)
    ensures Inv(Apply(m, e))
  {
    match e
    case DoAlloc(t, time) => AllocKeeps(m, t, time);
    case DoFree(b) => FreeKeeps(m, b);
    case DoExpire(t) => LoseWaiters(m.gate, t, |m.free|);
  }

  ghost predicate CanRun(m: Mp, es: seq<Event>)
    decreases |es|
  {
    es == [] || (Enabled(m, es[0]) && CanRun(Apply(m, es[0]), es[1..]))
  }

  ghost function After(m: Mp, es: seq<Event>): Mp
    decreases |es|
  {
    if es == [] then m else After(Apply(m, es[0]), es[1..])
  }

  /** In every interleaving: blocks are conserved, a block handed out was not live, and an allocator stays
      suspended beside free blocks only while enough woken ones are still to run. */
  lemma {:induction false} RunKeeps(m: Mp, es: seq<Event>)
    requires Inv(m) && CanRun(m, es)
    ensures Inv(After(m, es))
    ensures After(m, es).gate.woken == {} && After(m, es).gate.waiting != [] ==> |After(m, es).live| == m.total
    decreases |es|
  {
    if es != [] {
      StepKeeps(m, es[0]);
      RunKeeps(Apply(m, es[0]), es[1..]);
    }
  }

  /** What the result of a pass means: exactly if there is a free block the caller gets one, and that one is no longer
      free but live; otherwise nothing changes hands, and the caller waits exactly if it gave a time other than zero.
      */
  lemma {:induction false} AllocMeans(m: Mp, t: Tid, time: int)
    requires Inv(m) && Enabled(m, DoAlloc(t, time))
    ensures var (n, r) := Alloc(m, t, time);
      && n.total == m.total && (r.Allocated? <==> m.free != [])
      && (r.Allocated? ==>
            && r.block in m.free && r.block !in m.live && r.block !in n.free
            && n.live == m.live + {r.block} && multiset(m.free) == multiset(n.free) + multiset{r.block})
      && (!r.Allocated? ==> n.free == m.free && n.live == m.live)
      && (r == NoBlock <==> m.free == [] && time == 0)
      && (r == Suspended <==> t in n.gate.waiting)
      && (if r == Suspended then Joined(m.gate, n.gate, t) else n.gate == Gate(m.gate.waiting, m.gate.woken - {t}))
  {
    if m.free != [] {
      NoDupTail(m.free);
      assert m.free == [m.free[0]] + m.free[1..];
    } else {
      assert ([t] + m.gate.waiting)[1..] == m.gate.waiting;
    }
  }

  /** A free gives back exactly its block and resumes one waiter if there is any; a timeout takes out its thread. */
  lemma {:induction false} OthersMean(m: Mp, e: Event)
    requires Inv(m) && Enabled(m, e)
    ensures var n := Apply(m, e);
      && (e.DoFree? ==>
            && n.total == m.total && n.live == m.live - {e.b} && e.b in n.free && e.b !in m.free
            && multiset(n.free) == multiset(m.free) + multiset{e.b} && Resumed(m.gate, n.gate))
      && (e.DoExpire? ==>
            && n == m.(gate := n.gate) && e.t !in n.gate.waiting && n.gate.woken == m.gate.woken
            && multiset(n.gate.waiting) == multiset(m.gate.waiting) - multiset{e.t})
  {
    WakeResumes(m.gate);
    if e.DoExpire? { LeavingMeans(m.gate, e.t); }
  }

  /** A block handed out stays with its caller until it is freed: no later allocation returns it. */
  lemma {:induction false} NeverTwice(m: Mp, b: nat, es: seq<Event>, u: Tid, time: int)
    requires Inv(m) && b in m.live && CanRun(m, es) && forall i :: 0 <= i < |es| ==> es[i] != DoFree(b)
    requires Enabled(After(m, es), DoAlloc(u, time))
    ensures b in After(m, es).live && Alloc(After(m, es), u, time).1 != Allocated(b)
    decreases |es|
  {
    if es == [] {
      AllocMeans(m, u, time);
    } else {
      StepKeeps(m, es[0]);
      if es[0].DoAlloc? { AllocMeans(m, es[0].t, es[0].time); } else { OthersMean(m, es[0]); }
      NeverTwice(Apply(m, es[0]), b, es[1..], u, time);
    }
  }

  /** So two allocations with no free of the first block in between get different blocks. */
  lemma {:induction false} TwoBlocks(m: Mp, t: Tid, time: int, es: seq<Event>, u: Tid, later: int)
    requires Inv(m) && Enabled(m, DoAlloc(t, time)) && Alloc(m, t, time).1.Allocated?
    requires CanRun(Alloc(m, t, time).0, es) && Enabled(After(Alloc(m, t, time).0, es), DoAlloc(u, later))
    requires forall i :: 0 <= i < |es| ==> es[i] != DoFree(Alloc(m, t, time).1.block)
    ensures Alloc(After(Alloc(m, t, time).0, es), u, later).1 != Alloc(m, t, time).1
  {
    AllocMeans(m, t, time);
    AllocKeeps(m, t, time);
    NeverTwice(Alloc(m, t, time).0, Alloc(m, t, time).1.block, es, u, later);
  }

  /** The number of the step at which each thread was last suspended, the first step having number `now`. */
  ghost function Stamped(m: Mp, e: Event, at: map<Tid, nat>, now: nat): map<Tid, nat> {
    if e.DoAlloc? && Alloc(m, e.t, e.time).1 == Suspended then at[e.t := now] else at
  }

  ghost function Stamps(m: Mp, es: seq<Event>, at: map<Tid, nat>, now: nat): map<Tid, nat>
    decreases |es|
  {
    if es == [] then at else Stamps(Apply(m, es[0]), es[1..], Stamped(m, es[0], at, now), now + 1)
  }

  ghost predicate Later(ts: seq<Tid>, at: map<Tid, nat>, i: nat, j: nat)
    requires i < |ts| && j < |ts|
  {
    ts[i] in at && ts[j] in at && at[ts[j]] < at[ts[i]]
  }

  /** Whoever was suspended later stands further in front. */
  ghost predicate Recent(ts: seq<Tid>, at: map<Tid, nat>, now: nat) {
    && (forall t :: t in ts ==> t in at && at[t] < now)
    && forall i, j :: 0 <= i < j < |ts| ==> Later(ts, at, i, j)
  }

  lemma {:induction false} RecentFront(ts: seq<Tid>, at: map<Tid, nat>, now: nat, t: Tid)
    requires Recent(ts, at, now) && t !in ts
    ensures Recent([t] + ts, at[t := now], now + 1)
  {
    var n, after := [t] + ts, at[t := now];
    forall i, j | 0 <= i < j < |n| ensures Later(n, after, i, j) {
      assert n[j] == ts[j - 1] && ts[j - 1] in ts;
      if i > 0 { assert Later(ts, at, i - 1, j - 1) && ts[i - 1] in ts; }
    }
  }

  lemma {:induction false} RecentTail(ts: seq<Tid>, at: map<Tid, nat>, now: nat)
    requires Recent(ts, at, now) && ts != []
    ensures Recent(ts[1..], at, now) && forall t :: t in ts[1..] ==> at[t] < at[ts[0]]
  {
    var r := ts[1..];
    forall i, j | 0 <= i < j < |r| ensures Later(r, at, i, j) { assert Later(ts, at, i + 1, j + 1); }
    forall t | t in r ensures at[t] < at[ts[0]] {
      var j :| 0 <= j < |r| && r[j] == t;
      assert Later(ts, at, 0, j + 1);
    }
  }

  lemma {:induction false} RecentWithout(ts: seq<Tid>, at: map<Tid, nat>, now: nat, t: Tid)
    requires Recent(ts, at, now)
    ensures Recent(Without(ts, t), at, now)
  {
    if ts != [] {
      RecentTail(ts, at, now);
      if ts[0] != t {
        RecentWithout(ts[1..], at, now, t);
        var r := Without(ts[1..], t);
        forall i, j | 0 <= i < j < |r| + 1 ensures Later([ts[0]] + r, at, i, j) {
          if i > 0 { assert Later(r, at, i - 1, j - 1); } else { assert r[j - 1] in r && r[j - 1] in ts[1..]; }
        }
      }
    }
  }

  lemma {:induction false} RecentStep(m: Mp, e: Event, at: map<Tid, nat>, now: nat)
    requires Recent(m.gate.waiting, at, now) && Enabled(m, e)
    ensures Recent(Apply(m, e).gate.waiting, Stamped(m, e, at, now), now + 1)
  {
    hide Recent;
    var ts := m.gate.waiting;
    RecentOn(ts, at, now);
    match e
    case DoAlloc(t, time) =>
      if Alloc(m, t, time).1 == Suspended { RecentFront(ts, at, now, t); }
    case DoFree(b) =>
      if ts != [] { RecentTail(ts, at, now); RecentOn(ts[1..], at, now); }
    case DoExpire(t) => RecentWithout(ts, at, now, t); RecentOn(Without(ts, t), at, now);
  }

  lemma {:induction false} RecentOn(ts: seq<Tid>, at: map<Tid, nat>, now: nat)
    requires Recent(ts, at, now)
    ensures Recent(ts, at, now + 1)
  {
  }

  lemma {:induction false} RecentRun(m: Mp, es: seq<Event>, at: map<Tid, nat>, now: nat)
    requires Recent(m.gate.waiting, at, now) && CanRun(m, es)
    ensures Recent(After(m, es).gate.waiting, Stamps(m, es, at, now), now + |es|)
    decreases |es|
  {
    hide Recent, Stamped, Apply, Enabled;
    if es != [] {
      RecentStep(m, es[0], at, now);
      RecentRun(Apply(m, es[0]), es[1..], Stamped(m, es[0], at, now), now + 1);
    }
  }

  /** After any run from a state with nobody waiting, freeing a block wakes the thread suspended last; that is the one
      that has waited longest exactly if it is the only one. */
  lemma {:induction false} NewestFirst(m: Mp, es: seq<Event>, b: nat)
    requires m.gate.waiting == [] && CanRun(m, es) && After(m, es).gate.waiting != []
    ensures var n, at := After(m, es), Stamps(m, es, map[], 0); var ts := n.gate.waiting;
      && ts[0] in at && Free(n, b).gate == Gate(ts[1..], n.gate.woken + {ts[0]})
      && (forall t :: t in ts ==> t in at && at[t] <= at[ts[0]])
      && ((forall t :: t in ts ==> at[ts[0]] <= at[t]) <==> |ts| == 1)
  {
    var n, at := After(m, es), Stamps(m, es, map[], 0);
    var ts := n.gate.waiting;
    RecentRun(m, es, map[], 0);
    if |ts| > 1 { assert Later(ts, at, 0, 1) && ts[1] in ts; }
    forall t | t in ts ensures t in at && at[t] <= at[ts[0]] {
      var j :| 0 <= j < |ts| && ts[j] == t;
      if j > 0 { assert Later(ts, at, 0, j); }
    }
  }

  /** `NULL` as a block link, and the mark of a block in use (its header points at the pool). */
  const NIL: int := -1
  const POOL: int := -2

  ghost predicate LinkAt(header: seq<int>, s: seq<nat>, i: nat)
    requires i < |s|
  {
    s[i] < |header| && header[s[i]] == if i + 1 < |s| then s[i + 1] else NIL
  }

  ghost predicate Threaded(header: seq<int>, h: int, s: seq<nat>) {
    && h == (if s == [] then NIL else s[0])
    && forall i :: 0 <= i < |s| ==> LinkAt(header, s, i)
  }

  class PoolObject {
    const total: nat
    /** The first word of every block: a free-list link, or a pointer to the pool. */
    const header: array<int>
    var blockList: int
    var freeCount: nat
    var suspended: seq<Tid>
    ghost var free: seq<nat>
    ghost var live: set<nat>
    ghost var woken: set<Tid>

    ghost function View(): Mp
      reads this
    {
      Mp(total, free, live, Gate(suspended, woken))
    }

    ghost predicate Valid()
      reads this, header
    {
      && header.Length == total
      && Threaded(header[..], blockList, free)
      && freeCount == |free|
      && (forall b :: b in live ==> 0 <= b < total && header[b] == POOL)
    }

    /** `rt_mp_init`: blocks are linked in address order and the last link is cut. */
    constructor (count: nat)
      requires count > 0
      ensures Valid() && Inv(View()) && total == count && live == {} && suspended == []
    {
      total, freeCount, blockList := count, count, 0;
      header := new int[count];
      suspended, woken, live := [], {}, {};
      free := seq(count, i => i);
      new;
      for offset := 0 to total
        modifies header
        invariant forall j :: 0 <= j < offset ==> header[j] == j + 1
      {
        header[offset] := offset + 1;
      }
      header[total - 1] := NIL;
      forall i | 0 <= i < |free| ensures LinkAt(header[..], free, i) {}
      assert forall b :: b in free <==> 0 <= b < total by {
        forall b | 0 <= b < total ensures b in free { assert free[b] == b; }
      }
    }

    /** One pass of `rt_mp_alloc`. */
    method AllocPass(t: Tid, time: int) returns (r: AllocResult)
      requires Valid() && Inv(View()) && t !in suspended
      modifies this, header
      ensures Valid() && (View(), r) == Alloc(old(View()), t, time)
    {
      woken := woken - {t};
      if freeCount == 0 {
        if time == 0 {
          return NoBlock;
        }
        suspended := [t] + suspended;
        return Suspended;
      }
      freeCount := freeCount - 1;
      assert LinkAt(header[..], free, 0) && blockList != NIL;
      ghost var was := header[..];
      var block := blockList;
      blockList := header[block];
      header[block] := POOL;
      forall i | 0 <= i < |free| - 1 ensures LinkAt(header[..], free[1..], i) {
        assert LinkAt(was, free, i + 1) && Differ(free, 0, i + 1);
      }
      free := free[1..];
      live := live + {block};
      return Allocated(block);
    }

    /** `rt_mp_free` of a block this pool handed out. */
    method FreeBlock(b: nat)
      requires Valid() && Inv(View()) && b in live
      modifies this, header
      ensures Valid() && View() == Free(old(View()), b)
    {
      freeCount := freeCount + 1;
      ghost var was := header[..];
      header[b] := blockList;
      blockList := b;
      ghost var f := [b] + free;
      forall i | 0 <= i < |f| ensures LinkAt(header[..], f, i) {
        if i > 0 { assert LinkAt(was, free, i - 1) && free[i - 1] in free; }
      }
      free := f;
      live := live - {b};
      if suspended != [] {
        woken := woken + {suspended[0]};
        suspended := suspended[1..];
      }
    }

    /** `_thread_timeout` for a thread suspended on this pool. */
    method Expire(t: Tid)
      requires Valid() && t in suspended
      modifies this
      ensures Valid() && View() == Apply(old(View()), DoExpire(t))
    {
      suspended := Without(suspended, t);
    }
  }
}
