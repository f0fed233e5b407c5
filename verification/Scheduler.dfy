/** The uniprocessor scheduler and thread states (`rt-thread/src/scheduler.c`, `rt-thread/src/thread.c`) with
    32 priorities: one list node per thread, 32 ready queues and a bit mask of those that are not empty. */
module Scheduler {
  import opened KernelTypes
  import opened Lists
  import opened Ffs

  type Tid = nat

  const PRIORITIES := 32

  /** `stat & RT_THREAD_STAT_MASK`. */
  datatype Stat = Init | Ready | Suspended | Running | Closed

  /** `yielding` is `RT_THREAD_STAT_YIELD`; `mask` is the bit of `number_mask`. */
  datatype Thread = Thread(stat: Stat, yielding: bool, prio: nat, mask: nat, initTick: Word, remaining: Word)

  /** `waits` are the suspend lists of kernel objects; `group` is `rt_thread_ready_priority_group`. */
  datatype Sched = Sched(threads: map<Tid, Thread>, queues: seq<seq<Tid>>, group: Word, waits: seq<seq<Tid>>,
                         current: Option<Tid>, currentPrio: nat, nest: int)

  function WithStat(s: Sched, t: Tid, stat: Stat): Sched
    requires t in s.threads
  {
    s.(threads := s.threads[t := s.threads[t].(stat := stat)])
  }

  function Each(lists: seq<seq<Tid>>, t: Tid): seq<seq<Tid>> {
    seq(|lists|, i requires 0 <= i < |lists| => Without(lists[i], t))
  }

  /** `rt_list_remove(&thread->tlist)`: whatever list the thread's node is on. */
  function Unlink(s: Sched, t: Tid): Sched {
    s.(queues := Each(s.queues, t), waits := Each(s.waits, t))
  }

  /** Masks are 32-bit words. */
  function SetMask(group: Word, i: nat): Word
    requires i < PRIORITIES
  {
    WordWidth();
    BitsFit(group, i, 32);
    SetBit(group, i)
  }

  function ClearMask(group: Word, i: nat): Word
    requires i < PRIORITIES
  {
    WordWidth();
    BitsFit(group, i, 32);
    ClearBit(group, i)
  }

  ghost predicate Known(s: Sched, t: Tid) {
    t in s.threads && s.threads[t].prio < PRIORITIES && s.threads[t].mask < PRIORITIES && |s.queues| == PRIORITIES
  }

  /** `rt_schedule_insert_thread`: the current thread is marked running, any other goes to the end of its queue. */
  function Insert(s: Sched, t: Tid): Sched
    requires Known(s, t)
  {
    if s.current == Some(t) then WithStat(s, t, Running)
    else
      var p := s.threads[t].prio;
      WithStat(s, t, Ready).(queues := s.queues[p := s.queues[p] + [t]], group := SetMask(s.group, s.threads[t].mask))
  }

  /** `rt_schedule_remove_thread`. */
  function Remove(s: Sched, t: Tid): Sched
    requires Known(s, t)
  {
    var n := Unlink(s, t);
    if n.queues[s.threads[t].prio] == [] then n.(group := ClearMask(s.group, s.threads[t].mask)) else n
  }

  /** Every thread of a ready queue is ready and at that priority, and every ready thread is there; a bit of the
      group is set exactly if its queue is not empty. */
  ghost predicate QueuesOk(s: Sched) {
    && |s.queues| == PRIORITIES
    && (forall p :: 0 <= p < PRIORITIES ==> NoDup(s.queues[p]) && (Bit(s.group, p) <==> s.queues[p] != []))
    && (forall p, t :: 0 <= p < PRIORITIES ==> (t in s.queues[p] <==> IsReadyAt(s, t, p)))
  }

  ghost predicate IsReadyAt(s: Sched, t: Tid, p: nat) {
    t in s.threads && s.threads[t].stat == Ready && s.threads[t].prio == p
  }

  ghost predicate ThreadsOk(s: Sched) {
    forall t :: t in s.threads ==> ThreadOk(s.threads[t])
  }

  ghost predicate ThreadOk(x: Thread) {
    x.prio < PRIORITIES && x.mask < PRIORITIES && (x.stat != Init ==> x.mask == x.prio)
  }

  /** A thread is on at most one wait list, and only while suspended. */
  ghost predicate WaitsOk(s: Sched) {
    && (forall i :: 0 <= i < |s.waits| ==> NoDup(s.waits[i]))
    && (forall i, t :: 0 <= i < |s.waits| && t in s.waits[i] ==> Waits(s, t, i))
  }

  ghost predicate Waits(s: Sched, t: Tid, i: nat) {
    && t in s.threads && s.threads[t].stat == Suspended
    && forall j :: 0 <= j < |s.waits| && j != i ==> t !in s.waits[j]
  }

  ghost predicate ListsOk(s: Sched) {
    QueuesOk(s) && ThreadsOk(s) && WaitsOk(s)
  }

  /** Only the current thread runs, and it is on no queue. */
  ghost predicate CurrentOk(s: Sched) {
    && -0x8000 <= s.nest < 0x8000
    && (forall t :: t in s.threads && s.threads[t].stat == Running ==> s.current == Some(t))
    && (s.current.Some? ==> s.current.value in s.threads && s.threads[s.current.value].stat !in {Init, Ready})
  }

  ghost predicate Inv(s: Sched) {
    ListsOk(s) && CurrentOk(s)
  }

  lemma {:induction false} KnownThread(s: Sched, t: Tid)
    requires ListsOk(s) && t in s.threads
    ensures Known(s, t) && ThreadOk(s.threads[t])
  {
  }

  ghost predicate OnNoWait(s: Sched, t: Tid) {
    forall i :: 0 <= i < |s.waits| ==> t !in s.waits[i]
  }

  /** A thread that is on no list enters its queue. */
  lemma {:induction false} InsertLists(s: Sched, t: Tid)
    requires ListsOk(s) && t in s.threads && s.threads[t].stat in {Running, Suspended} && OnNoWait(s, t)
    ensures Known(s, t) && ListsOk(Insert(s, t))
  {
    KnownThread(s, t);
    if s.current != Some(t) {
      var n, p := Insert(s, t), s.threads[t].prio;
      assert t !in s.queues[p] by { assert t in s.queues[p] <==> IsReadyAt(s, t, p); }
      NoDupAppend(s.queues[p], [t]);
      forall q | 0 <= q < PRIORITIES ensures NoDup(n.queues[q]) && (Bit(n.group, q) <==> n.queues[q] != []) {
        BitChanged(s.group, p, q);
      }
      forall q, u | 0 <= q < PRIORITIES ensures u in n.queues[q] <==> IsReadyAt(n, u, q) {
        assert u in s.queues[q] <==> IsReadyAt(s, u, q);
      }
      WaitsSame(s, n, t);
    } else {
      StatOnly(s, t, Running);
    }
  }

  /** Changing the stat of a thread that is on no list, to another that is on none. */
  lemma {:induction false} StatOnly(s: Sched, t: Tid, stat: Stat)
    requires ListsOk(s) && t in s.threads && s.threads[t].stat !in {Init, Ready} && stat !in {Init, Ready}
    requires OnNoWait(s, t)
    ensures ListsOk(WithStat(s, t, stat))
  {
    var n := WithStat(s, t, stat);
    forall q, u | 0 <= q < PRIORITIES ensures u in n.queues[q] <==> IsReadyAt(n, u, q) {
      assert u in s.queues[q] <==> IsReadyAt(s, u, q);
    }
    WaitsSame(s, n, t);
  }

  lemma {:induction false} WaitsSame(s: Sched, n: Sched, t: Tid)
    requires WaitsOk(s) && n.waits == s.waits && OnNoWait(s, t)
    requires forall u :: u in s.threads && u != t ==> u in n.threads && n.threads[u].stat == s.threads[u].stat
    ensures WaitsOk(n)
  {
    forall i, u | 0 <= i < |n.waits| && u in n.waits[i] ensures Waits(n, u, i) { assert Waits(s, u, i); }
  }

  /** Leaving every list with a stat that belongs on none. */
  lemma {:induction false} RemoveLists(s: Sched, t: Tid, stat: Stat)
    requires ListsOk(s) && t in s.threads && s.threads[t].stat != Init && stat !in {Init, Ready}
    ensures Known(s, t) && ListsOk(WithStat(Remove(s, t), t, stat)) && OnNoWait(WithStat(Remove(s, t), t, stat), t)
  {
    KnownThread(s, t);
    var n, p := WithStat(Remove(s, t), t, stat), s.threads[t].prio;
    forall q | 0 <= q < PRIORITIES ensures NoDup(n.queues[q]) && (Bit(n.group, q) <==> n.queues[q] != []) {
      WithoutNoDup(s.queues[q], t);
      BitChanged(s.group, p, q);
      assert t in s.queues[q] <==> IsReadyAt(s, t, q);
    }
    forall q, u | 0 <= q < PRIORITIES ensures u in n.queues[q] <==> IsReadyAt(n, u, q) {
      WithoutNoDup(s.queues[q], t);
      assert u in s.queues[q] <==> IsReadyAt(s, u, q);
    }
    WaitsWithout(s, n, t);
  }

  lemma {:induction false} WaitsWithout(s: Sched, n: Sched, t: Tid)
    requires WaitsOk(s) && n.waits == Each(s.waits, t)
    requires forall u :: u in s.threads && u != t ==> u in n.threads && n.threads[u].stat == s.threads[u].stat
    ensures WaitsOk(n) && OnNoWait(n, t)
  {
    forall i | 0 <= i < |n.waits| ensures NoDup(n.waits[i]) && t !in n.waits[i] { WithoutNoDup(s.waits[i], t); }
    forall i, u | 0 <= i < |n.waits| && u in n.waits[i] ensures Waits(n, u, i) {
      assert u in s.waits[i] && Waits(s, u, i);
    }
  }

  /** `_scheduler_get_highest_priority_thread`. */
  function Highest(s: Sched): int {
    FindFirstSet(s.group) - 1
  }

  /** There is a ready thread exactly if the group is not zero; then the highest bit found names a queue that is not
      empty, and every queue above it is. */
  lemma {:induction false} HighestQueue(s: Sched)
    requires QueuesOk(s)
    ensures s.group != 0 ==> 0 <= Highest(s) < PRIORITIES && s.queues[Highest(s)] != []
    ensures s.group != 0 ==> forall p :: 0 <= p < Highest(s) ==> s.queues[p] == []
    ensures s.group == 0 ==> forall p :: 0 <= p < PRIORITIES ==> s.queues[p] == []
  {
    if s.group == 0 {
      forall p | 0 <= p < PRIORITIES ensures s.queues[p] == [] { ZeroBits(p); }
    } else {
      FindsLowest(s.group, 0);
      forall p | 0 <= p < Highest(s) ensures s.queues[p] == [] { FindsLowest(s.group, p); }
    }
  }

  /** The thread `rt_schedule` picks: the current one if it is running and not outranked, and, among equals, not
      asked to yield; else the head of the highest queue. */
  function Pick(s: Sched): Tid
    requires s.current.Some? && s.current.value in s.threads && s.group != 0
    requires 0 <= Highest(s) < |s.queues| && s.queues[Highest(s)] != []
  {
    var x := s.threads[s.current.value];
    if x.stat == Running && (x.prio < Highest(s) || (x.prio == Highest(s) && !x.yielding)) then s.current.value
    else s.queues[Highest(s)][0]
  }

  function NoYield(s: Sched, t: Tid): Sched
    requires t in s.threads
  {
    s.(threads := s.threads[t := s.threads[t].(yielding := false)])
  }

  ghost predicate Schedulable(s: Sched) {
    && s.current.Some? && Known(s, s.current.value)
    && (s.group != 0 ==>
          0 <= Highest(s) < PRIORITIES && s.queues[Highest(s)] != [] && Known(s, s.queues[Highest(s)][0]))
  }

  /** `rt_schedule`. */
  function Schedule(s: Sched): Sched
    requires Schedulable(s)
  {
    if s.nest != 0 || s.group == 0 then s
    else
      var from, to, running := s.current.value, Pick(s), s.threads[s.current.value].stat == Running;
      var n := if running then NoYield(s, from) else s;
      if to != from then
        var m := n.(currentPrio := Highest(s), current := Some(to));
        var i := if running then Insert(m, from) else m;
        WithStat(Remove(i, to), to, Running)
      else WithStat(Remove(n, from), from, Running)
  }

  lemma {:induction false} CanSchedule(s: Sched)
    requires Inv(s) && s.current.Some?
    ensures Schedulable(s)
  {
    HighestQueue(s);
    if s.group != 0 {
      var h := s.queues[Highest(s)][0];
      assert h in s.queues[Highest(s)] && IsReadyAt(s, h, Highest(s));
      KnownThread(s, h);
    }
    KnownThread(s, s.current.value);
  }

  lemma {:induction false} NoYieldLists(s: Sched, t: Tid)
    requires ListsOk(s) && t in s.threads
    ensures ListsOk(NoYield(s, t))
  {
    var n := NoYield(s, t);
    forall q, u | 0 <= q < PRIORITIES ensures u in n.queues[q] <==> IsReadyAt(n, u, q) {
      assert u in s.queues[q] <==> IsReadyAt(s, u, q);
    }
    forall i, u | 0 <= i < |n.waits| && u in n.waits[i] ensures Waits(n, u, i) { assert Waits(s, u, i); }
  }

  /** A running thread is on no wait list. */
  lemma {:induction false} RunningFree(s: Sched, t: Tid)
    requires WaitsOk(s) && t in s.threads && s.threads[t].stat != Suspended
    ensures OnNoWait(s, t)
  {
    forall i | 0 <= i < |s.waits| ensures t !in s.waits[i] { assert t in s.waits[i] ==> Waits(s, t, i); }
  }

  /** Switching to another thread. */
  lemma {:induction false} SwitchKeeps(s: Sched, from: Tid, to: Tid, p: nat)
    requires ListsOk(s) && s.nest == 0 && from in s.threads && IsReadyAt(s, to, p)
    requires s.threads[from].stat !in {Init, Ready}
    requires forall t :: t in s.threads && s.threads[t].stat == Running ==> t == from
    ensures var m := s.(currentPrio := p, current := Some(to));
      && Known(m, from) && Known(if s.threads[from].stat == Running then Insert(m, from) else m, to)
      && var n := WithStat(Remove(if s.threads[from].stat == Running then Insert(m, from) else m, to), to, Running);
      && Inv(n) && n.current == Some(to)
  {
    var m := s.(currentPrio := p, current := Some(to));
    CurrentFrame(s, m);
    KnownThread(m, from);
    if s.threads[from].stat == Running {
      RunningFree(m, from);
      InsertLists(m, from);
      RemoveLists(Insert(m, from), to, Running);
    } else {
      RemoveLists(m, to, Running);
    }
  }

  lemma {:induction false} CurrentFrame(s: Sched, m: Sched)
    requires ListsOk(s) && m == s.(currentPrio := m.currentPrio, current := m.current)
    ensures ListsOk(m)
  {
    forall q, u | 0 <= q < PRIORITIES ensures u in m.queues[q] <==> IsReadyAt(m, u, q) {
      assert u in s.queues[q] <==> IsReadyAt(s, u, q);
    }
    forall i, u | 0 <= i < |m.waits| && u in m.waits[i] ensures Waits(m, u, i) { assert Waits(s, u, i); }
  }

  /** Whoever may run does: some thread is ready, or the current one is running. The idle thread sees to it. */
  ghost predicate Busy(s: Sched) {
    s.group != 0 || (s.current.Some? && s.current.value in s.threads && s.threads[s.current.value].stat == Running)
  }

  /** The choice: the current thread runs and no ready thread is more urgent. */
  ghost predicate Settled(s: Sched) {
    && s.current.Some? && s.current.value in s.threads && s.threads[s.current.value].stat == Running
    && forall t :: t in s.threads && s.threads[t].stat == Ready ==> s.threads[s.current.value].prio <= s.threads[t].prio
  }

  lemma {:induction false} ScheduleKeeps(s: Sched)
    requires Inv(s) && s.current.Some?
    ensures Schedulable(s) && Inv(Schedule(s)) && Schedule(s).current.Some?
  {
    CanSchedule(s);
    if s.nest == 0 && s.group != 0 {
      var from, to, running := s.current.value, Pick(s), s.threads[s.current.value].stat == Running;
      var n := if running then NoYield(s, from) else s;
      if running { NoYieldLists(s, from); }
      if to != from {
        assert to in s.queues[Highest(s)] && IsReadyAt(s, to, Highest(s));
        SwitchKeeps(n, from, to, Highest(s));
      } else {
        RemoveLists(n, from, Running);
      }
    }
  }

  /** No ready thread is more urgent than the highest queue. */
  lemma {:induction false} ReadyBelow(s: Sched, t: Tid)
    requires Inv(s) && t in s.threads && s.threads[t].stat == Ready
    ensures s.group != 0 && Highest(s) <= s.threads[t].prio
  {
    KnownThread(s, t);
    var p := s.threads[t].prio;
    assert t in s.queues[p] <==> IsReadyAt(s, t, p);
    HighestQueue(s);
  }

  /** After `rt_schedule` with the scheduler unlocked, no ready thread outranks the running one. */
  lemma {:induction false} ScheduleSettles(s: Sched)
    requires Inv(s) && s.current.Some? && s.nest == 0 && Busy(s)
    ensures Schedulable(s) && Settled(Schedule(s))
  {
    CanSchedule(s);
    var n := Schedule(s);
    if s.group != 0 {
      var from, to := s.current.value, Pick(s);
      var h := s.queues[Highest(s)][0];
      assert h in s.queues[Highest(s)] && IsReadyAt(s, h, Highest(s));
      assert n.current == Some(to) && n.threads[to].stat == Running && n.threads[to].prio <= Highest(s);
      forall t | t in n.threads && n.threads[t].stat == Ready ensures n.threads[to].prio <= n.threads[t].prio {
        if t != from { ReadyBelow(s, t); }
      }
    } else {
      forall t | t in n.threads && n.threads[t].stat == Ready ensures false { ReadyBelow(s, t); }
    }
  }

  /** A thread that is always ready or running, as the idle thread is, keeps the processor busy. */
  lemma {:induction false} BusyWith(s: Sched, idle: Tid)
    requires Inv(s) && idle in s.threads && s.threads[idle].stat in {Ready, Running}
    ensures Busy(s)
  {
    if s.threads[idle].stat == Ready { ReadyBelow(s, idle); }
  }
}
