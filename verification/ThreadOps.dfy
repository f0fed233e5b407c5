/** The operations that move threads between places (`rt-thread/src/thread.c`, `rt-thread/src/scheduler.c`,
    `rt-thread/src/clock.c`), and what every sequence of them keeps. */
module ThreadOps {
  import opened KernelTypes
  import opened Lists
  import opened Ffs
  import opened Scheduler
  import W = WaitList

  /** `rt_system_scheduler_init`, with the (still empty) suspend lists of `objects` kernel objects. */
  function Boot(objects: nat): Sched {
    Sched(map[], seq(PRIORITIES, i => []), 0, seq(objects, i => []), None, 0, 0)
  }

  lemma {:induction false} BootInv(objects: nat)
    ensures Inv(Boot(objects))
  {
    forall p | 0 <= p < PRIORITIES ensures !Bit(0, p) { ZeroBits(p); }
  }

  /** `_thread_init`. */
  function Create(s: Sched, t: Tid, prio: nat, tick: Word): Sched {
    s.(threads := s.threads[t := Thread(Init, false, prio, 0, tick, tick)])
  }

  /** A suspended thread leaves its wait list, if it is on one, and becomes schedulable. */
  function Wake(s: Sched, t: Tid): Sched
    requires Known(s, t)
  {
    var n := Unlink(s, t);
    Insert(n, t)
  }

  /** `rt_thread_resume`: refused unless the thread is suspended. */
  function Resume(s: Sched, t: Tid): (Sched, bool)
    requires Known(s, t)
  {
    if s.threads[t].stat != Suspended then (s, false) else (Wake(s, t), true)
  }

  /** `rt_thread_suspend`, which accepts the current thread only. */
  function Suspend(s: Sched): (Sched, bool)
    requires s.current.Some? && Known(s, s.current.value)
  {
    var t := s.current.value;
    if s.threads[t].stat !in {Ready, Running} then (s, false)
    else (WithStat(Remove(s, t), t, Suspended), true)
  }

  function PriorityOf(s: Sched): Tid -> nat {
    t => if t in s.threads then s.threads[t].prio else 0
  }

  /** `_ipc_list_suspend` of the current thread on wait list `i`. */
  function Block(s: Sched, i: nat, flag: W.Flag): Sched
    requires s.current.Some? && Known(s, s.current.value) && i < |s.waits|
  {
    var n := Suspend(s).0;
    n.(waits := n.waits[i := W.Enqueue(n.waits[i], s.current.value, flag, PriorityOf(n))])
  }

  /** `RT_THREAD_CTRL_CHANGE_PRIORITY`. */
  function ChangePriority(s: Sched, t: Tid, prio: nat): Sched
    requires Known(s, t) && prio < PRIORITIES
  {
    if s.threads[t].stat == Ready then
      var n := Remove(s, t);
      Insert(n.(threads := n.threads[t := n.threads[t].(prio := prio, mask := prio)]), t)
    else s.(threads := s.threads[t := s.threads[t].(prio := prio, mask := prio)])
  }

  /** The lock counter is a 16-bit signed integer. */
  function Enter(s: Sched): Sched {
    s.(nest := if s.nest == 0x7fff then -0x8000 else s.nest + 1)
  }

  function Fewer(nest: int): int {
    if nest == -0x8000 then 0x7fff else nest - 1
  }

  /** `rt_exit_critical` up to the final scheduling, which happens when the counter comes out as 0. */
  function Leave(s: Sched): Sched {
    s.(nest := if Fewer(s.nest) <= 0 then 0 else Fewer(s.nest))
  }

  /** `rt_thread_startup` up to the final scheduling. */
  function Started(s: Sched, t: Tid): Sched
    requires Known(s, t)
  {
    var x := s.threads[t];
    Resume(s.(threads := s.threads[t := x.(mask := x.prio, stat := Suspended, yielding := false)]), t).0
  }

  /** `rt_system_scheduler_start`. */
  function Start(s: Sched): Sched
    requires 0 <= Highest(s) < |s.queues| && s.queues[Highest(s)] != [] && Known(s, s.queues[Highest(s)][0])
  {
    var t := s.queues[Highest(s)][0];
    var n := Remove(s.(current := Some(t)), t);
    n.(threads := n.threads[t := n.threads[t].(stat := Running, yielding := false)])
  }

  /** `_thread_exit` up to the final scheduling. */
  function Ended(s: Sched): Sched
    requires s.current.Some? && Known(s, s.current.value)
  {
    var t := s.current.value;
    var n := Remove(s, t);
    n.(threads := n.threads[t := n.threads[t].(stat := Closed, yielding := false)])
  }

  /** A fresh time slice and a request to be passed over among equals. */
  function Reload(s: Sched, t: Tid): Sched
    requires t in s.threads
  {
    s.(threads := s.threads[t := s.threads[t].(remaining := s.threads[t].initTick, yielding := true)])
  }

  /** `rt_tick_increase` up to the scheduling; the second component asks for it. */
  function Count(s: Sched): (Sched, bool)
    requires s.current.Some? && s.current.value in s.threads
  {
    var t := s.current.value;
    var left := Minus(s.threads[t].remaining, 1);
    if left == 0 then (Reload(s, t), true)
    else (s.(threads := s.threads[t := s.threads[t].(remaining := left)]), false)
  }

  /** A call to `rt_schedule` once the scheduler runs. */
  ghost function Reschedule(s: Sched): Sched
    requires Inv(s)
  {
    if s.current.None? then s
    else
      CanSchedule(s);
      Schedule(s)
  }

  lemma {:induction false} RescheduleKeeps(s: Sched)
    requires Inv(s)
    ensures Inv(Reschedule(s)) && (s.current.Some? ==> Reschedule(s).current.Some?)
  {
    if s.current.Some? { ScheduleKeeps(s); }
  }

  /** Changing a thread's tick counts or yield mark, or the lock counter, changes no list. */
  lemma {:induction false} CountsOnly(s: Sched, n: Sched)
    requires Inv(s) && n == s.(threads := n.threads, nest := n.nest) && -0x8000 <= n.nest < 0x8000
    requires n.threads.Keys == s.threads.Keys
    requires forall u :: u in s.threads ==> SameButCounts(s.threads[u], n.threads[u])
    ensures Inv(n)
  {
    forall q, u | 0 <= q < PRIORITIES ensures u in n.queues[q] <==> IsReadyAt(n, u, q) {
      assert u in s.queues[q] <==> IsReadyAt(s, u, q);
    }
    forall i, u | 0 <= i < |n.waits| && u in n.waits[i] ensures Waits(n, u, i) { assert Waits(s, u, i); }
  }

  ghost predicate SameButCounts(x: Thread, y: Thread) {
    x.stat == y.stat && x.prio == y.prio && x.mask == y.mask
  }

  lemma {:induction false} CreateKeeps(s: Sched, t: Tid, prio: nat, tick: Word)
    requires Inv(s) && t !in s.threads && prio < PRIORITIES
    ensures Inv(Create(s, t, prio, tick))
  {
    var n := Create(s, t, prio, tick);
    forall q, u | 0 <= q < PRIORITIES ensures u in n.queues[q] <==> IsReadyAt(n, u, q) {
      assert u in s.queues[q] <==> IsReadyAt(s, u, q);
    }
    forall i, u | 0 <= i < |n.waits| && u in n.waits[i] ensures Waits(n, u, i) { assert Waits(s, u, i); }
  }

  /** A suspended thread is on no ready queue, so leaving the lists is leaving its wait list. */
  lemma {:induction false} UnlinkSuspended(s: Sched, t: Tid)
    requires ListsOk(s) && t in s.threads && s.threads[t].stat == Suspended
    ensures ListsOk(Unlink(s, t)) && OnNoWait(Unlink(s, t), t)
  {
    var n := Unlink(s, t);
    forall q | 0 <= q < PRIORITIES ensures n.queues[q] == s.queues[q] {
      assert t in s.queues[q] <==> IsReadyAt(s, t, q);
    }
    forall q, u | 0 <= q < PRIORITIES ensures u in n.queues[q] <==> IsReadyAt(n, u, q) {
      assert u in s.queues[q] <==> IsReadyAt(s, u, q);
    }
    WaitsWithout(s, n, t);
  }

  lemma {:induction false} WakeKeeps(s: Sched, t: Tid)
    requires Inv(s) && t in s.threads && s.threads[t].stat == Suspended
    ensures Known(s, t) && Inv(Wake(s, t))
  {
    KnownThread(s, t);
    UnlinkSuspended(s, t);
    InsertLists(Unlink(s, t), t);
  }

  lemma {:induction false} SuspendKeeps(s: Sched)
    requires Inv(s) && s.current.Some?
    ensures Known(s, s.current.value) && Inv(Suspend(s).0)
    ensures Suspend(s).1 ==> OnNoWait(Suspend(s).0, s.current.value)
  {
    KnownThread(s, s.current.value);
    if Suspend(s).1 { RemoveLists(s, s.current.value, Suspended); }
  }

  lemma {:induction false} BlockKeeps(s: Sched, i: nat, flag: W.Flag)
    requires Inv(s) && s.current.Some? && s.threads[s.current.value].stat == Running && i < |s.waits|
    ensures Known(s, s.current.value) && Inv(Block(s, i, flag))
  {
    var t := s.current.value;
    SuspendKeeps(s);
    var n := Suspend(s).0;
    EnqueueWaits(n, t, i, flag);
    var m := Block(s, i, flag);
    forall q, u | 0 <= q < PRIORITIES ensures u in m.queues[q] <==> IsReadyAt(m, u, q) {
      assert u in n.queues[q] <==> IsReadyAt(n, u, q);
    }
  }

  lemma {:induction false} EnqueueWaits(n: Sched, t: Tid, i: nat, flag: W.Flag)
    requires WaitsOk(n) && i < |n.waits| && t in n.threads && n.threads[t].stat == Suspended && OnNoWait(n, t)
    ensures WaitsOk(n.(waits := n.waits[i := W.Enqueue(n.waits[i], t, flag, PriorityOf(n))]))
  {
    var m := n.(waits := n.waits[i := W.Enqueue(n.waits[i], t, flag, PriorityOf(n))]);
    W.EnqueueElements(n.waits[i], t, flag, PriorityOf(n));
    forall j, u | 0 <= j < |m.waits| && u in m.waits[j] ensures Waits(m, u, j) {
      if u != t { assert u in n.waits[j] && Waits(n, u, j); }
    }
  }

  lemma {:induction false} Overwrite(m: map<Tid, Thread>, t: Tid, a: Thread, b: Thread)
    ensures m[t := a][t := b] == m[t := b]
  {
  }

  lemma {:induction false} PriorityKeeps(s: Sched, t: Tid, prio: nat)
    requires Inv(s) && t in s.threads && prio < PRIORITIES
    ensures Known(s, t) && Inv(ChangePriority(s, t, prio))
  {
    KnownThread(s, t);
    if s.threads[t].stat == Ready { MovedUp(s, t, prio); } else { Reprioritised(s, t, prio); }
  }

  /** A ready thread changes queues as if it had been suspended in between. */
  lemma {:induction false} MovedUp(s: Sched, t: Tid, prio: nat)
    requires Inv(s) && t in s.threads && s.threads[t].stat == Ready && prio < PRIORITIES && Known(s, t)
    ensures Inv(ChangePriority(s, t, prio))
  {
    RemoveLists(s, t, Suspended);
    var n, m := Remove(s, t), WithStat(Remove(s, t), t, Suspended);
    Reprioritised(m, t, prio);
    var x := m.threads[t].(prio := prio, mask := prio);
    var r := m.(threads := m.threads[t := x]);
    InsertLists(r, t);
    var y := n.threads[t].(prio := prio, mask := prio);
    Overwrite(n.threads, t, m.threads[t], x);
    Overwrite(n.threads, t, x, x.(stat := Ready));
    Overwrite(n.threads, t, y, x.(stat := Ready));
  }

  /** A thread that is not ready may change its priority where it is. */
  lemma {:induction false} Reprioritised(s: Sched, t: Tid, prio: nat)
    requires ListsOk(s) && t in s.threads && s.threads[t].stat != Ready && prio < PRIORITIES
    ensures ListsOk(s.(threads := s.threads[t := s.threads[t].(prio := prio, mask := prio)]))
  {
    var n := s.(threads := s.threads[t := s.threads[t].(prio := prio, mask := prio)]);
    forall q, u | 0 <= q < PRIORITIES ensures u in n.queues[q] <==> IsReadyAt(n, u, q) {
      assert u in s.queues[q] <==> IsReadyAt(s, u, q);
    }
    forall i, u | 0 <= i < |n.waits| && u in n.waits[i] ensures Waits(n, u, i) { assert Waits(s, u, i); }
  }

  lemma {:induction false} StartedKeeps(s: Sched, t: Tid)
    requires Inv(s) && t in s.threads && s.threads[t].stat == Init
    ensures Known(s, t) && Inv(Started(s, t)) && Started(s, t).current == s.current
  {
    KnownThread(s, t);
    var x := s.threads[t];
    var n := s.(threads := s.threads[t := x.(mask := x.prio, stat := Suspended, yielding := false)]);
    forall q, u | 0 <= q < PRIORITIES ensures u in n.queues[q] <==> IsReadyAt(n, u, q) {
      assert u in s.queues[q] <==> IsReadyAt(s, u, q);
    }
    forall i, u | 0 <= i < |n.waits| && u in n.waits[i] ensures Waits(n, u, i) { assert Waits(s, u, i); }
    WakeKeeps(n, t);
  }

  lemma {:induction false} StartKeeps(s: Sched)
    requires Inv(s) && s.current.None? && s.group != 0
    ensures 0 <= Highest(s) < PRIORITIES && s.queues[Highest(s)] != [] && Known(s, s.queues[Highest(s)][0])
    ensures Inv(Start(s)) && Start(s).current.Some?
  {
    HighestQueue(s);
    var t := s.queues[Highest(s)][0];
    assert t in s.queues[Highest(s)] && IsReadyAt(s, t, Highest(s));
    KnownThread(s, t);
    var m := s.(current := Some(t));
    CurrentFrame(s, m);
    RemoveLists(m, t, Running);
    CountsOnly(WithStat(Remove(m, t), t, Running), Start(s));
  }

  lemma {:induction false} EndedKeeps(s: Sched)
    requires Inv(s) && s.current.Some? && s.threads[s.current.value].stat == Running
    ensures Known(s, s.current.value) && Inv(Ended(s)) && Ended(s).current == s.current
  {
    var t := s.current.value;
    KnownThread(s, t);
    RemoveLists(s, t, Closed);
    CountsOnly(WithStat(Remove(s, t), t, Closed), Ended(s));
  }

  /** One call or interrupt, with interrupts disabled throughout. */
  datatype Op =
    | DoCreate(t: Tid, prio: nat, tick: Word)
    | DoStartup(t: Tid)
    | DoStart
    | DoSchedule
    | DoSuspend
    | DoBlock(i: nat, flag: W.Flag)
    | DoResume(t: Tid)
    | DoTimeout(t: Tid)
    | DoYield
    | DoTick
    | DoPriority(t: Tid, prio: nat)
    | DoEnter
    | DoLeave
    | DoExit

  /** What the source asks of its callers: only the running thread blocks or exits, only a suspended thread times
      out, and the scheduler is started once, with some thread ready. */
  ghost predicate Enabled(s: Sched, op: Op) {
    match op
    case DoCreate(t, prio, _) => t !in s.threads && prio < PRIORITIES
    case DoStartup(t) => t in s.threads && s.threads[t].stat == Init
    case DoStart => s.current.None? && s.group != 0
    case DoSchedule => s.current.Some?
    case DoSuspend => s.current.Some?
    case DoBlock(i, _) => s.current.Some? && i < |s.waits| && Runs(s)
    case DoResume(t) => t in s.threads
    case DoTimeout(t) => t in s.threads && s.threads[t].stat == Suspended
    case DoYield => s.current.Some?
    case DoTick => s.current.Some?
    case DoPriority(t, prio) => t in s.threads && prio < PRIORITIES
    case DoEnter => true
    case DoLeave => true
    case DoExit => s.current.Some? && Runs(s)
  }

  ghost predicate Runs(s: Sched) {
    s.current.Some? && s.current.value in s.threads && s.threads[s.current.value].stat == Running
  }

  /** The effect of an operation before the call to `rt_schedule` it may end with. */
  ghost function Effect(s: Sched, op: Op): Sched
    requires Inv(s) && Enabled(s, op)
  {
    match op
    case DoCreate(t, prio, tick) => Create(s, t, prio, tick)
    case DoStartup(t) => Started(s, t)
    case DoStart => StartKeeps(s); Start(s)
    case DoSchedule => s
    case DoSuspend => Suspend(s).0
    case DoBlock(i, flag) => Block(s, i, flag)
    case DoResume(t) => Resume(s, t).0
    case DoTimeout(t) => Wake(s, t)
    case DoYield => Reload(s, s.current.value)
    case DoTick => Count(s).0
    case DoPriority(t, prio) => ChangePriority(s, t, prio)
    case DoEnter => Enter(s)
    case DoLeave => Leave(s)
    case DoExit => Ended(s)
  }

  /** Whether the operation goes on to `rt_schedule`. */
  ghost predicate Schedules(s: Sched, op: Op)
    requires Inv(s) && Enabled(s, op)
  {
    match op
    case DoTick => Count(s).1
    case DoLeave => Leave(s).nest == 0
    case DoCreate(_, _, _) => false
    case DoStart => false
    case DoSuspend => false
    case DoBlock(_, _) => false
    case DoResume(_) => false
    case DoPriority(_, _) => false
    case DoEnter => false
    case _ => true
  }

  ghost function Step(s: Sched, op: Op): Sched
    requires Inv(s) && Enabled(s, op)
  {
    EffectKeeps(s, op);
    if Schedules(s, op) then Reschedule(Effect(s, op)) else Effect(s, op)
  }

  lemma {:induction false} EffectKeeps(s: Sched, op: Op)
    requires Inv(s) && Enabled(s, op)
    ensures Inv(Effect(s, op))
  {
    match op {
      case DoCreate(t, prio, tick) => CreateKeeps(s, t, prio, tick);
      case DoStartup(t) => StartedKeeps(s, t);
      case DoStart => StartKeeps(s);
      case DoSuspend => SuspendKeeps(s);
      case DoBlock(i, flag) => BlockKeeps(s, i, flag);
      case DoResume(t) => ResumeKeeps(s, t);
      case DoTimeout(t) => WakeKeeps(s, t);
      case DoYield => CountsOnly(s, Reload(s, s.current.value));
      case DoTick => CountsOnly(s, Count(s).0);
      case DoPriority(t, prio) => PriorityKeeps(s, t, prio);
      case DoEnter => CountsOnly(s, Enter(s));
      case DoLeave => CountsOnly(s, Leave(s));
      case DoExit => EndedKeeps(s);
      case DoSchedule =>
    }
  }

  lemma {:induction false} ResumeKeeps(s: Sched, t: Tid)
    requires Inv(s) && t in s.threads
    ensures Known(s, t) && Inv(Resume(s, t).0)
  {
    KnownThread(s, t);
    if s.threads[t].stat == Suspended { WakeKeeps(s, t); }
  }

  lemma {:induction false} StepKeeps(s: Sched, op: Op)
    requires Inv(s) && Enabled(s, op)
    ensures Inv(Step(s, op))
  {
    EffectKeeps(s, op);
    RescheduleKeeps(Effect(s, op));
  }

  ghost predicate Possible(s: Sched, ops: seq<Op>)
    requires Inv(s)
    decreases |ops|
  {
    ops == [] || (Enabled(s, ops[0]) && (StepKeeps(s, ops[0]); Possible(Step(s, ops[0]), ops[1..])))
  }

  ghost function Run(s: Sched, ops: seq<Op>): Sched
    requires Inv(s) && Possible(s, ops)
    decreases |ops|
  {
    if ops == [] then s
    else
      StepKeeps(s, ops[0]);
      Run(Step(s, ops[0]), ops[1..])
  }

  /** Whatever happens from boot on, in any order, the lists, the group and the threads' states agree. */
  lemma {:induction false} RunKeeps(s: Sched, ops: seq<Op>)
    requires Inv(s) && Possible(s, ops)
    ensures Inv(Run(s, ops))
    decreases |ops|
  {
    if ops != [] {
      StepKeeps(s, ops[0]);
      RunKeeps(Step(s, ops[0]), ops[1..]);
    }
  }

  /** Where a thread may be. */
  datatype Place = Executing | Queued(p: nat) | Waiting(i: nat) | Asleep | Finished

  ghost predicate At(s: Sched, t: Tid, place: Place)
    requires t in s.threads
  {
    match place
    case Executing => s.current == Some(t) && s.threads[t].stat == Running
    case Queued(p) => p < |s.queues| && t in s.queues[p]
    case Waiting(i) => i < |s.waits| && t in s.waits[i]
    case Asleep => s.threads[t].stat == Suspended && OnNoWait(s, t)
    case Finished => s.threads[t].stat == Closed
  }

  ghost function PlaceOf(s: Sched, t: Tid): Place
    requires t in s.threads
  {
    match s.threads[t].stat
    case Ready => Queued(s.threads[t].prio)
    case Suspended =>
      if OnNoWait(s, t) then Asleep
      else
        var i :| 0 <= i < |s.waits| && t in s.waits[i];
        Waiting(i)
    case Closed => Finished
    case _ => Executing
  }

  /** Every started thread is in exactly one place: executing, on the ready queue of its current priority, on one
      wait list, asleep or finished. */
  lemma {:induction false} OnePlace(s: Sched, t: Tid, place: Place)
    requires Inv(s) && t in s.threads && s.threads[t].stat != Init
    ensures At(s, t, place) <==> place == PlaceOf(s, t)
  {
    KnownThread(s, t);
    var p := s.threads[t].prio;
    assert t in s.queues[p] <==> IsReadyAt(s, t, p);
    match place {
      case Queued(q) => if q < PRIORITIES { assert t in s.queues[q] <==> IsReadyAt(s, t, q); }
      case Waiting(i) => if i < |s.waits| && t in s.waits[i] { assert Waits(s, t, i); }
      case _ =>
    }
  }

  /** Nothing about the whereabouts of `u` differs. */
  ghost predicate Undisturbed(s: Sched, n: Sched, u: Tid) {
    && u in s.threads && u in n.threads && n.threads[u] == s.threads[u]
    && |n.queues| == |s.queues| && |n.waits| == |s.waits| && (s.current == Some(u) <==> n.current == Some(u))
    && (forall q :: 0 <= q < |s.queues| ==> (u in n.queues[q] <==> u in s.queues[q]))
    && (forall i :: 0 <= i < |s.waits| ==> (u in n.waits[i] <==> u in s.waits[i]))
  }

  lemma {:induction false} StaysPut(s: Sched, n: Sched, u: Tid, place: Place)
    requires Undisturbed(s, n, u)
    ensures At(n, u, place) <==> At(s, u, place)
  {
  }

  lemma {:induction false} RemoveLeaves(s: Sched, t: Tid, u: Tid)
    requires Known(s, t) && u in s.threads && u != t
    ensures Undisturbed(s, Remove(s, t), u) && Undisturbed(s, Unlink(s, t), u)
  {
  }

  lemma {:induction false} InsertLeaves(s: Sched, t: Tid, u: Tid)
    requires Known(s, t) && u in s.threads && u != t
    ensures Undisturbed(s, Insert(s, t), u)
  {
    var p := s.threads[t].prio;
    assert u in s.queues[p] + [t] <==> u in s.queues[p];
  }

  /** The one thread an operation is about. */
  ghost function Subject(s: Sched, op: Op): Option<Tid>
    requires Inv(s) && Enabled(s, op)
  {
    match op
    case DoCreate(t, _, _) => Some(t)
    case DoStartup(t) => Some(t)
    case DoStart => StartKeeps(s); Some(s.queues[Highest(s)][0])
    case DoSchedule => None
    case DoResume(t) => Some(t)
    case DoTimeout(t) => Some(t)
    case DoPriority(t, _) => Some(t)
    case DoEnter => None
    case DoLeave => None
    case _ => s.current
  }

  /** Before it schedules, an operation moves no thread but the one it is about. */
  lemma {:induction false} EffectMoves(s: Sched, op: Op, u: Tid)
    requires Inv(s) && Enabled(s, op) && u in s.threads && Subject(s, op) != Some(u)
    ensures Undisturbed(s, Effect(s, op), u)
  {
    match op {
      case DoStartup(t) =>
        var x := s.threads[t];
        WakeLeaves(s.(threads := s.threads[t := x.(mask := x.prio, stat := Suspended, yielding := false)]), t, u);
      case DoStart =>
        StartKeeps(s);
        RemoveLeaves(s.(current := Some(s.queues[Highest(s)][0])), s.queues[Highest(s)][0], u);
      case DoSuspend => SuspendLeaves(s, u);
      case DoBlock(i, flag) => BlockLeaves(s, i, flag, u);
      case DoResume(t) => if s.threads[t].stat == Suspended { WakeLeaves(s, t, u); }
      case DoTimeout(t) => WakeLeaves(s, t, u);
      case DoPriority(t, prio) =>
        RemoveLeaves(s, t, u);
        var n := Remove(s, t);
        InsertLeaves(n.(threads := n.threads[t := n.threads[t].(prio := prio, mask := prio)]), t, u);
      case DoExit => RemoveLeaves(s, s.current.value, u);
      case _ =>
    }
  }

  /** Where an operation takes the thread it is about. */
  ghost predicate Arrives(s: Sched, op: Op, e: Sched) {
    match op
    case DoStartup(t) => t in e.threads && t in s.threads && At(e, t, Queued(s.threads[t].prio))
    case DoStart => e.current.Some? && e.current.value in e.threads && At(e, e.current.value, Executing)
    case DoSuspend => s.current.Some? && s.current.value in e.threads && (Runs(s) ==> At(e, s.current.value, Asleep))
    case DoBlock(i, _) => s.current.Some? && s.current.value in e.threads && At(e, s.current.value, Waiting(i))
    case DoResume(t) => t in s.threads && if s.threads[t].stat == Suspended then Awake(s, t, e) else e == s
    case DoTimeout(t) => t in s.threads && Awake(s, t, e)
    case DoPriority(t, prio) =>
      && t in s.threads && t in e.threads && e.threads[t].prio == prio && e.threads[t].stat == s.threads[t].stat
      && (s.threads[t].stat == Ready ==> At(e, t, Queued(prio)))
    case DoExit => s.current.Some? && s.current.value in e.threads && At(e, s.current.value, Finished)
    case _ => true
  }

  ghost predicate Awake(s: Sched, t: Tid, e: Sched)
    requires t in s.threads
  {
    t in e.threads && At(e, t, if s.current == Some(t) then Executing else Queued(s.threads[t].prio)) && OnNoWait(e, t)
  }

  lemma {:induction false} EffectArrives(s: Sched, op: Op)
    requires Inv(s) && Enabled(s, op)
    ensures Arrives(s, op, Effect(s, op))
  {
    EffectKeeps(s, op);
    match op {
      case DoStartup(t) => StartedKeeps(s, t); InQueue(Effect(s, op), t);
      case DoStart => StartKeeps(s);
      case DoSuspend => SuspendKeeps(s);
      case DoBlock(i, flag) =>
        SuspendKeeps(s);
        var n := Suspend(s).0;
        W.EnqueueElements(n.waits[i], s.current.value, flag, PriorityOf(n));
      case DoResume(t) => if s.threads[t].stat == Suspended { WokenUp(s, t); }
      case DoTimeout(t) => WokenUp(s, t);
      case DoPriority(t, prio) => if s.threads[t].stat == Ready { InQueue(Effect(s, op), t); }
      case _ =>
    }
  }

  lemma {:induction false} InQueue(s: Sched, t: Tid)
    requires Inv(s) && t in s.threads && s.threads[t].stat == Ready
    ensures At(s, t, Queued(s.threads[t].prio))
  {
    KnownThread(s, t);
    assert t in s.queues[s.threads[t].prio] <==> IsReadyAt(s, t, s.threads[t].prio);
  }

  lemma {:induction false} WokenUp(s: Sched, t: Tid)
    requires Inv(s) && t in s.threads && s.threads[t].stat == Suspended
    ensures Known(s, t) && Awake(s, t, Wake(s, t))
  {
    WakeKeeps(s, t);
    RunningFree(Wake(s, t), t);
    if s.current != Some(t) { InQueue(Wake(s, t), t); }
  }

  lemma {:induction false} WakeLeaves(s: Sched, t: Tid, u: Tid)
    requires Known(s, t) && u in s.threads && u != t
    ensures Undisturbed(s, Wake(s, t), u)
  {
    RemoveLeaves(s, t, u);
    InsertLeaves(Unlink(s, t), t, u);
  }

  lemma {:induction false} SuspendLeaves(s: Sched, u: Tid)
    requires s.current.Some? && Known(s, s.current.value) && u in s.threads && s.current != Some(u)
    ensures Undisturbed(s, Suspend(s).0, u)
  {
    RemoveLeaves(s, s.current.value, u);
  }

  lemma {:induction false} BlockLeaves(s: Sched, i: nat, flag: W.Flag, u: Tid)
    requires s.current.Some? && Known(s, s.current.value) && i < |s.waits| && u in s.threads && s.current != Some(u)
    ensures Undisturbed(s, Block(s, i, flag), u)
  {
    SuspendLeaves(s, u);
    var n := Suspend(s).0;
    W.EnqueueElements(n.waits[i], s.current.value, flag, PriorityOf(n));
  }

  /** The processor went from `from` to a thread that was queued. */
  ghost predicate HandsOver(s: Sched, n: Sched, from: Tid) {
    && n.current.Some? && n.current.value in s.threads && n.current.value in n.threads
    && from in s.threads && from in n.threads
    && At(s, n.current.value, Queued(s.threads[n.current.value].prio)) && At(n, n.current.value, Executing)
    && if s.threads[from].stat == Running then At(n, from, Queued(s.threads[from].prio))
       else n.threads[from].stat == s.threads[from].stat
  }

  /** Scheduling moves at most two threads: the one that runs next, from the head of its queue, and the one that ran,
      which goes to the end of its own if it could have gone on. */
  lemma {:induction false} ScheduleMoves(s: Sched, u: Tid)
    requires Inv(s) && s.current.Some? && u in s.threads && u != s.current.value
    ensures Reschedule(s).current != Some(u) ==> Undisturbed(s, Reschedule(s), u)
    ensures Reschedule(s).current == s.current || HandsOver(s, Reschedule(s), s.current.value)
  {
    CanSchedule(s);
    RescheduleKeeps(s);
    var n, from := Schedule(s), s.current.value;
    if s.nest == 0 && s.group != 0 {
      HighestQueue(s);
      var to, run := Pick(s), s.threads[from].stat == Running;
      assert to in s.queues[Highest(s)] || to == from;
      var m := if run then NoYield(s, from) else s;
      if to != from {
        assert IsReadyAt(s, to, Highest(s));
        var c := m.(currentPrio := Highest(s), current := Some(to));
        var i := if run then Insert(c, from) else c;
        if u != to {
          if run { InsertLeaves(c, from, u); }
          RemoveLeaves(i, to, u);
        }
        RemoveLeaves(i, to, from);
        if run { assert from in i.queues[s.threads[from].prio]; }
      } else {
        RemoveLeaves(m, from, u);
      }
    }
  }

  /** What each operation makes of the thread it is about; of every other thread it changes nothing. */
  ghost function Turned(s: Sched, op: Op, x: Thread): Thread {
    match op
    case DoCreate(_, prio, tick) => Thread(Init, false, prio, 0, tick, tick)
    case DoStartup(_) => x.(stat := Ready, mask := x.prio, yielding := false)
    case DoStart => x.(stat := Running, yielding := false)
    case DoSuspend => if x.stat in {Ready, Running} then x.(stat := Suspended) else x
    case DoBlock(_, _) => x.(stat := Suspended)
    case DoResume(t) => if x.stat == Suspended then x.(stat := if s.current == Some(t) then Running else Ready) else x
    case DoTimeout(t) => x.(stat := if s.current == Some(t) then Running else Ready)
    case DoYield => x.(remaining := x.initTick, yielding := true)
    case DoTick =>
      if x.remaining == 1 then x.(remaining := x.initTick, yielding := true)
      else x.(remaining := Minus(x.remaining, 1))
    case DoPriority(_, prio) => x.(prio := prio, mask := prio)
    case DoExit => x.(stat := Closed, yielding := false)
    case _ => x
  }

  lemma {:induction false} EffectThreads(s: Sched, op: Op)
    requires Inv(s) && Enabled(s, op)
    ensures var t, e := Subject(s, op), Effect(s, op);
      && (t.None? ==> e.threads == s.threads)
      && (t.Some? && op.DoCreate? ==> e.threads == s.threads[t.value := Turned(s, op, e.threads[t.value])])
      && (t.Some? && !op.DoCreate? ==>
            t.value in s.threads && e.threads == s.threads[t.value := Turned(s, op, s.threads[t.value])])
      && (e.current == if op.DoStart? then t else s.current)
  {
    hide SetMask, ClearMask, Without, QueuesOk, WaitsOk;
    match op {
      case DoStart => ReadyMeans(s);
      case DoStartup(t) => StartedKeeps(s, t);
      case DoResume(t) => ResumeKeeps(s, t); SameThread(s, t);
      case DoTimeout(t) => WakeKeeps(s, t);
      case DoSuspend => SameThread(s, s.current.value);
      case _ =>
    }
  }

  /** What the results say: a resumption is refused unless the thread was suspended, a suspension unless the current
      thread could run, and a tick asks for the scheduler exactly when the slice is used up. */
  lemma {:induction false} ResultsMean(s: Sched, t: Tid)
    requires Inv(s) && t in s.threads
    ensures Known(s, t) && (Resume(s, t).1 <==> s.threads[t].stat == Suspended)
    ensures s.current == Some(t) ==>
      && (Suspend(s).1 <==> s.threads[t].stat == Running)
      && (Count(s).1 <==> s.threads[t].remaining == 1)
  {
    KnownThread(s, t);
  }

  lemma {:induction false} SameThread(s: Sched, t: Tid)
    requires t in s.threads
    ensures s.threads[t := s.threads[t]] == s.threads
  {
  }

  /** The operations that put their thread at the end of a ready queue. */
  ghost predicate Enqueues(s: Sched, op: Op) {
    match op
    case DoStartup(_) => true
    case DoResume(t) => t in s.threads && s.threads[t].stat == Suspended && s.current != Some(t)
    case DoTimeout(t) => s.current != Some(t)
    case DoPriority(t, _) => t in s.threads && s.threads[t].stat == Ready
    case _ => false
  }

  /** Those that take it out of every ready queue. */
  ghost predicate Dequeues(s: Sched, op: Op) {
    op.DoStart? || op.DoSuspend? || op.DoBlock? || op.DoExit? || Enqueues(s, op)
  }

  /** The order of the queues: only the thread the operation is about leaves its place, and it arrives at the end of the
      queue of its priority. */
  lemma {:induction false} EffectQueues(s: Sched, op: Op)
    requires Inv(s) && Enabled(s, op)
    ensures var t, e := Subject(s, op), Effect(s, op);
      && |e.queues| == |s.queues|
      && (!Dequeues(s, op) ==> e.queues == s.queues)
      && (Dequeues(s, op) ==>
            && t.Some? && t.value in e.threads
            && forall q :: 0 <= q < |s.queues| ==>
              e.queues[q] == Without(s.queues[q], t.value)
                             + if Enqueues(s, op) && e.threads[t.value].prio == q then [t.value] else [])
  {
    hide SetMask, ClearMask, Without, WaitsOk;
    match op {
      case DoStart => ReadyMeans(s);
      case DoStartup(t) => StartedKeeps(s, t);
      case DoResume(t) => ResumeKeeps(s, t); QuietUnlink(s, t);
      case DoTimeout(t) => WakeKeeps(s, t); QuietUnlink(s, t);
      case DoSuspend => QuietUnlink(s, s.current.value);
      case DoBlock(i, flag) => QuietUnlink(s, s.current.value);
      case DoExit => QuietUnlink(s, s.current.value);
      case _ =>
    }
  }

  /** Unlinking a thread that is on no ready queue changes none. */
  lemma {:induction false} QuietUnlink(s: Sched, t: Tid)
    requires Inv(s) && t in s.threads
    ensures s.threads[t].stat != Ready ==> Each(s.queues, t) == s.queues
  {
    if s.threads[t].stat != Ready { OnNoQueue(s, t); }
  }

  /** The wait lists: a thread that wakes leaves its own, one that blocks takes its place by priority or at the end, and
      nothing else changes. */
  lemma {:induction false} EffectWaits(s: Sched, op: Op)
    requires Inv(s) && Enabled(s, op)
    ensures var e := Effect(s, op);
      && |e.waits| == |s.waits|
      && forall j :: 0 <= j < |s.waits| ==>
        e.waits[j] ==
          if op.DoBlock? && op.i == j then W.Enqueue(s.waits[j], s.current.value, op.flag, PriorityOf(s))
          else if op.DoResume? || op.DoTimeout? then Without(s.waits[j], op.t)
          else s.waits[j]
  {
    hide SetMask, ClearMask, Without, QueuesOk, W.Enqueue;
    match op {
      case DoStart => ReadyMeans(s); RunningFree(s, s.queues[Highest(s)][0]);
      case DoStartup(t) => StartedKeeps(s, t); RunningFree(s, t);
      case DoResume(t) => ResumeKeeps(s, t); if s.threads[t].stat != Suspended { RunningFree(s, t); }
      case DoPriority(t, prio) => if s.threads[t].stat == Ready { RunningFree(s, t); }
      case DoSuspend =>
        SuspendKeeps(s);
        if Suspend(s).1 { RunningFree(s, s.current.value); }
      case DoBlock(i, flag) =>
        SuspendKeeps(s);
        RunningFree(s, s.current.value);
        SamePriorities(s, Suspend(s).0);
      case DoExit => RunningFree(s, s.current.value);
      case _ =>
    }
  }

  lemma {:induction false} SamePriorities(s: Sched, n: Sched)
    requires n.threads.Keys == s.threads.Keys && forall t :: t in s.threads ==> n.threads[t].prio == s.threads[t].prio
    ensures forall list, t, flag :: W.Enqueue(list, t, flag, PriorityOf(n)) == W.Enqueue(list, t, flag, PriorityOf(s))
  {
    forall list, t, flag
      ensures W.Enqueue(list, t, flag, PriorityOf(n)) == W.Enqueue(list, t, flag, PriorityOf(s))
    {
      SamePosition(list, PriorityOf(s)(t), PriorityOf(s), PriorityOf(n), 0);
    }
  }

  lemma {:induction false} SamePosition(list: seq<Tid>, p: nat, a: W.Priorities, b: W.Priorities, from: nat)
    requires from <= |list| && forall t :: a(t) == b(t)
    ensures W.Position(list, p, a, from) == W.Position(list, p, b, from)
    decreases |list| - from
  {
    if from < |list| { SamePosition(list, p, a, b, from + 1); }
  }

  /** `u` is a ready thread that no ready one outranks, and the one of its priority that has been queued longest. */
  ghost predicate Foremost(s: Sched, u: Tid) {
    && u in s.threads && s.threads[u].stat == Ready && s.threads[u].prio < |s.queues|
    && (forall t :: t in s.threads && s.threads[t].stat == Ready ==> s.threads[u].prio <= s.threads[t].prio)
    && s.queues[s.threads[u].prio] != [] && s.queues[s.threads[u].prio][0] == u
  }

  ghost predicate SomeReady(s: Sched) {
    exists t :: t in s.threads && s.threads[t].stat == Ready
  }

  /** The current thread may go on: it is running, nobody outranks it, and it has no ready equal or was not asked to
      make way for one. */
  ghost predicate GoesOn(s: Sched) {
    && Runs(s)
    && var x := s.threads[s.current.value];
       forall t :: t in s.threads && s.threads[t].stat == Ready ==>
         x.prio < s.threads[t].prio || (x.prio == s.threads[t].prio && !x.yielding)
  }

  /** The queues once `u` has left its own and, if given, `c` has joined the end of its own. */
  ghost predicate Requeued(s: Sched, n: Sched, u: Tid, c: Option<Tid>) {
    && |n.queues| == |s.queues|
    && forall q :: 0 <= q < |s.queues| ==>
      n.queues[q] == Without(s.queues[q], u) + Joins(s, c, q)
  }

  ghost function Joins(s: Sched, c: Option<Tid>, q: nat): seq<Tid> {
    if c.Some? && c.value in s.threads && s.threads[c.value].prio == q then [c.value] else []
  }

  lemma {:induction false} ReadyMeans(s: Sched)
    requires Inv(s)
    ensures s.group != 0 <==> SomeReady(s)
    ensures s.group != 0 ==> 0 <= Highest(s) < PRIORITIES && s.queues[Highest(s)] != []
    ensures s.group != 0 ==> Foremost(s, s.queues[Highest(s)][0]) && IsReadyAt(s, s.queues[Highest(s)][0], Highest(s))
  {
    HighestQueue(s);
    if s.group != 0 {
      var h := s.queues[Highest(s)][0];
      assert h in s.queues[Highest(s)] && IsReadyAt(s, h, Highest(s));
      forall t | t in s.threads && s.threads[t].stat == Ready ensures Highest(s) <= s.threads[t].prio {
        ReadyBelow(s, t);
      }
    }
    if SomeReady(s) {
      var t :| t in s.threads && s.threads[t].stat == Ready;
      ReadyBelow(s, t);
    }
  }

  /** `rt_schedule` leaves things as they are if the scheduler is locked or nobody is ready, and keeps the current
      thread if that may go on. */
  lemma {:induction false} ScheduleStays(s: Sched)
    requires Inv(s) && s.current.Some? && (s.nest != 0 || !SomeReady(s) || GoesOn(s))
    ensures var n, c := Reschedule(s), s.current.value;
      && n.current == s.current && n.queues == s.queues && n.waits == s.waits && n.nest == s.nest
      && c in s.threads && (s.nest != 0 || !SomeReady(s) ==> n == s)
      && (s.nest == 0 && SomeReady(s) ==> n.threads == s.threads[c := s.threads[c].(yielding := false)])
  {
    ReadyMeans(s);
    CanSchedule(s);
    var c := s.current.value;
    if s.nest == 0 && s.group != 0 {
      OnNoQueue(s, c);
      RunningFree(s, c);
      UnlinkNothing(NoYield(s, c), c);
    }
  }

  /** A thread that is not ready is on no queue. */
  lemma {:induction false} OnNoQueue(s: Sched, c: Tid)
    requires Inv(s) && c in s.threads && s.threads[c].stat != Ready
    ensures forall q :: 0 <= q < |s.queues| ==> c !in s.queues[q]
  {
    forall q | 0 <= q < |s.queues| ensures c !in s.queues[q] { assert c in s.queues[q] <==> IsReadyAt(s, c, q); }
  }

  lemma {:induction false} UnlinkNothing(s: Sched, c: Tid)
    requires OnNoWait(s, c) && forall q :: 0 <= q < |s.queues| ==> c !in s.queues[q]
    ensures Unlink(s, c) == s
  {
    assert Each(s.queues, c) == s.queues && Each(s.waits, c) == s.waits;
  }

  /** The thread `rt_schedule` leaves as it stops running: ready if it was running, else as it is. */
  ghost function Stopped(x: Thread): Thread {
    if x.stat == Running then x.(stat := Ready, yielding := false) else x
  }

  /** Otherwise it switches to the foremost ready thread; the current one, if it was running, becomes ready at the end
      of its queue. Nothing else moves, and nothing else about the two threads changes. */
  lemma {:induction false} ScheduleSwitches(s: Sched)
    requires Inv(s) && s.current.Some? && s.nest == 0 && SomeReady(s) && !GoesOn(s)
    ensures var n, c := Reschedule(s), s.current.value;
      && n.current.Some? && var u := n.current.value;
      && Foremost(s, u) && u != c && c in s.threads && n.waits == s.waits && n.nest == 0
      && n.threads == s.threads[c := Stopped(s.threads[c])][u := s.threads[u].(stat := Running)]
      && n.currentPrio == s.threads[u].prio
      && Requeued(s, n, u, if Runs(s) then s.current else None)
  {
    ReadyMeans(s);
    var c, u := s.current.value, s.queues[Highest(s)][0];
    SwitchThreads(s, c, u);
    hide Inv, Foremost, Highest, Reschedule, Requeued, SomeReady, GoesOn;
    SwitchQueues(s, c, u);
  }

  lemma {:induction false} PickIsHead(s: Sched)
    requires Inv(s) && s.current.Some? && SomeReady(s) && !GoesOn(s)
    ensures Schedulable(s) && s.group != 0 && s.queues[Highest(s)] != [] && Pick(s) == s.queues[Highest(s)][0]
    ensures var c, u := s.current.value, s.queues[Highest(s)][0];
      c in s.threads && s.threads[c].stat !in {Init, Ready} && u in s.threads && s.threads[u].stat == Ready && u != c
  {
    ReadyMeans(s);
    CanSchedule(s);
  }

  lemma {:induction false} SwitchThreads(s: Sched, c: Tid, u: Tid)
    requires Inv(s) && s.current == Some(c) && s.nest == 0 && SomeReady(s) && !GoesOn(s)
    requires s.group != 0 && 0 <= Highest(s) < |s.queues| && s.queues[Highest(s)] != [] && u == s.queues[Highest(s)][0]
    ensures var n := Reschedule(s);
      && u != c && c in s.threads && u in s.threads && n.current == Some(u) && n.nest == 0
      && n.currentPrio == Highest(s)
      && n.threads == s.threads[c := Stopped(s.threads[c])][u := s.threads[u].(stat := Running)]
  {
    PickIsHead(s);
    hide Inv, Highest, Unlink, SetMask, ClearMask, GoesOn, SomeReady;
    assert s.threads[c := s.threads[c]] == s.threads;
  }

  lemma {:induction false} SwitchQueues(s: Sched, c: Tid, u: Tid)
    requires Inv(s) && s.current == Some(c) && s.nest == 0 && SomeReady(s) && !GoesOn(s)
    requires s.group != 0 && 0 <= Highest(s) < |s.queues| && s.queues[Highest(s)] != [] && u == s.queues[Highest(s)][0]
    ensures Reschedule(s).waits == s.waits && Requeued(s, Reschedule(s), u, if Runs(s) then Some(c) else None)
  {
    PickIsHead(s);
    RunningFree(s, u);
    hide Inv, Highest, SetMask, ClearMask, GoesOn, SomeReady, Without;
    assert Each(s.waits, u) == s.waits;
    forall q | 0 <= q < |s.queues|
      ensures Reschedule(s).queues[q] == Without(s.queues[q], u) + Joins(s, if Runs(s) then Some(c) else None, q)
    {
      WithoutAppend(s.queues[q], c, u);
    }
  }

  lemma {:induction false} WithoutAppend(list: seq<Tid>, c: Tid, u: Tid)
    requires u != c
    ensures Without(list + [c], u) == Without(list, u) + [c]
  {
    if list == [] {
      assert Without([c], u) == [c];
    } else {
      assert (list + [c])[1..] == list[1..] + [c];
      if list[0] != u { WithoutAppend(list[1..], c, u); }
    }
  }

  /** A yield hands the processor to an equally urgent ready thread if there is one, the longest queued, and puts the
      caller, with a fresh slice, at the end of their queue; if there is none, the caller runs on. */
  lemma {:induction false} YieldSwitches(s: Sched)
    requires Inv(s) && Settled(s) && s.nest == 0
    ensures var c := s.current.value; var p := s.threads[c].prio; var n := Step(s, DoYield);
      && p < |s.queues| && c in n.threads && n.threads[c].remaining == s.threads[c].initTick
      && (s.queues[p] == [] ==> n.current == Some(c) && n.queues == s.queues)
      && (s.queues[p] != [] ==>
            n.current == Some(s.queues[p][0]) && |n.queues| == |s.queues| && n.queues[p] == s.queues[p][1..] + [c])
  {
    var c := s.current.value;
    KnownThread(s, c);
    var p, e := s.threads[c].prio, Effect(s, DoYield);
    EffectKeeps(s, DoYield);
    EqualsReady(s, p);
    EqualsReady(e, p);
    if s.queues[p] == [] {
      forall t | t in e.threads && e.threads[t].stat == Ready ensures p < e.threads[t].prio {
        assert !IsReadyAt(e, t, p) && s.threads[t].stat == Ready;
      }
      ScheduleStays(e);
    } else {
      var h := s.queues[p][0];
      assert h in s.queues[p] && IsReadyAt(e, h, p);
      ScheduleSwitches(e);
      var u := Reschedule(e).current.value;
      assert e.threads[u].prio == p;
      assert Without(s.queues[p], u) == s.queues[p][1..];
    }
  }

  lemma {:induction false} EqualsReady(s: Sched, p: nat)
    requires Inv(s) && p < PRIORITIES
    ensures |s.queues| == PRIORITIES && forall t :: t in s.queues[p] <==> IsReadyAt(s, t, p)
  {
  }

  /** Which operations schedule. From a state in which nobody ready outranks the running thread, everything but a
      suspension, a resumption and a priority change, after which the caller has to call `rt_schedule`, leads to such a
      state again; unlocking and exiting lead to one from any state. Those others switch to nobody. */
  lemma {:induction false} StaysSettled(s: Sched, op: Op, idle: Tid)
    requires Inv(s) && Enabled(s, op)
    requires var e := Effect(s, op);
      e.current.Some? && e.nest == 0 && idle in e.threads && e.threads[idle].stat in {Ready, Running}
    ensures op.DoLeave? || op.DoExit? || op.DoSchedule? || op.DoStart? ==> Settled(Step(s, op))
    ensures Settled(s) && (op.DoCreate? || op.DoStartup? || op.DoTimeout? || op.DoYield? || op.DoTick?) ==>
      Settled(Step(s, op))
    ensures op.DoSuspend? || op.DoBlock? || op.DoResume? || op.DoPriority? || op.DoCreate? ==>
      Step(s, op).current == s.current
  {
    EffectThreads(s, op);
    if Schedules(s, op) {
      StepSettles(s, op, idle);
    } else if op.DoStart? {
      StartSettles(s);
    } else if Settled(s) && op.DoTick? {
      SettledFrame(s, Effect(s, op));
    } else if Settled(s) && op.DoCreate? {
      SettledFrame(s, Effect(s, op));
    }
  }

  lemma {:induction false} SettledFrame(s: Sched, e: Sched)
    requires Settled(s) && e.current == s.current && s.current.value in e.threads
    requires e.threads[s.current.value].stat == Running
    requires e.threads[s.current.value].prio == s.threads[s.current.value].prio
    requires forall t :: t in e.threads && e.threads[t].stat == Ready ==>
      t in s.threads && s.threads[t].stat == Ready && s.threads[t].prio == e.threads[t].prio
    ensures Settled(e)
  {
  }

  lemma {:induction false} StartSettles(s: Sched)
    requires Inv(s) && s.current.None? && s.group != 0
    ensures Settled(Effect(s, DoStart))
  {
    ReadyMeans(s);
    EffectThreads(s, DoStart);
  }

  /** After any operation that ends in `rt_schedule` with the scheduler unlocked, the running thread is one of the most
      urgent of all that could run, provided some thread, like the idle thread, is always ready or running. */
  lemma {:induction false} StepSettles(s: Sched, op: Op, idle: Tid)
    requires Inv(s) && Enabled(s, op) && Schedules(s, op)
    requires var e := Effect(s, op);
      e.current.Some? && e.nest == 0 && idle in e.threads && e.threads[idle].stat in {Ready, Running}
    ensures Settled(Step(s, op))
  {
    EffectKeeps(s, op);
    BusyWith(Effect(s, op), idle);
    ScheduleSettles(Effect(s, op));
  }

  /** `n` entries of a critical section. */
  function Entered(s: Sched, n: nat): Sched {
    if n == 0 then s else Enter(Entered(s, n - 1))
  }

  function Left(s: Sched, n: nat): Sched {
    if n == 0 then s else Leave(Left(s, n - 1))
  }

  /** A count kept in a signed 16-bit counter. */
  function Signed(n: nat): int {
    if n % 0x1_0000 < 0x8000 then n % 0x1_0000 else n % 0x1_0000 - 0x1_0000
  }

  lemma {:induction false} EnteredNest(s: Sched, n: nat)
    requires s.nest == 0
    ensures Entered(s, n) == s.(nest := Signed(n))
  {
    if n > 0 {
      EnteredNest(s, n - 1);
      assert n % 0x1_0000 == if (n - 1) % 0x1_0000 == 0xffff then 0 else (n - 1) % 0x1_0000 + 1;
    }
  }

  lemma {:induction false} LeftNest(s: Sched, n: nat)
    requires 0 <= n <= s.nest < 0x8000
    ensures Left(s, n) == s.(nest := s.nest - n)
  {
    if n > 0 { LeftNest(s, n - 1); }
  }

  /** Sections nest properly, the lock opening at the last exit and no earlier, exactly up to depth 32768; the source's
      comment puts the limit at 65535, but the counter is signed. */
  lemma {:induction false} SectionsNest(s: Sched, n: nat)
    requires s.nest == 0 && 0 < n
    ensures (forall m :: 0 <= m <= n ==> (Left(Entered(s, n), m).nest == 0 <==> m == n)) <==> n <= 0x8000
  {
    EnteredNest(s, n);
    var e := Entered(s, n);
    if n < 0x8000 {
      forall m | 0 <= m <= n ensures Left(e, m).nest == 0 <==> m == n { LeftNest(e, m); }
    } else if n == 0x8000 {
      forall m | 0 <= m <= n ensures Left(e, m).nest == 0 <==> m == n { DeepestNest(e, m); }
    } else {
      OpensEarly(e, n);
    }
  }

  /** Deeper, the lock opens after fewer exits than there were entries. */
  lemma {:induction false} OpensEarly(e: Sched, n: nat)
    requires n > 0x8000 && e.nest == Signed(n)
    ensures exists m :: 0 <= m < n && Left(e, m).nest == 0
  {
    if e.nest >= 0 {
      LeftNest(e, e.nest);
      assert Left(e, e.nest).nest == 0;
    } else if e.nest == -0x8000 {
      DeepestNest(e, 0x8000);
    } else {
      OneOpens(e);
    }
  }

  /** At depth 32768 the counter wraps going up and back again going down. */
  lemma {:induction false} DeepestNest(e: Sched, m: nat)
    requires e.nest == -0x8000 && m <= 0x8000
    ensures Left(e, m).nest == 0 <==> m == 0x8000
  {
    if m > 0 {
      LeftAgain(e, m);
      LeftNest(Leave(e), m - 1);
    }
  }

  /** On a negative counter the first exit opens the lock. */
  lemma {:induction false} OneOpens(e: Sched)
    requires -0x8000 < e.nest <= 0
    ensures Left(e, 1).nest == 0
  {
    assert Left(e, 0) == e;
    assert Left(e, 1) == Leave(Left(e, 0));
  }

  lemma {:induction false} LeftAgain(s: Sched, m: nat)
    requires m > 0
    ensures Left(s, m) == Left(Leave(s), m - 1)
  {
    if m > 1 { LeftAgain(s, m - 1); }
  }
}
