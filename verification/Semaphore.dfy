/** Counting semaphore (`rt_sem_*` in `rt-thread/src/ipc.c`). A release hands its unit straight to the
    first waiter, which returns from its take without testing the value again. */
module Semaphore {
  import opened KernelTypes
  import opened Lists
  import opened WaitList
  import opened ServiceOrder

  /** `RT_SEM_VALUE_MAX`. */
  const VALUE_MAX: nat := 65535

  /** `granted` are the threads that were handed a unit and have not run yet. */
  datatype Sem = Sem(value: nat, waiting: seq<Tid>, granted: set<Tid>)

  datatype TakeResult = Taken | TimedOut | Suspended

  function Take(s: Sem, t: Tid, timeout: int, flag: Flag, prio: Priorities): (Sem, TakeResult) {
    if s.value > 0 then (s.(value := s.value - 1), Taken)
    else if timeout == 0 then (s, TimedOut)
    else (s.(waiting := Enqueue(s.waiting, t, flag, prio)), Suspended)
  }

  /** The flag is false for the overflow return. */
  function Release(s: Sem): (Sem, bool) {
    if s.waiting != [] then (s.(waiting := s.waiting[1..], granted := s.granted + {s.waiting[0]}), true)
    else if s.value < VALUE_MAX then (s.(value := s.value + 1), true)
    else (s, false)
  }

  datatype Event =
    | DoTake(t: Tid, timeout: int, prio: Priorities)
    | DoFinish(t: Tid)
    | DoRelease
    | DoExpire(t: Tid)
    | DoReset(value: Word)

  /** `DoFinish` is a granted thread returning from its take. */
  ghost predicate Enabled(s: Sem, e: Event) {
    match e
    case DoTake(t, _, _) => t !in s.waiting && t !in s.granted
    case DoFinish(t) => t in s.granted
    case DoRelease => true
    case DoExpire(t) => t in s.waiting
    case DoReset(_) => true
  }

  function Apply(s: Sem, e: Event, flag: Flag): Sem {
    match e
    case DoTake(t, timeout, prio) => Take(s, t, timeout, flag, prio).0
    case DoFinish(t) => s.(granted := s.granted - {t})
    case DoRelease => Release(s).0
    case DoExpire(t) => s.(waiting := Without(s.waiting, t))
    case DoReset(value) => s.(waiting := [], value := value % 65536)
  }

  /** Nobody waits while a unit is available. */
  ghost predicate Inv(s: Sem) {
    && s.value <= VALUE_MAX
    && (s.waiting != [] ==> s.value == 0)
    && NoDup(s.waiting) && forall t :: t in s.waiting ==> t !in s.granted
  }

  lemma {:induction false} StepKeeps(s: Sem, e: Event, flag: Flag)
    requires Inv(s) && Enabled(s, e)
    ensures Inv(Apply(s, e, flag))
  {
    match e
    case DoTake(t, timeout, prio) => EnqueueElements(s.waiting, t, flag, prio);
    case DoRelease =>
      if s.waiting != [] {
        NoDupTail(s.waiting);
      }
    case DoExpire(t) => WithoutNoDup(s.waiting, t);
    case _ =>
  }

  /** Units consumed by a step: an immediate take, or a release handing its unit to a waiter. */
  function Consumed(s: Sem, e: Event, flag: Flag): nat {
    match e
    case DoTake(t, timeout, prio) => if Take(s, t, timeout, flag, prio).1 == Taken then 1 else 0
    case DoRelease => if s.waiting != [] then 1 else 0
    case _ => 0
  }

  function Produced(s: Sem, e: Event): nat {
    if e.DoRelease? && Release(s).1 then 1 else 0
  }

  ghost predicate CanRun(s: Sem, es: seq<Event>, flag: Flag)
    decreases |es|
  {
    es == [] || (Enabled(s, es[0]) && CanRun(Apply(s, es[0], flag), es[1..], flag))
  }

  ghost function After(s: Sem, es: seq<Event>, flag: Flag): Sem
    decreases |es|
  {
    if es == [] then s else After(Apply(s, es[0], flag), es[1..], flag)
  }

  ghost function TotalConsumed(s: Sem, es: seq<Event>, flag: Flag): nat
    decreases |es|
  {
    if es == [] then 0 else Consumed(s, es[0], flag) + TotalConsumed(Apply(s, es[0], flag), es[1..], flag)
  }

  ghost function TotalProduced(s: Sem, es: seq<Event>, flag: Flag): nat
    decreases |es|
  {
    if es == [] then 0 else Produced(s, es[0]) + TotalProduced(Apply(s, es[0], flag), es[1..], flag)
  }

  /** Over every run: a waiting thread means no unit is left, and (between resets) every accepted release
      is matched by exactly one successful take or is still in the counter. */
  lemma {:induction false} RunConserves(s: Sem, es: seq<Event>, flag: Flag)
    requires Inv(s) && CanRun(s, es, flag)
    ensures Inv(After(s, es, flag))
    ensures (forall i :: 0 <= i < |es| ==> !es[i].DoReset?) ==>
      After(s, es, flag).value + TotalConsumed(s, es, flag) == s.value + TotalProduced(s, es, flag)
    decreases |es|
  {
    if es != [] {
      StepKeeps(s, es[0], flag);
      RunConserves(Apply(s, es[0], flag), es[1..], flag);
    }
  }

  /** What the result of a take means: a unit was there and is gone, or none was, and then the caller waits exactly if
      it gave a time other than zero. */
  lemma {:induction false} TakeMeans(s: Sem, t: Tid, timeout: int, flag: Flag, prio: Priorities)
    requires Inv(s) && Enabled(s, DoTake(t, timeout, prio))
    ensures var (n, r) := Take(s, t, timeout, flag, prio);
      && n.granted == s.granted
      && (r == Taken <==> s.value > 0) && (r == Taken ==> n.value == s.value - 1 && n.waiting == s.waiting)
      && (r == TimedOut <==> s.value == 0 && timeout == 0) && (r == TimedOut ==> n == s)
      && (r == Suspended <==> t in n.waiting) && (r == Suspended ==> n.value == 0 && Without(n.waiting, t) == s.waiting)
  {
    if s.value == 0 && timeout != 0 { EnqueueUndone(s.waiting, t, flag, prio); }
  }

  /** A release gives its unit to one waiter, and counts it only if nobody waits; it fails exactly on a full count. */
  lemma {:induction false} ReleaseMeans(s: Sem)
    requires Inv(s)
    ensures var (n, ok) := Release(s);
      && (ok <==> s.waiting != [] || s.value < VALUE_MAX) && (!ok ==> n == s)
      && (s.waiting == [] ==> n.waiting == [] && n.granted == s.granted && (ok ==> n.value == s.value + 1))
      && (s.waiting != [] ==> n.value == 0 && exists u :: u in s.waiting && Handed(s, n, u))
  {
    if s.waiting != [] {
      NoDupTail(s.waiting);
      assert Without(s.waiting, s.waiting[0]) == s.waiting[1..];
      assert Handed(s, Release(s).0, s.waiting[0]);
    }
  }

  /** The unit went to `u`, and the others wait as before. */
  ghost predicate Handed(s: Sem, n: Sem, u: Tid) {
    n.waiting == Without(s.waiting, u) && u !in n.waiting && u !in s.granted && n.granted == s.granted + {u}
  }

  /** A reset leaves nobody waiting and the count of its argument's low 16 bits; a timeout takes out its thread. */
  lemma {:induction false} OthersMean(s: Sem, e: Event, flag: Flag)
    requires Inv(s) && Enabled(s, e)
    ensures e.DoReset? ==> var n := Apply(s, e, flag);
      n.waiting == [] && n.granted == s.granted && n.value <= VALUE_MAX && (e.value - n.value) % 65536 == 0
    ensures e.DoExpire? ==> var n := Apply(s, e, flag);
      && n.value == s.value && n.granted == s.granted && e.t !in n.waiting
      && multiset(n.waiting) == multiset(s.waiting) - multiset{e.t}
    ensures e.DoFinish? ==> var n := Apply(s, e, flag);
      n.value == s.value && n.waiting == s.waiting && e.t !in n.granted && n.granted + {e.t} == s.granted
  {
    if e.DoExpire? {
      WithoutNoDup(s.waiting, e.t);
      WithoutElements(s.waiting, e.t);
    }
  }

  /** The thread a step is about, and the priorities it goes by. */
  function Subject(e: Event): Tid {
    if e.DoTake? || e.DoFinish? || e.DoExpire? then e.t else 0
  }

  /** All threads keep the priorities `prio` while the run lasts. */
  ghost predicate Steady(es: seq<Event>, prio: Priorities) {
    forall i :: 0 <= i < |es| && es[i].DoTake? ==> es[i].prio == prio
  }

  ghost function Stamps(s: Sem, es: seq<Event>, flag: Flag, at: map<Tid, nat>, now: nat): map<Tid, nat>
    decreases |es|
  {
    if es == [] then at
    else
      var n := Apply(s, es[0], flag);
      Stamps(n, es[1..], flag, Stamp(s.waiting, n.waiting, Subject(es[0]), at, now), now + 1)
  }

  lemma {:induction false} RunTurns(
    s: Sem, es: seq<Event>, flag: Flag, prio: Priorities, at: map<Tid, nat>, now: nat)
    requires CanRun(s, es, flag) && Steady(es, prio) && Turns(s.waiting, Key(flag, prio), at, now)
    ensures Turns(After(s, es, flag).waiting, Key(flag, prio), Stamps(s, es, flag, at, now), now + |es|)
    decreases |es|
  {
    hide Turns, Key, Enqueue, Without;
    if es != [] {
      var n, t := Apply(s, es[0], flag), Subject(es[0]);
      assert ListStep(s.waiting, n.waiting, t, flag, prio);
      StepTurns(s.waiting, n.waiting, t, flag, prio, at, now);
      assert Steady(es[1..], prio);
      RunTurns(n, es[1..], flag, prio, Stamp(s.waiting, n.waiting, t, at, now), now + 1);
    }
  }

  /** After any run from a state with nobody waiting, a release serves the waiter whose turn it is: the most urgent
      under `Prio`, and among equals, as under `Fifo`, the one suspended first. */
  lemma {:induction false} ServesInTurn(s: Sem, es: seq<Event>, flag: Flag, prio: Priorities)
    requires Inv(s) && s.waiting == [] && CanRun(s, es, flag) && Steady(es, prio)
    requires After(s, es, flag).waiting != []
    ensures var n, at := After(s, es, flag), Stamps(s, es, flag, map[], 0); var w := n.waiting[0];
      Handed(n, Release(n).0, w) && Foremost(n.waiting, w, Key(flag, prio), at)
  {
    RunConserves(s, es, flag);
    RunTurns(s, es, flag, prio, map[], 0);
    var n := After(s, es, flag);
    HeadForemost(n.waiting, Key(flag, prio), Stamps(s, es, flag, map[], 0), |es|);
    NoDupTail(n.waiting);
  }

  class SemaphoreObject {
    const flag: Flag
    var value: nat
    var waiting: seq<Tid>
    ghost var granted: set<Tid>

    ghost function View(): Sem
      reads this
    {
      Sem(value, waiting, granted)
    }

    /** `rt_sem_init`. */
    constructor (initial: nat, queueing: Flag)
      requires initial < 0x10000
      ensures View() == Sem(initial, [], {}) && flag == queueing && Inv(View())
    {
      flag, value, waiting, granted := queueing, initial, [], {};
    }

    /** `rt_sem_take` up to the point where the caller either returns or is suspended. */
    method TakePass(t: Tid, timeout: int, prio: Priorities) returns (r: TakeResult)
      modifies this
      ensures (View(), r) == Take(old(View()), t, timeout, flag, prio)
    {
      if value > 0 {
        value := value - 1;
        return Taken;
      }
      if timeout == 0 {
        return TimedOut;
      }
      waiting := Suspend(waiting, t, flag, prio);
      return Suspended;
    }

    /** `rt_sem_release`. */
    method ReleasePass() returns (ok: bool)
      modifies this
      ensures (View(), ok) == Release(old(View()))
    {
      if waiting != [] {
        granted := granted + {waiting[0]};
        waiting := waiting[1..];
      } else if value < VALUE_MAX {
        value := value + 1;
      } else {
        return false;
      }
      return true;
    }

    /** `rt_sem_control` with `RT_IPC_CMD_RESET`: the value is truncated to 16 bits. */
    method ResetAll(initial: Word)
      modifies this
      ensures View() == Apply(old(View()), DoReset(initial), flag)
    {
      waiting := [];
      value := initial % 65536;
    }

    /** `_thread_timeout` for a thread suspended on this semaphore. */
    method Expire(t: Tid)
      modifies this
      ensures View() == Apply(old(View()), DoExpire(t), flag)
    {
      waiting := Without(waiting, t);
    }
  }
}
