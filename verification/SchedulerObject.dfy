/** The scheduler's global variables and thread control blocks, updated in place (`rt-thread/src/scheduler.c`,
    `rt-thread/src/thread.c`, `rt-thread/src/clock.c`). Every method is tied to the function it implements. */
module SchedulerObject {
  import opened KernelTypes
  import opened Lists
  import opened Ffs
  import opened Scheduler
  import opened ThreadOps
  import W = WaitList

  class Kernel {
    var threads: map<Tid, Thread>
    var queues: seq<seq<Tid>>
    var group: Word
    var waits: seq<seq<Tid>>
    var current: Option<Tid>
    var currentPrio: nat
    var nest: int

    function View(): Sched
      reads this
    {
      Sched(threads, queues, group, waits, current, currentPrio, nest)
    }

    ghost predicate Valid()
      reads this
    {
      Inv(View())
    }

    /** `rt_system_scheduler_init`. */
    constructor (objects: nat)
      ensures Valid() && View() == Boot(objects)
    {
      threads, current, currentPrio, nest, group := map[], None, 0, 0, 0;
      waits := seq(objects, i => []);
      queues := [];
      new;
      var offset := 0;
      while offset < PRIORITIES
        invariant offset == |queues| <= PRIORITIES && forall p :: 0 <= p < offset ==> queues[p] == []
        invariant View() == Boot(objects).(queues := queues)
      {
        queues := queues + [[]];
        offset := offset + 1;
      }
      BootInv(objects);
      assert queues == Boot(objects).queues;
    }

    /** `_thread_init`. */
    method InitThread(t: Tid, prio: nat, tick: Word)
      requires Valid() && t !in threads && prio < PRIORITIES
      modifies this
      ensures Valid() && View() == Create(old(View()), t, prio, tick)
    {
      CreateKeeps(View(), t, prio, tick);
      threads := threads[t := Thread(Init, false, prio, 0, tick, tick)];
    }

    /** Writing fields of a thread control block. */
    method Store(t: Tid, x: Thread)
      requires t in threads
      modifies this`threads
      ensures threads == old(threads)[t := x]
    {
      threads := threads[t := x];
    }

    method SetStat(t: Tid, stat: Stat)
      requires t in threads
      modifies this`threads
      ensures View() == WithStat(old(View()), t, stat)
    {
      threads := threads[t := threads[t].(stat := stat)];
    }

    /** `rt_list_remove` on the thread's node. */
    method RemoveNode(t: Tid)
      modifies this`queues, this`waits
      ensures View() == Unlink(old(View()), t)
    {
      queues, waits := Each(queues, t), Each(waits, t);
    }

    /** `rt_schedule_insert_thread`. */
    method InsertThread(t: Tid)
      requires Known(View(), t)
      modifies this
      ensures View() == Insert(old(View()), t)
    {
      if current == Some(t) {
        SetStat(t, Running);
        return;
      }
      SetStat(t, Ready);
      var p := threads[t].prio;
      queues := queues[p := queues[p] + [t]];
      group := SetMask(group, threads[t].mask);
    }

    /** `rt_schedule_remove_thread`. */
    method RemoveThread(t: Tid)
      requires Known(View(), t)
      modifies this
      ensures View() == Remove(old(View()), t)
    {
      RemoveNode(t);
      if queues[threads[t].prio] == [] {
        group := ClearMask(group, threads[t].mask);
      }
    }

    /** `_scheduler_get_highest_priority_thread`. */
    method HighestThread() returns (t: Tid, prio: nat)
      requires Valid() && group != 0
      ensures 0 <= prio < |queues| && prio == Highest(View()) && queues[prio] != [] && t == queues[prio][0]
    {
      HighestQueue(View());
      prio := FindFirstSet(group) - 1;
      t := queues[prio][0];
    }

    /** The two branches at the end of `rt_schedule`. */
    method SwitchTo(to: Tid, prio: nat, insert: bool)
      requires current.Some? && Known(View(), current.value) && Known(View(), to) && to != current.value
      modifies this
      ensures var m := old(View()).(currentPrio := prio, current := Some(to));
        View() == WithStat(Remove(if insert then Insert(m, old(current.value)) else m, to), to, Running)
    {
      var from := current.value;
      currentPrio := prio;
      current := Some(to);
      if insert {
        InsertThread(from);
      }
      RemoveThread(to);
      SetStat(to, Running);
    }

    /** `rt_schedule`. */
    method DoSchedule()
      requires Valid() && current.Some?
      modifies this
      ensures Valid() && Schedulable(old(View())) && View() == Schedule(old(View()))
    {
      ScheduleKeeps(View());
      CanSchedule(View());
      if nest == 0 && group != 0 {
        var to, highest := HighestThread();
        var self, insert := current.value, false;
        if threads[self].stat == Running {
          if threads[self].prio < highest {
            to := self;
          } else if threads[self].prio == highest && !threads[self].yielding {
            to := self;
          } else {
            insert := true;
          }
          threads := threads[self := threads[self].(yielding := false)];
        }
        if to != self {
          SwitchTo(to, highest, insert);
        } else {
          RemoveThread(self);
          SetStat(self, Running);
        }
      }
    }

    /** `rt_thread_resume`. */
    method ResumeThread(t: Tid) returns (ok: bool)
      requires Valid() && t in threads
      modifies this
      ensures Known(old(View()), t) && Valid() && (View(), ok) == Resume(old(View()), t)
    {
      ResumeKeeps(View(), t);
      if threads[t].stat != Suspended {
        return false;
      }
      RemoveNode(t);
      InsertThread(t);
      return true;
    }

    method MarkStarted(t: Tid)
      requires t in threads
      modifies this`threads
      ensures threads ==
        old(threads)[t := old(threads)[t].(mask := old(threads)[t].prio, stat := Suspended, yielding := false)]
    {
      Store(t, threads[t].(mask := threads[t].prio));
      ghost var x := threads[t];
      Store(t, threads[t].(stat := Suspended, yielding := false));
      Overwrite(old(threads), t, x, threads[t]);
    }

    /** `rt_thread_startup`. */
    method StartupThread(t: Tid)
      requires Valid() && Enabled(View(), DoStartup(t))
      modifies this
      ensures Valid() && View() == Step(old(View()), DoStartup(t))
    {
      StepKeeps(View(), DoStartup(t));
      StartedKeeps(View(), t);
      MarkStarted(t);
      RemoveNode(t);
      InsertThread(t);
      if current.Some? {
        DoSchedule();
      }
    }

    /** `rt_system_scheduler_start`. */
    method StartScheduler()
      requires Valid() && Enabled(View(), DoStart)
      modifies this
      ensures Valid() && View() == Step(old(View()), DoStart)
    {
      StartKeeps(View());
      var to, _ := HighestThread();
      current := Some(to);
      RemoveThread(to);
      threads := threads[to := threads[to].(stat := Running, yielding := false)];
    }

    /** `rt_thread_suspend` of the current thread. */
    method SuspendSelf() returns (ok: bool)
      requires Valid() && current.Some?
      modifies this
      ensures Known(old(View()), old(current.value)) && Valid() && (View(), ok) == Suspend(old(View()))
      ensures ok ==> OnNoWait(View(), old(current.value)) && current == old(current)
    {
      SuspendKeeps(View());
      var t := current.value;
      if threads[t].stat != Ready && threads[t].stat != Running {
        return false;
      }
      RemoveThread(t);
      SetStat(t, Suspended);
      return true;
    }

    /** `_ipc_list_suspend` of the current thread. */
    method BlockSelf(i: nat, flag: W.Flag)
      requires Valid() && Enabled(View(), DoBlock(i, flag))
      modifies this
      ensures Valid() && View() == Step(old(View()), DoBlock(i, flag))
    {
      BlockKeeps(View(), i, flag);
      var ok := SuspendSelf();
      var list := W.Suspend(waits[i], current.value, flag, PriorityOf(View()));
      waits := waits[i := list];
    }

    /** `_thread_timeout`. */
    method TimeoutThread(t: Tid)
      requires Valid() && Enabled(View(), DoTimeout(t))
      modifies this
      ensures Valid() && View() == Step(old(View()), DoTimeout(t))
    {
      StepKeeps(View(), DoTimeout(t));
      WakeKeeps(View(), t);
      RemoveNode(t);
      InsertThread(t);
      if current.Some? {
        DoSchedule();
      }
    }

    /** `rt_thread_yield`. */
    method YieldSelf()
      requires Valid() && current.Some?
      modifies this
      ensures Valid() && View() == Step(old(View()), DoYield)
    {
      EffectKeeps(View(), DoYield);
      var t := current.value;
      ghost var x := threads[t];
      Store(t, threads[t].(remaining := threads[t].initTick));
      Store(t, threads[t].(yielding := true));
      Overwrite(old(threads), t, x.(remaining := x.initTick), threads[t]);
      DoSchedule();
    }

    /** The time slice part of `rt_tick_increase`. */
    method TickIncrease()
      requires Valid() && current.Some?
      modifies this
      ensures Valid() && View() == Step(old(View()), DoTick)
    {
      EffectKeeps(View(), DoTick);
      var t := current.value;
      ghost var x := threads[t];
      Store(t, threads[t].(remaining := Minus(threads[t].remaining, 1)));
      if threads[t].remaining == 0 {
        ghost var y := threads[t];
        Store(t, threads[t].(remaining := threads[t].initTick));
        Overwrite(old(threads), t, y, threads[t]);
        ghost var z := threads[t];
        Store(t, threads[t].(yielding := true));
        Overwrite(old(threads), t, z, threads[t]);
        DoSchedule();
      }
    }

    /** `rt_thread_control` with `RT_THREAD_CTRL_CHANGE_PRIORITY`. */
    method SetPriority(t: Tid, prio: nat)
      requires Valid() && Enabled(View(), DoPriority(t, prio))
      modifies this
      ensures Valid() && View() == Step(old(View()), DoPriority(t, prio))
    {
      PriorityKeeps(View(), t, prio);
      if threads[t].stat == Ready {
        RemoveThread(t);
        SetLevel(t, prio);
        InsertThread(t);
      } else {
        SetLevel(t, prio);
      }
    }

    /** `current_priority` and the mask that goes with it. */
    method SetLevel(t: Tid, prio: nat)
      requires t in threads
      modifies this`threads
      ensures threads == old(threads)[t := old(threads)[t].(prio := prio, mask := prio)]
    {
      Store(t, threads[t].(prio := prio));
      ghost var x := threads[t];
      Store(t, threads[t].(mask := prio));
      Overwrite(old(threads), t, x, threads[t]);
    }

    /** `rt_enter_critical`. */
    method EnterCritical()
      requires Valid()
      modifies this
      ensures Valid() && View() == Step(old(View()), DoEnter)
    {
      EffectKeeps(View(), DoEnter);
      nest := if nest == 0x7fff then -0x8000 else nest + 1;
    }

    /** `rt_exit_critical`. */
    method ExitCritical()
      requires Valid()
      modifies this
      ensures Valid() && View() == Step(old(View()), DoLeave)
    {
      EffectKeeps(View(), DoLeave);
      nest := if nest == -0x8000 then 0x7fff else nest - 1;
      if nest <= 0 {
        nest := 0;
        if current.Some? {
          DoSchedule();
        }
      }
    }

    /** `_thread_exit`. */
    method ExitThread()
      requires Valid() && Enabled(View(), DoExit)
      modifies this
      ensures Valid() && View() == Step(old(View()), DoExit)
    {
      EffectKeeps(View(), DoExit);
      EndedKeeps(View());
      var t := current.value;
      RemoveThread(t);
      threads := threads[t := threads[t].(stat := Closed, yielding := false)];
      DoSchedule();
    }
  }
}
