/** Time slices (`rt_tick_increase` in `rt-thread/src/clock.c`): equally urgent threads take turns. */
module RoundRobin {
  import opened KernelTypes
  import opened Lists
  import opened Ffs
  import opened Scheduler
  import opened ThreadOps

  /** A thread and what is left of its time slice. */
  datatype Slot = Slot(t: Tid, remaining: nat, full: nat)

  /** One tick on the ring of equally urgent threads, the running one first. */
  function Turn(r: seq<Slot>): seq<Slot> {
    if r == [] || r[0].remaining == 0 then r
    else if r[0].remaining == 1 then r[1..] + [Refilled(r[0])]
    else r[0 := r[0].(remaining := r[0].remaining - 1)]
  }

  function Refilled(x: Slot): Slot {
    x.(remaining := x.full)
  }

  function Turns(r: seq<Slot>, n: nat): seq<Slot> {
    if n == 0 then r else Turn(Turns(r, n - 1))
  }

  lemma {:induction false} TurnsAdd(r: seq<Slot>, a: nat, b: nat)
    ensures Turns(r, a + b) == Turns(Turns(r, a), b)
    decreases b
  {
    if b > 0 { TurnsAdd(r, a, b - 1); }
  }

  lemma {:induction false} SliceLasts(r: seq<Slot>, n: nat)
    requires r != [] && n < r[0].remaining
    ensures Turns(r, n) == r[0 := r[0].(remaining := r[0].remaining - n)]
  {
    if n > 0 { SliceLasts(r, n - 1); } else { assert r[0 := r[0].(remaining := r[0].remaining)] == r; }
  }

  /** The head keeps its place for the rest of its slice, then goes to the end with a full one. */
  lemma {:induction false} SliceEnds(r: seq<Slot>)
    requires r != [] && r[0].remaining > 0
    ensures Turns(r, r[0].remaining) == r[1..] + [Refilled(r[0])]
  {
    SliceLasts(r, r[0].remaining - 1);
  }

  /** Whose turn the `m`-th slice is, and how long it lasts. */
  function Owner(r: seq<Slot>, m: nat): Slot
    requires r != []
  {
    if m < |r| then r[m] else Refilled(r[m % |r|])
  }

  /** The tick at which the `m`-th slice begins. */
  function Begins(r: seq<Slot>, m: nat): nat
    requires r != []
  {
    if m == 0 then 0 else Begins(r, m - 1) + Owner(r, m - 1).remaining
  }

  ghost predicate Filled(r: seq<Slot>) {
    forall i :: 0 <= i < |r| ==> r[i].remaining > 0 && r[i].full > 0
  }

  lemma {:induction false} Around(m: nat, k: nat)
    requires k > 0
    ensures (m + k) % k == m % k
  {
    var q := m / k;
    assert m + k == (q + 1) * k + m % k;
    Divided(m + k, k, q + 1, m % k);
  }

  lemma {:induction false} OwnerFilled(r: seq<Slot>, m: nat)
    requires r != [] && Filled(r)
    ensures Owner(r, m).remaining > 0
  {
  }

  /** One slice after `m` the refilled head is due again. */
  lemma {:induction false} OwnerNext(r: seq<Slot>, m: nat)
    requires r != []
    ensures Owner(r, m + |r|) == Refilled(Owner(r, m))
  {
    Around(m, |r|);
    if m < |r| { Divided(m, |r|, 0, m); }
  }

  ghost predicate Reads(p: seq<Slot>, r: seq<Slot>, m: nat)
    requires r != []
  {
    |p| == |r| && forall i :: 0 <= i < |p| ==> p[i] == Owner(r, m + i)
  }

  lemma {:induction false} HandOver(p: seq<Slot>, r: seq<Slot>, m: nat)
    requires r != [] && Reads(p, r, m)
    ensures Reads(p[1..] + [Refilled(p[0])], r, m + 1)
  {
    hide Owner;
    var q := p[1..] + [Refilled(p[0])];
    forall i | 0 <= i < |q| ensures q[i] == Owner(r, m + 1 + i) {
      if i < |q| - 1 {
        assert p[i + 1] == Owner(r, m + (i + 1));
      } else {
        assert p[0] == Owner(r, m + 0);
        OwnerNext(r, m);
      }
    }
  }

  /** When the `m`-th slice begins, the ring reads from its owner on. */
  lemma {:induction false} AtSlice(r: seq<Slot>, m: nat)
    requires r != [] && Filled(r)
    ensures Reads(Turns(r, Begins(r, m)), r, m)
  {
    hide Owner, Filled, Turn;
    if m > 0 {
      AtSlice(r, m - 1);
      var p := Turns(r, Begins(r, m - 1));
      assert p[0] == Owner(r, m - 1 + 0);
      OwnerFilled(r, m - 1);
      SliceEnds(p);
      TurnsAdd(r, Begins(r, m - 1), p[0].remaining);
      HandOver(p, r, m - 1);
    } else {
      FirstRound(r);
    }
  }

  lemma {:induction false} FirstRound(r: seq<Slot>)
    requires r != []
    ensures Reads(r, r, 0)
  {
  }

  /** The threads that share the processor: the running one and those ready at its priority. */
  ghost function Ring(s: Sched): seq<Slot>
    requires Inv(s) && Runs(s)
  {
    Slots(s, [s.current.value] + s.queues[s.threads[s.current.value].prio])
  }

  ghost function Slots(s: Sched, line: seq<Tid>): seq<Slot> {
    seq(|line|, i requires 0 <= i < |line| => SlotOf(s, line[i]))
  }

  ghost function SlotOf(s: Sched, t: Tid): Slot {
    if t in s.threads then Slot(t, s.threads[t].remaining, s.threads[t].initTick) else Slot(t, 0, 0)
  }

  /** The scheduler is unlocked, nobody outranks the running thread, and time slices are not zero. */
  ghost predicate Fair(s: Sched) {
    Inv(s) && s.nest == 0 && Runs(s) && Settled(s) && Filled(Ring(s))
  }

  /** Ticks on which no timer fires. */
  ghost function Ticks(s: Sched, n: nat): Sched
    requires Inv(s) && s.current.Some?
    ensures Inv(Ticks(s, n)) && Ticks(s, n).current.Some?
  {
    if n == 0 then s
    else
      TickInv(Ticks(s, n - 1));
      Step(Ticks(s, n - 1), DoTick)
  }

  lemma {:induction false} TickInv(s: Sched)
    requires Inv(s) && s.current.Some?
    ensures Inv(Step(s, DoTick)) && Step(s, DoTick).current.Some?
  {
    EffectKeeps(s, DoTick);
    RescheduleKeeps(Effect(s, DoTick));
  }

  /** The current thread's queue holds only others, and it is the highest one that is not empty unless it is empty. */
  lemma {:induction false} RivalsOf(s: Sched)
    requires Inv(s) && Runs(s) && Settled(s)
    ensures var c := s.current.value; var p := s.threads[c].prio;
      && p < PRIORITIES && c !in s.queues[p] && NoDup(s.queues[p])
      && (forall t :: t in s.queues[p] ==> IsReadyAt(s, t, p))
      && (s.group == 0 ==> s.queues[p] == [])
      && (s.group != 0 ==> p <= Highest(s) < PRIORITIES && s.queues[Highest(s)] != [])
      && (s.group != 0 ==> IsReadyAt(s, s.queues[Highest(s)][0], Highest(s)))
      && (s.group != 0 && p < Highest(s) ==> s.queues[p] == [])
  {
    var c := s.current.value;
    KnownThread(s, c);
    var p := s.threads[c].prio;
    assert c in s.queues[p] <==> IsReadyAt(s, c, p);
    forall t | t in s.queues[p] ensures IsReadyAt(s, t, p) { }
    HighestQueue(s);
    if s.group != 0 {
      var h := s.queues[Highest(s)][0];
      assert h in s.queues[Highest(s)] && IsReadyAt(s, h, Highest(s));
    }
  }

  /** The scheduling at the end of a slice: the next thread of the queue runs and the old one goes to its end. */
  lemma {:induction false} PassOn(s: Sched)
    requires Inv(s) && Runs(s) && Settled(s) && s.nest == 0 && s.threads[s.current.value].yielding
    ensures var n := Reschedule(s); var c := s.current.value; var p := s.threads[c].prio;
      && Inv(n) && Runs(n) && n.nest == 0 && n.threads.Keys == s.threads.Keys && p < PRIORITIES
      && n.threads[n.current.value].prio == p
      && (forall t :: t in s.threads ==> SlotOf(n, t) == SlotOf(s, t))
      && [n.current.value] + n.queues[p] == s.queues[p] + [c]
  {
    hide ListsOk, NoDup;
    var c := s.current.value;
    var p := s.threads[c].prio;
    RivalsOf(s);
    CanSchedule(s);
    ScheduleKeeps(s);
    var n := Schedule(s);
    if s.group != 0 {
      if p < Highest(s) {
        assert n.queues[p] == [];
      } else {
        var to := s.queues[p][0];
        var q := s.queues[p] + [c];
        assert q[0] == to && Without(q, to) == q[1..];
        assert n.queues[p] == q[1..];
        assert [to] + q[1..] == q;
      }
    }
  }

  /** A tick of the kernel is a turn of the ring, and keeps the conditions for the next. */
  lemma {:induction false} TickTurns(s: Sched)
    requires Fair(s)
    ensures Fair(Step(s, DoTick)) && Ring(Step(s, DoTick)) == Turn(Ring(s))
  {
    var c := s.current.value;
    var p := s.threads[c].prio;
    RivalsOf(s);
    EffectKeeps(s, DoTick);
    var e, line := Effect(s, DoTick), s.queues[p];
    assert Ring(s)[0] == SlotOf(s, c);
    assert Settled(e);
    if Schedules(s, DoTick) {
      PassOn(e);
      StepSettles(s, DoTick, c);
      var n := Step(s, DoTick);
      assert Ring(n) == Slots(n, line + [c]);
      Rotates(s, e, n, c, line);
    } else {
      Counts(s, e, c, line);
    }
    TurnFilled(Ring(s));
  }

  lemma {:induction false} TurnFilled(r: seq<Slot>)
    requires Filled(r)
    ensures Filled(Turn(r))
  {
  }

  lemma {:induction false} Rotates(s: Sched, e: Sched, n: Sched, c: Tid, line: seq<Tid>)
    requires c !in line && SlotOf(e, c) == Refilled(SlotOf(s, c)) && SlotOf(s, c).remaining == 1
    requires forall t :: t in line ==> SlotOf(e, t) == SlotOf(s, t)
    requires forall t :: t in line + [c] ==> SlotOf(n, t) == SlotOf(e, t)
    ensures Slots(n, line + [c]) == Turn(Slots(s, [c] + line))
  {
    hide SlotOf;
    var r := Slots(s, [c] + line);
    assert r[0] == SlotOf(s, c);
    forall i | 0 <= i < |r| ensures Slots(n, line + [c])[i] == Turn(r)[i] {
      if i < |line| { assert line[i] in line && line[i] in line + [c] && r[i + 1] == SlotOf(s, line[i]); }
      else { assert c in line + [c]; }
    }
  }

  lemma {:induction false} Counts(s: Sched, e: Sched, c: Tid, line: seq<Tid>)
    requires c !in line && SlotOf(s, c).remaining > 1
    requires SlotOf(e, c) == SlotOf(s, c).(remaining := SlotOf(s, c).remaining - 1)
    requires forall t :: t in line ==> SlotOf(e, t) == SlotOf(s, t)
    ensures Slots(e, [c] + line) == Turn(Slots(s, [c] + line))
  {
    hide SlotOf;
    var r := Slots(s, [c] + line);
    assert r[0] == SlotOf(s, c);
    forall i | 0 < i < |r| ensures Slots(e, [c] + line)[i] == r[i] { assert r[i] == SlotOf(s, line[i - 1]); }
  }

  lemma {:induction false} TicksTurn(s: Sched, n: nat)
    requires Fair(s)
    ensures Fair(Ticks(s, n)) && Ring(Ticks(s, n)) == Turns(Ring(s), n)
  {
    hide Inv, Ring, Turn, Settled, Filled, Step;
    if n > 0 {
      TicksTurn(s, n - 1);
      TickTurns(Ticks(s, n - 1));
    }
  }

  /** Round robin. While the running thread has equals waiting and nobody wakes, blocks or changes priority, the
      threads run in a fixed cyclic order, those of the first round for what was left of their slices, and then each
      for exactly a full slice: the `n`-th tick of the `m`-th slice finds its owner running. */
  lemma {:induction false} TakeTurns(s: Sched, m: nat, n: nat)
    requires Fair(s) && Ring(s) != [] && n < Owner(Ring(s), m).remaining
    ensures Ticks(s, Begins(Ring(s), m) + n).current == Some(Owner(Ring(s), m).t)
  {
    hide Owner, Turn, Inv, Settled, Filled, Slots, Step, Ring;
    var r, at := Ring(s), Begins(Ring(s), m) + n;
    FairRing(s);
    AtSlice(r, m);
    var p := Turns(r, Begins(r, m));
    assert p[0] == Owner(r, m + 0);
    SliceLasts(p, n);
    TurnsAdd(r, Begins(r, m), n);
    TicksTurn(s, at);
    FairRing(Ticks(s, at));
  }

  lemma {:induction false} FairRing(s: Sched)
    requires Fair(s)
    ensures Ring(s) != [] && s.current == Some(Ring(s)[0].t) && Filled(Ring(s))
  {
  }

  ghost predicate Falls(r: seq<Slot>, at: nat, m: nat, n: nat)
    requires r != []
  {
    n < Owner(r, m).remaining && at == Begins(r, m) + n
  }

  /** Every tick falls into a slice, so the schedule is determined for good. */
  lemma {:induction false} EveryTick(r: seq<Slot>, at: nat)
    requires r != [] && Filled(r)
    ensures exists m: nat, n: nat :: Falls(r, at, m, n)
  {
    if at == 0 {
      OwnerFilled(r, 0);
      assert Falls(r, 0, 0, 0);
    } else {
      EveryTick(r, at - 1);
      var m: nat, n: nat :| Falls(r, at - 1, m, n);
      OwnerFilled(r, m + 1);
      assert Falls(r, at, m, n + 1) || Falls(r, at, m + 1, 0);
    }
  }
}
