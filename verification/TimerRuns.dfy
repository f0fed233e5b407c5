/** Runs of ticks (`rt_tick_increase` in `rt-thread/src/clock.c`) with timers created, started, stopped and changed in
    between: the list stays in order across the wrap of the tick, and every timer fires at the tick it is due. */
module TimerRuns {
  import opened KernelTypes
  import opened Lists
  import opened WaitList
  import opened SkipList
  import opened Timers
  import opened TimerCheck

  /** Between interrupts: in order as seen from the current tick, only active timers listed, no dispatch going on. */
  ghost predicate Steady(w: Wheel) {
    w.rows != [] && OnTime(w, w.tick) && w.temp == [] && Registered(w)
  }

  function Advance(w: Wheel): Wheel {
    w.(tick := Plus(w.tick, 1))
  }

  /** What happens to the timers: one is created, a thread does to one what a callback may do, or a tick is counted and
      the due timers are dispatched, which ends in `n`. */
  datatype Op =
    | DoCreate(t: Timer, ticks: Word, again: bool)
    | DoAct(a: Action)
    | DoTick(script: seq<seq<Action>>, arm: set<Timer>, n: Wheel)

  function Create(w: Wheel, t: Timer, ticks: Word, again: bool): Wheel {
    w.(timeout := w.timeout[t := 0], init := w.init[t := ticks],
       periodic := if again then w.periodic + {t} else w.periodic - {t}, active := w.active - {t})
  }

  /** Some listed timer was started for no time at all. */
  ghost predicate Belated(w: Wheel)
    requires w.rows != []
  {
    exists t :: t in Bottom(w) && t in w.timeout && w.timeout[t] == w.tick
  }

  /** The tick from which the next dispatch counts: the one it counts, unless a belated timer expired before. */
  ghost function From(w: Wheel): Word
    requires w.rows != []
  {
    if Belated(w) then w.tick else Plus(w.tick, 1)
  }

  /** A timer is started with a period below half the range. A tick asks the same, and that the period is not zero, only
      of the timers in `arm`: those its callbacks restart, and the due ones that are periodic. */
  ghost predicate Enabled(w: Wheel, op: Op) {
    && w.rows != []
    && match op
       case DoCreate(t, ticks, _) => t !in w.init && ticks < HALF
       case DoAct(a) => a.t in w.init && (a.Restart? ==> w.init[a.t] < HALF)
       case DoTick(script, arm, n) =>
         && Periods(w.init, Plus(w.tick, 1), From(w), arm)
         && (forall t :: t in Bottom(w) && Due(Advance(w), t) ==> Covered(w, arm, t))
         && AllTame(Advance(w), script, From(w), arm) && Dispatches(Advance(w), script, n)
  }

  ghost function Apply(w: Wheel, op: Op): Wheel
    requires Enabled(w, op)
  {
    match op
    case DoCreate(t, ticks, again) => Create(w, t, ticks, again)
    case DoAct(a) => Act(w, a)
    case DoTick(_, _, n) => n
  }

  /** The order does not depend on the tick it is measured from, as long as no listed timer expired before that. */
  lemma {:induction false} RowsShift(rows: seq<seq<Timer>>, prio: Priorities, after: Priorities, d: nat)
    requires Rows(rows, prio) && forall x :: x in rows[|rows| - 1] ==> after(x) + d == prio(x)
    ensures Rows(rows, after)
  {
    forall i | 0 <= i < |rows| ensures RowSorted(rows, i, after) {
      RowBelow(rows, prio, i);
      assert RowSorted(rows, i, prio);
      forall j, k | 0 <= j < k < |rows[i]| ensures InOrder(rows[i], after, j, k) {
        assert InOrder(rows[i], prio, j, k) && rows[i][j] in rows[i] && rows[i][k] in rows[i];
      }
    }
  }

  lemma {:induction false} Rebase(w: Wheel, base: Word, next: Word)
    requires w.rows != [] && OnTime(w, base)
    requires forall x :: x in Bottom(w) ==> Minus(next, base) <= Remaining(w.timeout, base)(x)
    ensures OnTime(w, next)
  {
    hide Rows;
    var d := Minus(next, base);
    forall x | x in Bottom(w)
      ensures Remaining(w.timeout, next)(x) + d == Remaining(w.timeout, base)(x)
    {
      assert x in w.timeout && d <= Remaining(w.timeout, base)(x);
    }
    RowsShift(w.rows, Remaining(w.timeout, base), Remaining(w.timeout, next), d);
  }

  /** The next dispatch may begin. */
  lemma {:induction false} TickReady(w: Wheel, arm: set<Timer>)
    requires Steady(w) && Periods(w.init, Plus(w.tick, 1), From(w), arm)
    requires forall t :: t in Bottom(w) && Due(Advance(w), t) ==> Covered(w, arm, t)
    ensures Ready(Advance(w), From(w), arm)
  {
    hide Rows, DuePart, Periods, Covered;
    var n, base := Advance(w), From(w);
    forall x | x in Bottom(w) ensures Minus(base, w.tick) <= Remaining(w.timeout, w.tick)(x) {
      assert x in w.timeout;
    }
    Rebase(w, w.tick, base);
    OnTimeFrame(w, n, base);
    assert Slack(n, base) <= 1;
    forall t | t in DuePart(n, base) ensures Covered(n, arm, t) {
      DueListed(n, base, t);
      CoveredHere(w, arm, t);
    }
  }

  lemma {:induction false} CoveredHere(w: Wheel, arm: set<Timer>, t: Timer)
    requires Covered(w, arm, t)
    ensures Covered(Advance(w), arm, t)
  {
  }

  /** The state `rt_system_timer_init` leaves is one to start from, whatever the tick and the height counter show. */
  lemma {:induction false} InitSteady(levels: nat, nr: Word, tick: Word)
    requires levels >= 1
    ensures Steady(Wheel(seq(levels, i => []), [], map[], map[], {}, {}, nr, tick))
  {
    var rows: seq<seq<Timer>> := seq(levels, i => []);
    forall i | 0 <= i < |rows| - 1 ensures RowThinned(rows, i) {
      assert rows[i] == [] && rows[i + 1] == [];
    }
  }

  /** A tick can always happen: with callbacks that leave the timers alone, its dispatch runs to an end. */
  lemma {:induction false} TickHappens(w: Wheel, arm: set<Timer>) returns (script: seq<seq<Action>>, n: Wheel)
    requires Steady(w) && Periods(w.init, Plus(w.tick, 1), From(w), arm)
    requires forall t :: t in Bottom(w) && Due(Advance(w), t) ==> Covered(w, arm, t)
    ensures Enabled(w, DoTick(script, arm, n))
  {
    hide OnTime, Registered, DuePart, Due, Periods, Covered, Dispatches, TameAct;
    TickReady(w, arm);
    ReadyFits(Advance(w), From(w), arm);
    script, n := PositiveEnds(Advance(w), From(w));
    forall i | 0 <= i < |script| ensures Tame(Advance(w), script[i], From(w), arm) {
      assert script[i] == [];
    }
  }

  lemma {:induction false} ReadyFits(w: Wheel, base: Word, arm: set<Timer>)
    requires w.rows != [] && Ready(w, base, arm)
    ensures Fits(w, base) && NoneZeroed(w, base)
  {
    hide OnTime, DuePart;
    forall t | t in DuePart(w, base) ensures FitsIn(w, base, t) && !Zeroed(w, t, base) {
      assert Covered(w, arm, t);
    }
  }

  /** A control block on no list may be set up anew. */
  lemma {:induction false} CreateKeeps(w: Wheel, t: Timer, ticks: Word, again: bool)
    requires Steady(w) && t !in w.init
    ensures Steady(Create(w, t, ticks, again))
  {
    hide Rows, Remaining;
    var n := Create(w, t, ticks, again);
    assert t !in w.timeout.Keys && t !in Bottom(w);
    RemainingOthers(w.timeout, t, 0, w.tick, Bottom(w));
    RowsFrame(w.rows, Remaining(w.timeout, w.tick), Remaining(n.timeout, w.tick));
  }

  lemma {:induction false} StartSteady(w: Wheel, t: Timer)
    requires Steady(w) && t in w.init && w.init[t] < HALF
    ensures Steady(Start(w, t))
  {
    hide OnTime, Minus, Plus;
    WrapsOnce(w.init[t], w.tick);
    assert Minus(Plus(w.tick, w.init[t]), w.tick) == w.init[t] by { PlusFlip(w.tick, w.init[t]); }
    StartKeeps(w, t, w.tick);
  }

  lemma {:induction false} PlusFlip(a: Word, b: Word)
    ensures Plus(a, b) == Plus(b, a)
  {
  }

  lemma {:induction false} StopSteady(w: Wheel, t: Timer)
    requires Steady(w)
    ensures Steady(Stop(w, t))
  {
    hide OnTime;
    StopKeeps(w, t, w.tick);
    RowsExist(Stop(w, t), w.tick);
  }

  lemma {:induction false} ActSteady(w: Wheel, a: Action)
    requires Steady(w) && Enabled(w, DoAct(a))
    ensures Steady(Act(w, a))
  {
    hide OnTime;
    if a.Restart? {
      StartSteady(w, a.t);
    } else if a.Halt? {
      StopSteady(w, a.t);
    } else {
      OnTimeFrame(w, Act(w, a), w.tick);
    }
  }

  /** Callbacks list only active timers, whatever they do. */
  lemma {:induction false} ActRegistered(w: Wheel, a: Action, base: Word, arm: set<Timer>)
    requires Ready(w, base, arm) && a.t in w.init && TameAct(a, w.tick, base, arm) && w.rows != [] && Registered(w)
    ensures Act(w, a).rows != [] && Registered(Act(w, a))
  {
    hide OnTime, DuePart, Periods, Covered;
    if a.Restart? {
      RestartKeeps(w, a.t, base, arm);
    } else if a.Halt? {
      StopKeeps(w, a.t, base);
    }
  }

  lemma {:induction false} ActsRegistered(w: Wheel, acts: seq<Action>, base: Word, arm: set<Timer>)
    requires Ready(w, base, arm) && Tame(w, acts, base, arm) && w.rows != [] && Registered(w)
    ensures Registered(Acts(w, acts))
    decreases |acts|
  {
    hide Act, Ready, Tame, TameAct, Registered;
    if acts != [] {
      ActTame(w, acts, base, arm);
      ActKeeps(w, acts[0], base, arm);
      ActRegistered(w, acts[0], base, arm);
      ActsRegistered(Act(w, acts[0]), acts[1..], base, arm);
    }
  }

  lemma {:induction false} SettleRegistered(w: Wheel, t: Timer, base: Word, arm: set<Timer>)
    requires Ready(w, base, arm) && t in w.init && Covered(w, arm, t) && w.rows != [] && Registered(w)
    ensures Registered(Settle(w, t))
  {
    hide OnTime, DuePart, Periods;
    if w.temp != [] && t in w.periodic && t in w.active {
      var m := w.(temp := Without(w.temp, t), active := w.active - {t});
      FlagKeeps(w, m, base);
      ReadyFrom(w, m, base, arm);
      RestartKeeps(m, t, base, arm);
    }
  }

  lemma {:induction false} SettleTemp(w: Wheel, t: Timer)
    requires w.rows != [] && t in w.init && (w.temp == [] || w.temp == [t])
    ensures Settle(w, t).temp == []
  {
    hide Placed, Remove;
  }

  lemma {:induction false} PickRegistered(w: Wheel, base: Word, arm: set<Timer>)
    requires Ready(w, base, arm) && HeadDue(w) && Registered(w)
    ensures Pick(w).rows != [] && Registered(Pick(w))
  {
    hide OnTime, DuePart, Periods, Covered;
    PickKeeps(w, base);
  }

  /** A round ends with nothing on the temporary list. */
  lemma {:induction false} FireSteady(w: Wheel, acts: seq<Action>, base: Word, arm: set<Timer>)
    requires Ready(w, base, arm) && HeadDue(w) && Tame(w, acts, base, arm) && Registered(w)
    ensures Bottom(w)[0] in w.init && Registered(Fire(w, acts)) && Fire(w, acts).temp == []
  {
    hide OnTime, DuePart, Periods, TameAct, Ready, Registered, Unlink;
    var t, p := Bottom(w)[0], Pick(w);
    PickReady(w, base, arm);
    PickRegistered(w, base, arm);
    ActsKeep(p, acts, base, arm);
    ActsTemp(p, acts, t);
    ActsRegistered(p, acts, base, arm);
    SettleTemp(Acts(p, acts), t);
    SettleRegistered(Acts(p, acts), t, base, arm);
  }

  lemma {:induction false} DispatchSteady(w: Wheel, script: seq<seq<Action>>, n: Wheel, base: Word, arm: set<Timer>)
    requires Ready(w, base, arm) && Dispatches(w, script, n) && AllTame(w, script, base, arm)
    requires w.rows != [] && w.temp == [] && Registered(w)
    ensures n.rows != [] && n.temp == [] && Registered(n)
    decreases |script|
  {
    hide OnTime, Fire, Slack, DuePart, Periods, Covered, Due, Registered;
    if HeadDue(w) {
      assert Tame(w, script[0], base, arm);
      FireKeeps(w, script[0], base, arm);
      FireSteady(w, script[0], base, arm);
      DispatchSteady(Fire(w, script[0]), script[1..], n, base, arm);
    }
  }

  lemma {:induction false} TickSteady(w: Wheel, script: seq<seq<Action>>, arm: set<Timer>, n: Wheel)
    requires Steady(w) && Enabled(w, DoTick(script, arm, n))
    ensures Steady(n) && n.tick == Plus(w.tick, 1)
  {
    hide OnTime, DuePart, Periods, Covered, Dispatches, Due;
    var m, base := Advance(w), From(w);
    TickReady(w, arm);
    DispatchSteady(m, script, n, base, arm);
    DispatchEnds(m, script, n, base, arm);
    forall x | x in Bottom(n) ensures Minus(n.tick, base) <= Remaining(n.timeout, base)(x) {
      assert !Due(n, x);
      NotDueLeft(n, base, x);
    }
    Rebase(n, base, n.tick);
  }

  lemma {:induction false} NotDueLeft(w: Wheel, base: Word, x: Timer)
    requires w.rows != [] && OnTime(w, base) && x in Bottom(w) && !Due(w, x) && Slack(w, base) < HALF
    ensures Slack(w, base) < Remaining(w.timeout, base)(x)
  {
    hide Rows;
    assert x in w.timeout;
  }

  /** Whatever happens between two ticks and within one, the list stays in order as seen from the current tick. */
  lemma {:induction false} StepKeeps(w: Wheel, op: Op)
    requires Steady(w) && Enabled(w, op)
    ensures Steady(Apply(w, op))
  {
    hide Steady;
    match op
    case DoCreate(t, ticks, again) => CreateKeeps(w, t, ticks, again);
    case DoAct(a) => ActSteady(w, a);
    case DoTick(script, arm, n) => TickSteady(w, script, arm, n);
  }

  ghost predicate Possible(w: Wheel, ops: seq<Op>)
    decreases |ops|
  {
    ops == [] || (Enabled(w, ops[0]) && Possible(Apply(w, ops[0]), ops[1..]))
  }

  ghost function Run(w: Wheel, ops: seq<Op>): Wheel
    requires Possible(w, ops)
    decreases |ops|
  {
    if ops == [] then w else Run(Apply(w, ops[0]), ops[1..])
  }

  /** Over every run, of any length and across any number of wraps of the tick. */
  lemma {:induction false} RunKeeps(w: Wheel, ops: seq<Op>)
    requires Steady(w) && Possible(w, ops)
    ensures Steady(Run(w, ops))
    decreases |ops|
  {
    hide Steady, Enabled, Apply;
    if ops != [] {
      StepKeeps(w, ops[0]);
      RunKeeps(Apply(w, ops[0]), ops[1..]);
    }
  }

  /** Ticks until a listed timer fires; one started for no time at all waits for the next tick. */
  ghost function Left(w: Wheel, t: Timer): nat
    requires t in w.timeout
  {
    Max(1, Minus(w.timeout[t], w.tick))
  }

  lemma {:induction false} Listed(w: Wheel, t: Timer)
    requires Steady(w) && t in Bottom(w)
    ensures t in w.timeout && t in w.init && t in w.active && Minus(w.timeout[t], w.tick) < HALF
  {
    hide Rows, Minus;
    assert t in w.timeout && Remaining(w.timeout, w.tick)(t) < HALF;
    assert t in w.timeout.Keys && t in w.init.Keys;
  }

  /** The dispatch of the next tick finds due exactly the timers with one tick left. */
  lemma {:induction false} DueNext(w: Wheel, t: Timer)
    requires Steady(w) && t in Bottom(w)
    ensures t in w.timeout && (Due(Advance(w), t) <==> Left(w, t) == 1)
    ensures Left(w, t) > 1 ==> Left(Advance(w), t) == Left(w, t) - 1
  {
    hide Steady, Registered;
    Listed(w, t);
  }

  /** No callback touches the timer. */
  ghost predicate SparesAll(script: seq<seq<Action>>, t: Timer) {
    forall i :: 0 <= i < |script| ==> Spares(script[i], t)
  }

  ghost function Count(list: seq<Timer>, t: Timer): nat {
    if list == [] then 0 else (if list[0] == t then 1 else 0) + Count(list[1..], t)
  }

  lemma {:induction false} SameDue(w: Wheel, n: Wheel, x: Timer, base: Word)
    requires w.rows != [] && n.rows != [] && OnTime(w, base) && OnTime(n, base) && n.tick == w.tick
    requires Slack(w, base) < HALF && Same(w, n, x)
    ensures x in DuePart(n, base) <==> x in DuePart(w, base)
  {
    hide OnTime, DuePart;
    if x in DuePart(n, base) {
      DueListed(n, base, x);
      DueHas(w, x, base);
    }
    if x in DuePart(w, base) {
      DueListed(w, base, x);
      DueHas(n, x, base);
    }
  }

  /** A round of another timer that spares `x`. */
  lemma {:induction false} RoundSpares(w: Wheel, acts: seq<Action>, x: Timer, base: Word, arm: set<Timer>)
    requires Ready(w, base, arm) && HeadDue(w) && Tame(w, acts, base, arm) && Spares(acts, x)
    requires x in w.init && x != Bottom(w)[0]
    ensures Bottom(w)[0] in w.init && Same(w, Fire(w, acts), x) && Ready(Fire(w, acts), base, arm)
    ensures x in DuePart(Fire(w, acts), base) <==> x in DuePart(w, base)
  {
    hide OnTime, DuePart, Fire, TameAct, Periods, Covered, Same, Due, Spares;
    HeadOfDue(w, base);
    FireOther(w, acts, x, base, arm);
    FireKeeps(w, acts, base, arm);
    SameDue(w, Fire(w, acts), x, base);
  }

  /** A timer that is not due and that no callback touches. */
  lemma {:induction false} DispatchWaits(
    w: Wheel, script: seq<seq<Action>>, n: Wheel, base: Word, arm: set<Timer>, x: Timer)
    requires Ready(w, base, arm) && Dispatches(w, script, n) && AllTame(w, script, base, arm) && SparesAll(script, x)
    requires w.rows != [] && x in w.init && x !in DuePart(w, base)
    ensures n.rows != [] && Same(w, n, x) && Count(Fired(w, script), x) == 0
    decreases |script|
  {
    hide OnTime, Same, Fire, Slack, DuePart, Periods, Covered, Due, Spares;
    if HeadDue(w) {
      var m := Fire(w, script[0]);
      assert Tame(w, script[0], base, arm);
      HeadOfDue(w, base);
      RoundSpares(w, script[0], x, base, arm);
      assert x in m.init.Keys;
      DispatchWaits(m, script[1..], n, base, arm, x);
      SameTwice(w, m, n, x);
    } else {
      SameSelf(w, x, base);
    }
  }

  /** Fired once and for all, or re-armed for its period from the current tick. */
  ghost predicate Fate(w: Wheel, n: Wheel, x: Timer) {
    && n.rows != [] && x in w.init && x in n.init && n.init[x] == w.init[x] && (x in n.periodic <==> x in w.periodic)
    && if x in w.periodic then Rearmed(n, x, Plus(w.tick, w.init[x])) else x !in Bottom(n) && x !in n.active
  }

  lemma {:induction false} ActsHold(w: Wheel, acts: seq<Action>, t: Timer)
    requires w.rows != [] && Known(acts, w.init.Keys) && w.temp == [t] && Spares(acts, t)
    ensures Acts(w, acts).temp == [t]
    decreases |acts|
  {
    if acts != [] {
      assert acts[0].t in w.init && acts[0].t != t;
      assert forall i :: 0 <= i < |acts[1..]| ==> acts[1..][i] == acts[i + 1];
      assert Without([t], acts[0].t) == [t];
      ActsHold(Act(w, acts[0]), acts[1..], t);
    }
  }

  lemma {:induction false} SettleFate(w: Wheel, t: Timer, base: Word, arm: set<Timer>)
    requires Ready(w, base, arm) && t in w.init && Covered(w, arm, t) && w.rows != []
    requires w.temp == [t] && t !in Bottom(w) && (t in w.active <==> t in w.periodic)
    ensures Fate(w, Settle(w, t), t)
  {
    hide OnTime, DuePart, Periods;
    if t in w.periodic {
      var m := w.(temp := Without(w.temp, t), active := w.active - {t});
      FlagKeeps(w, m, base);
      ReadyFrom(w, m, base, arm);
      RestartKeeps(m, t, base, arm);
    }
  }

  /** The round of the timer itself. */
  lemma {:induction false} OwnRound(w: Wheel, acts: seq<Action>, base: Word, arm: set<Timer>)
    requires Ready(w, base, arm) && HeadDue(w) && Tame(w, acts, base, arm) && Spares(acts, Bottom(w)[0])
    requires Bottom(w)[0] in w.active
    ensures Bottom(w)[0] in w.init && Fate(w, Fire(w, acts), Bottom(w)[0])
    ensures Bottom(w)[0] !in DuePart(Fire(w, acts), base)
  {
    hide OnTime, DuePart, Periods, TameAct, Ready, Remove, Settle;
    var t, p := Bottom(w)[0], Pick(w);
    PickReady(w, base, arm);
    ActsKeep(p, acts, base, arm);
    ActsHold(p, acts, t);
    ActsOther(p, acts, t, base, arm);
    NotListed(Acts(p, acts), t, base, arm);
    SettleKeeps(Acts(p, acts), t, base, arm);
    SettleFate(Acts(p, acts), t, base, arm);
  }

  lemma {:induction false} NotListed(w: Wheel, t: Timer, base: Word, arm: set<Timer>)
    requires Ready(w, base, arm) && w.rows != [] && t !in Bottom(w)
    ensures t !in DuePart(w, base)
  {
    if t in DuePart(w, base) { DueListed(w, base, t); }
  }

  lemma {:induction false} FateSame(w: Wheel, m: Wheel, n: Wheel, x: Timer)
    requires m.rows != [] && n.rows != []
    ensures Fate(w, m, x) && Same(m, n, x) ==> Fate(w, n, x)
    ensures w.rows != [] && Same(w, m, x) && m.tick == w.tick && Fate(m, n, x) ==> Fate(w, n, x)
  {
  }

  /** A due timer that no callback touches fires exactly once, whatever the callbacks do to the others. */
  lemma {:induction false} DispatchFires(
    w: Wheel, script: seq<seq<Action>>, n: Wheel, base: Word, arm: set<Timer>, x: Timer)
    requires Ready(w, base, arm) && Dispatches(w, script, n) && AllTame(w, script, base, arm) && SparesAll(script, x)
    requires w.rows != [] && x in DuePart(w, base) && x in w.active
    ensures x in w.init && n.rows != [] && Fate(w, n, x) && Count(Fired(w, script), x) == 1
    decreases |script|
  {
    hide OnTime, Same, Fire, Slack, DuePart, Periods, Covered, Due, Spares, Fate;
    DueListed(w, base, x);
    HeadIsDue(w, base);
    var m := Fire(w, script[0]);
    assert Tame(w, script[0], base, arm);
    FireKeeps(w, script[0], base, arm);
    if x == Bottom(w)[0] {
      OwnRound(w, script[0], base, arm);
      assert x in m.init.Keys;
      DispatchWaits(m, script[1..], n, base, arm, x);
    } else {
      RoundSpares(w, script[0], x, base, arm);
      StillActive(w, m, x);
      DispatchFires(m, script[1..], n, base, arm, x);
    }
    FateSame(w, m, n, x);
  }

  lemma {:induction false} StillActive(w: Wheel, m: Wheel, x: Timer)
    requires w.rows != [] && m.rows != [] && Same(w, m, x) && x in w.active
    ensures x in m.active
  {
  }

  /** A tick that a listed timer must still wait for. */
  lemma {:induction false} TickWaits(w: Wheel, script: seq<seq<Action>>, arm: set<Timer>, n: Wheel, t: Timer)
    requires Steady(w) && Enabled(w, DoTick(script, arm, n)) && SparesAll(script, t)
    requires t in Bottom(w) && t in w.timeout && Left(w, t) > 1
    ensures n.rows != [] && Same(w, n, t) && Count(Fired(Advance(w), script), t) == 0
    ensures Left(n, t) == Left(w, t) - 1
  {
    hide OnTime, DuePart, Periods, Covered, Dispatches, Due, Fired, Same;
    var m, base := Advance(w), From(w);
    TickReady(w, arm);
    Listed(w, t);
    DueNext(w, t);
    DueListedNot(m, base, t);
    DispatchWaits(m, script, n, base, arm, t);
    TickSteady(w, script, arm, n);
    SameLater(w, n, t);
  }

  lemma {:induction false} DueListedNot(w: Wheel, base: Word, t: Timer)
    requires w.rows != [] && OnTime(w, base) && Slack(w, base) < HALF && !Due(w, t)
    ensures t !in DuePart(w, base)
  {
    if t in DuePart(w, base) { DueListed(w, base, t); }
  }

  lemma {:induction false} SameLater(w: Wheel, n: Wheel, t: Timer)
    requires w.rows != [] && n.rows != [] && Same(Advance(w), n, t)
    ensures Same(w, n, t)
    ensures n.tick == Plus(w.tick, 1) && Left(w, t) > 1 && Minus(w.timeout[t], w.tick) < HALF ==>
      Left(n, t) == Left(w, t) - 1
  {
  }

  /** The tick at which it fires, once; a periodic timer then has its whole period left. */
  lemma {:induction false} TickFires(w: Wheel, script: seq<seq<Action>>, arm: set<Timer>, n: Wheel, t: Timer)
    requires Steady(w) && Enabled(w, DoTick(script, arm, n)) && SparesAll(script, t)
    requires t in Bottom(w) && t in w.timeout && Left(w, t) == 1
    ensures Count(Fired(Advance(w), script), t) == 1 && Fate(Advance(w), n, t)
    ensures t in w.periodic ==> t in n.timeout && Left(n, t) == n.init[t] > 0
  {
    hide OnTime, DuePart, Periods, Dispatches, Due, Fired;
    var m, base := Advance(w), From(w);
    TickReady(w, arm);
    Listed(w, t);
    DueNext(w, t);
    DueHas(m, t, base);
    DispatchFires(m, script, n, base, arm, t);
    TickSteady(w, script, arm, n);
    if t in w.periodic { PeriodPositive(w, arm, t); }
  }

  lemma {:induction false} PeriodPositive(w: Wheel, arm: set<Timer>, t: Timer)
    requires w.rows != [] && Periods(w.init, Plus(w.tick, 1), From(w), arm) && t in w.init
    requires t in w.periodic && t in w.active && Covered(w, arm, t)
    ensures 0 < w.init[t] && Max(1, Minus(Plus(Plus(w.tick, 1), w.init[t]), Plus(w.tick, 1))) == w.init[t]
  {
    PlusFlip(Plus(w.tick, 1), w.init[t]);
    WrapsOnce(w.init[t], Plus(w.tick, 1));
  }

  /** Between ticks, what is done to other timers changes nothing about this one. */
  lemma {:induction false} BetweenTicks(w: Wheel, op: Op, t: Timer)
    requires Steady(w) && Enabled(w, op) && !op.DoTick? && OpSpares(op, t) && t in w.init
    ensures Apply(w, op).rows != [] && Same(w, Apply(w, op), t) && Apply(w, op).tick == w.tick
  {
    hide OnTime, Minus, Plus;
    Timed(w, t, w.tick);
    match op
    case DoCreate(x, ticks, again) =>
    case DoAct(a) =>
      if a.Restart? {
        assert Minus(Plus(w.tick, w.init[a.t]), w.tick) == w.init[a.t] by {
          PlusFlip(w.tick, w.init[a.t]);
          WrapsOnce(w.init[a.t], w.tick);
        }
        StartKeeps(w, a.t, w.tick);
      } else if a.Halt? {
        StopKeeps(w, a.t, w.tick);
      }
  }

  /** The step leaves the timer to the clock. */
  ghost predicate OpSpares(op: Op, t: Timer) {
    match op
    case DoCreate(x, _, _) => x != t
    case DoAct(a) => a.t != t
    case DoTick(script, _, _) => SparesAll(script, t)
  }

  ghost predicate RunSpares(ops: seq<Op>, t: Timer) {
    forall i :: 0 <= i < |ops| ==> OpSpares(ops[i], t)
  }

  ghost function Ticks(ops: seq<Op>): nat {
    if ops == [] then 0 else (if ops[0].DoTick? then 1 else 0) + Ticks(ops[1..])
  }

  /** How often the timer's callback runs in one step, and in a run. */
  ghost function StepFires(w: Wheel, op: Op, t: Timer): nat
  {
    if op.DoTick? then Count(Fired(Advance(w), op.script), t) else 0
  }

  ghost function Firings(w: Wheel, ops: seq<Op>, t: Timer): nat
    requires Possible(w, ops)
    decreases |ops|
  {
    if ops == [] then 0 else StepFires(w, ops[0], t) + Firings(Apply(w, ops[0]), ops[1..], t)
  }

  /** Listed, with the same period and kind. */
  ghost predicate Pending(w: Wheel, n: Wheel, t: Timer) {
    && n.rows != [] && t in Bottom(n) && t in n.timeout && t in w.init && t in n.init && n.init[t] == w.init[t]
    && (t in n.periodic <==> t in w.periodic)
  }

  ghost function TickOf(op: Op): nat {
    if op.DoTick? then 1 else 0
  }

  /** One step in the life of a pending periodic timer. */
  lemma {:induction false} PeriodicStep(w: Wheel, op: Op, t: Timer)
    requires Steady(w) && Enabled(w, op) && OpSpares(op, t) && t in w.periodic && Pending(w, w, t)
    ensures var n := Apply(w, op);
      && Pending(w, n, t) && StepFires(w, op, t) <= 1
      && TickOf(op) + Left(n, t) == Left(w, t) + StepFires(w, op, t) * w.init[t]
      && (Left(n, t) <= Left(w, t) || Left(n, t) <= w.init[t])
  {
    hide OnTime, Dispatches, Periods, Covered, Fired, Due, Registered;
    if op.DoTick? {
      Listed(w, t);
      if Left(w, t) > 1 {
        TickWaits(w, op.script, op.arm, op.n, t);
      } else {
        TickFires(w, op.script, op.arm, op.n, t);
      }
    } else {
      BetweenTicks(w, op, t);
    }
  }

  lemma {:induction false} FiredTwice(a: nat, b: nat, period: nat)
    ensures (a + b) * period == a * period + b * period
  {
  }

  /** A periodic timer keeps exact time for ever: ticks counted and ticks left add up to the ticks it had left at
      first plus one period for every time it fired, so it fires first after the ticks it had left and then after
      every period. The run may be of any length, across any number of wraps, with any timers around it. */
  lemma {:induction false} PeriodicPunctual(w: Wheel, ops: seq<Op>, t: Timer)
    requires Steady(w) && Possible(w, ops) && RunSpares(ops, t) && t in w.periodic && Pending(w, w, t)
    ensures Pending(w, Run(w, ops), t)
    ensures Ticks(ops) + Left(Run(w, ops), t) == Left(w, t) + Firings(w, ops, t) * w.init[t]
    ensures 1 <= Left(Run(w, ops), t) <= Max(Left(w, t), w.init[t])
    decreases |ops|
  {
    hide Steady, Enabled, Apply, OpSpares, Bottom, StepFires, Minus;
    if ops != [] {
      var m, rest := Apply(w, ops[0]), ops[1..];
      assert OpSpares(ops[0], t);
      StepKeeps(w, ops[0]);
      PeriodicStep(w, ops[0], t);
      assert RunSpares(rest, t);
      PeriodicPunctual(m, rest, t);
      FiredTwice(StepFires(w, ops[0], t), Firings(m, rest, t), w.init[t]);
    }
  }

  /** A timer that is off the list stays off until somebody starts it. */
  lemma {:induction false} GoneStep(w: Wheel, op: Op, t: Timer)
    requires Steady(w) && Enabled(w, op) && OpSpares(op, t) && t in w.init && t !in Bottom(w)
    ensures var n := Apply(w, op); n.rows != [] && Same(w, n, t) && StepFires(w, op, t) == 0
  {
    hide OnTime, Dispatches, Periods, Covered, Fired, Due, Registered;
    if op.DoTick? {
      var m, base := Advance(w), From(w);
      TickReady(w, op.arm);
      NotListed(m, t, base, op.arm);
      DispatchWaits(m, op.script, op.n, base, op.arm, t);
    } else {
      BetweenTicks(w, op, t);
    }
  }

  lemma {:induction false} GoneStays(w: Wheel, ops: seq<Op>, t: Timer)
    requires Steady(w) && Possible(w, ops) && RunSpares(ops, t) && t in w.init && t !in Bottom(w) && t !in w.active
    ensures var n := Run(w, ops); n.rows != [] && t !in Bottom(n) && t !in n.active && Firings(w, ops, t) == 0
    decreases |ops|
  {
    hide Steady, Enabled, Apply, OpSpares, Bottom, StepFires;
    SteadyRows(w);
    if ops != [] {
      assert OpSpares(ops[0], t);
      StepKeeps(w, ops[0]);
      GoneStep(w, ops[0], t);
      assert RunSpares(ops[1..], t);
      GoneStays(Apply(w, ops[0]), ops[1..], t);
    }
  }

  lemma {:induction false} SteadyRows(w: Wheel)
    requires Steady(w)
    ensures w.rows != []
  {
  }

  /** One step in the life of a pending one-shot timer. */
  lemma {:induction false} OneShotStep(w: Wheel, op: Op, t: Timer)
    requires Steady(w) && Enabled(w, op) && OpSpares(op, t) && t !in w.periodic && Pending(w, w, t)
    ensures var n := Apply(w, op);
      && n.rows != [] && t in n.init
      && if TickOf(op) == 1 && Left(w, t) == 1 then StepFires(w, op, t) == 1 && t !in Bottom(n) && t !in n.active
         else StepFires(w, op, t) == 0 && Pending(w, n, t) && Left(n, t) == Left(w, t) - TickOf(op)
  {
    hide OnTime, Dispatches, Periods, Covered, Fired, Due, Registered;
    Listed(w, t);
    if op.DoTick? {
      if Left(w, t) > 1 {
        TickWaits(w, op.script, op.arm, op.n, t);
      } else {
        TickFires(w, op.script, op.arm, op.n, t);
      }
    } else {
      BetweenTicks(w, op, t);
    }
  }

  /** A one-shot timer fires once, at the tick it is due: before that tick it has not fired and is still listed, from
      then on it has fired exactly once, is on no list and inactive. */
  lemma {:induction false} OneShotPunctual(w: Wheel, ops: seq<Op>, t: Timer)
    requires Steady(w) && Possible(w, ops) && RunSpares(ops, t) && t !in w.periodic && Pending(w, w, t)
    ensures var n := Run(w, ops);
      && n.rows != []
      && if Ticks(ops) < Left(w, t)
         then Firings(w, ops, t) == 0 && Pending(w, n, t) && Left(n, t) == Left(w, t) - Ticks(ops)
         else Firings(w, ops, t) == 1 && t !in Bottom(n) && t !in n.active
    decreases |ops|
  {
    hide Steady, Enabled, Apply, OpSpares, Bottom, StepFires, Minus;
    if ops != [] {
      var m, rest := Apply(w, ops[0]), ops[1..];
      assert OpSpares(ops[0], t);
      StepKeeps(w, ops[0]);
      OneShotStep(w, ops[0], t);
      assert RunSpares(rest, t);
      if TickOf(ops[0]) == 1 && Left(w, t) == 1 {
        GoneStays(m, rest, t);
      } else {
        OneShotPunctual(m, rest, t);
      }
    }
  }

  /** Starting a timer leaves it its whole period, from whatever tick the counter shows. */
  lemma {:induction false} StartLeft(w: Wheel, t: Timer)
    requires Steady(w) && t in w.init && w.init[t] < HALF
    ensures Steady(Start(w, t)) && Pending(w, Start(w, t), t) && Left(Start(w, t), t) == Max(1, w.init[t])
  {
    hide OnTime, Placed, Remove;
    assert Minus(Plus(w.tick, w.init[t]), w.tick) == w.init[t] by {
      PlusFlip(w.tick, w.init[t]);
      WrapsOnce(w.init[t], w.tick);
    }
    StartSteady(w, t);
    StartKeeps(w, t, w.tick);
  }

  /** So a timer started for `w.init[t]` ticks, at least one, fires at exactly that many ticks from now. */
  lemma {:induction false} DelayIsExact(w: Wheel, t: Timer, ops: seq<Op>)
    requires Steady(w) && t in w.init && 0 < w.init[t] < HALF && t !in w.periodic
    requires Possible(Start(w, t), ops) && RunSpares(ops, t)
    ensures Firings(Start(w, t), ops, t) == (if Ticks(ops) < w.init[t] then 0 else 1)
  {
    hide Steady, Possible, RunSpares, Firings, Run;
    StartLeft(w, t);
    OneShotPunctual(Start(w, t), ops, t);
  }

  /** A new timer, once started, has the period and the kind it was created with. */
  lemma {:induction false} CreateMeans(w: Wheel, t: Timer, ticks: Word, again: bool)
    requires Steady(w) && t !in w.init && ticks < HALF
    ensures var n := Create(w, t, ticks, again);
      && Steady(n) && t in n.init && t !in n.active && t !in Bottom(n) && Bottom(n) == Bottom(w)
      && Pending(n, Start(n, t), t) && Left(Start(n, t), t) == Max(1, ticks) && (t in n.periodic <==> again)
  {
    hide Steady, Start, Left, Pending;
    CreateKeeps(w, t, ticks, again);
    SteadyRows(w);
    Unlisted(w, t);
    StartLeft(Create(w, t, ticks, again), t);
  }

  lemma {:induction false} Unlisted(w: Wheel, t: Timer)
    requires Steady(w) && t !in w.init
    ensures t !in Bottom(w)
  {
    if t in Bottom(w) { Listed(w, t); }
  }

  /** `RT_TIMER_CTRL_SET_TIME` is the period of the next start, and does not touch a start already made. */
  lemma {:induction false} SetTimeMeans(w: Wheel, t: Timer, ticks: Word)
    requires Steady(w) && t in w.init && ticks < HALF
    ensures var n := Act(w, SetTime(t, ticks));
      && Steady(n) && n.rows == w.rows && n.timeout == w.timeout && n.periodic == w.periodic
      && Left(Start(n, t), t) == Max(1, ticks)
  {
    hide OnTime, Start;
    ActSteady(w, SetTime(t, ticks));
    StartLeft(Act(w, SetTime(t, ticks)), t);
  }

  /** A pending timer made one-shot fires once more and no more; one made periodic keeps its period from its next firing
      on. Neither changes when it fires next. */
  lemma {:induction false} SetOneShotMeans(w: Wheel, t: Timer, ops: seq<Op>)
    requires Steady(w) && Pending(w, w, t) && Possible(Act(w, SetOneShot(t)), ops) && RunSpares(ops, t)
    ensures Firings(Act(w, SetOneShot(t)), ops, t) == if Ticks(ops) < Left(w, t) then 0 else 1
  {
    hide OnTime, Possible, Run, Firings;
    ActSteady(w, SetOneShot(t));
    OneShotPunctual(Act(w, SetOneShot(t)), ops, t);
  }

  lemma {:induction false} SetPeriodicMeans(w: Wheel, t: Timer, ops: seq<Op>)
    requires Steady(w) && Pending(w, w, t) && Possible(Act(w, SetPeriodic(t)), ops) && RunSpares(ops, t)
    ensures var n := Run(Act(w, SetPeriodic(t)), ops);
      && Pending(w.(periodic := w.periodic + {t}), n, t)
      && Ticks(ops) + Left(n, t) == Left(w, t) + Firings(Act(w, SetPeriodic(t)), ops, t) * w.init[t]
  {
    hide OnTime, Possible, Run, Firings;
    ActSteady(w, SetPeriodic(t));
    PeriodicPunctual(Act(w, SetPeriodic(t)), ops, t);
  }

  /** A stopped timer fires no more until somebody starts it, and no other timer is touched; an inactive one is left
      alone. */
  lemma {:induction false} StopMeans(w: Wheel, t: Timer, ops: seq<Op>)
    requires Steady(w) && t in w.init && t in w.active && Possible(Stop(w, t), ops) && RunSpares(ops, t)
    ensures var n := Stop(w, t);
      && Steady(n) && t !in Bottom(n) && t !in n.active && Firings(n, ops, t) == 0
      && forall x :: x in w.init && x != t ==> Same(w, n, x)
  {
    hide OnTime, Possible, Firings, Run;
    StopSteady(w, t);
    StopKeeps(w, t, w.tick);
    GoneStays(Stop(w, t), ops, t);
    forall x | x in w.init && x != t ensures Same(w, Stop(w, t), x) {
      BetweenTicks(w, DoAct(Halt(t)), x);
    }
  }
}
