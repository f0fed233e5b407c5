/** Timer dispatch (`rt_timer_check` in `rt-thread/src/timer.c`): the loop that fires due timers while their
    callbacks may restart, stop or change any timer, including the one being fired. */
module TimerCheck {
  import opened KernelTypes
  import opened Lists
  import opened WaitList
  import opened SkipList
  import opened Timers

  /** What a callback may do to the timers. */
  datatype Action =
    | Restart(t: Timer)
    | Halt(t: Timer)
    | SetTime(t: Timer, ticks: Word)
    | SetOneShot(t: Timer)
    | SetPeriodic(t: Timer)

  ghost function Act(w: Wheel, a: Action): Wheel
    requires w.rows != [] && a.t in w.init
  {
    match a
    case Restart(t) => Start(w, t)
    case Halt(t) => Stop(w, t)
    case SetTime(t, ticks) => w.(init := w.init[t := ticks])
    case SetOneShot(t) => w.(periodic := w.periodic - {t})
    case SetPeriodic(t) => w.(periodic := w.periodic + {t})
  }

  /** A callback's actions are all on timers that exist. */
  ghost predicate Known(acts: seq<Action>, timers: set<Timer>) {
    forall i :: 0 <= i < |acts| ==> acts[i].t in timers
  }

  ghost function Acts(w: Wheel, acts: seq<Action>): (n: Wheel)
    requires w.rows != [] && Known(acts, w.init.Keys)
    ensures n.rows != [] && n.init.Keys == w.init.Keys && n.tick == w.tick
    decreases |acts|
  {
    if acts == [] then w
    else
      assert acts[0].t in w.init;
      var n := Act(w, acts[0]);
      assert n.init.Keys == w.init.Keys;
      Acts(n, acts[1..])
  }

  /** The test at the head of the loop. */
  predicate Due(w: Wheel, t: Timer) {
    t in w.timeout && Minus(w.tick, w.timeout[t]) < HALF
  }

  ghost predicate HeadDue(w: Wheel) {
    w.rows != [] && Bottom(w) != [] && Due(w, Bottom(w)[0])
  }

  /** The head timer is moved to the temporary list; a one-shot timer becomes inactive. */
  ghost function Pick(w: Wheel): Wheel
    requires HeadDue(w)
  {
    var t := Bottom(w)[0];
    Unlink(w, t).(temp := [t], active := if t in w.periodic then w.active else w.active - {t})
  }

  /** After the callback: if the timer is still on the temporary list it leaves it, and a periodic timer that is
      still active is started again. */
  ghost function Settle(w: Wheel, t: Timer): Wheel
    requires w.rows != [] && t in w.init
  {
    if w.temp == [] then w
    else
      var n := w.(temp := Without(w.temp, t));
      if t in w.periodic && t in w.active then Start(n.(active := n.active - {t}), t) else n
  }

  /** One round of the loop, whose callback performs `acts`. */
  ghost function Fire(w: Wheel, acts: seq<Action>): (n: Wheel)
    requires HeadDue(w) && Known(acts, w.init.Keys) && Bottom(w)[0] in w.init
    ensures n.rows != [] && n.init.Keys == w.init.Keys && n.tick == w.tick
  {
    Settle(Acts(Pick(w), acts), Bottom(w)[0])
  }

  /** Ticks already elapsed since `base`. */
  function Slack(w: Wheel, base: Word): Word {
    Minus(w.tick, base)
  }

  /** A period that keeps a restarted timer in the future and inside the half range. */
  ghost predicate Modest(tick: Word, ticks: Word, base: Word) {
    0 < ticks && Minus(tick, base) + ticks < HALF
  }

  /** The timers of `arm`, those that may be re-armed, have modest periods. */
  ghost predicate Periods(init: map<Timer, Word>, tick: Word, base: Word, arm: set<Timer>) {
    forall t :: t in arm && t in init ==> Modest(tick, init[t], base)
  }

  /** The end of its round re-arms a timer only if it is one of `arm`. */
  ghost predicate Covered(w: Wheel, arm: set<Timer>, t: Timer) {
    t in w.periodic && t in w.active ==> t in arm
  }

  /** The list is in order, and due timers that are periodic and active have modest periods. Nothing is asked of any
      other timer's period. */
  ghost predicate Ready(w: Wheel, base: Word, arm: set<Timer>) {
    && OnTime(w, base) && Slack(w, base) < HALF && Periods(w.init, w.tick, base, arm)
    && forall t :: t in DuePart(w, base) ==> Covered(w, arm, t)
  }

  /** A callback restarts, or makes periodic, only timers of `arm`, and gives those only modest periods. */
  ghost predicate TameAct(a: Action, tick: Word, base: Word, arm: set<Timer>) {
    match a
    case Restart(t) => t in arm
    case SetTime(t, ticks) => t in arm ==> Modest(tick, ticks, base)
    case SetPeriodic(t) => t in arm
    case _ => true
  }

  ghost predicate Tame(w: Wheel, acts: seq<Action>, base: Word, arm: set<Timer>) {
    Known(acts, w.init.Keys) && forall i :: 0 <= i < |acts| ==> TameAct(acts[i], w.tick, base, arm)
  }

  /** The due timers: those of the bottom row up to the first that expires after the tick. */
  ghost function DuePart(w: Wheel, base: Word): seq<Timer>
    requires w.rows != []
  {
    Bottom(w)[..Position(Bottom(w), Slack(w, base), Remaining(w.timeout, base), 0)]
  }

  /** A restart inside the window, as a value of time remaining. */
  lemma {:induction false} ModestExpiry(w: Wheel, ticks: Word, base: Word)
    requires Modest(w.tick, ticks, base)
    ensures Minus(Plus(w.tick, ticks), base) == Slack(w, base) + ticks
  {
  }

  /** The loop's wrapped test agrees with the order of expiries, so the due timers form a prefix. */
  lemma {:induction false} DueIsPrefix(w: Wheel, base: Word, i: nat)
    requires OnTime(w, base) && Slack(w, base) < HALF && i < |Bottom(w)|
    ensures Due(w, Bottom(w)[i]) <==> i < |DuePart(w, base)|
  {
    var b, prio, k := Bottom(w), Remaining(w.timeout, base), |DuePart(w, base)|;
    assert b[i] in b;
    assert Due(w, b[i]) <==> prio(b[i]) <= Slack(w, base);
    assert RowSorted(w.rows, |w.rows| - 1, prio);
    if k < i { assert InOrder(b, prio, k, i); }
  }

  /** A prefix of bounded expiry survives removal and insertion further back. */
  lemma {:induction false} WithoutPrefix(b: seq<Timer>, t: Timer, d: nat, prio: Priorities)
    requires Sorted(b, prio) && NoDup(b)
    ensures Without(b, t)[..Position(Without(b, t), d, prio, 0)] == Without(b[..Position(b, d, prio, 0)], t)
  {
    var k, s := Position(b, d, prio, 0), Elems(b) - {t};
    WithoutIsFilter(b, t, s);
    ThinnedPosition(Without(b, t), b, s, d, prio, k);
    NoDupTake(b, k);
    WithoutIsFilter(b[..k], t, s);
  }

  lemma {:induction false} InsertBeyond(b: seq<Timer>, t: Timer, d: nat, prio: Priorities)
    requires d < prio(t)
    ensures var n := Enqueue(b, t, Prio, prio);
      n[..Position(n, d, prio, 0)] == b[..Position(b, d, prio, 0)]
  {
    var k, p, n := Position(b, d, prio, 0), Position(b, prio(t), prio, 0), Enqueue(b, t, Prio, prio);
    assert p == |b| || d < prio(b[p]);
    assert k <= p;
    assert forall i :: 0 <= i < k ==> n[i] == b[i];
    assert n[k] == if k < p then b[k] else t;
    PositionUnique(n, d, prio, 0, k);
  }

  /** Expiries of unlisted timers do not move a position. */
  lemma {:induction false} PositionFrame(b: seq<Timer>, d: nat, prio: Priorities, after: Priorities)
    requires forall x :: x in b ==> after(x) == prio(x)
    ensures Position(b, d, prio, 0) == Position(b, d, after, 0)
  {
    var k := Position(b, d, prio, 0);
    forall i | 0 <= i < |b| ensures after(b[i]) == prio(b[i]) { assert b[i] in b; }
    PositionUnique(b, d, after, 0, k);
  }

  lemma {:induction false} UnlinkDue(w: Wheel, t: Timer, base: Word)
    requires OnTime(w, base)
    ensures DuePart(Unlink(w, t), base) == Without(DuePart(w, base), t)
  {
    var prio := Remaining(w.timeout, base);
    assert RowSorted(w.rows, |w.rows| - 1, prio);
    WithoutPrefix(Bottom(w), t, Slack(w, base), prio);
    UnlinkKeeps(w, t, base);
  }

  /** A restart by a positive number of ticks takes the timer out of the due part. */
  lemma {:induction false} StartDue(w: Wheel, t: Timer, base: Word)
    requires OnTime(w, base) && t in w.init && Modest(w.tick, w.init[t], base)
    ensures Start(w, t).rows != [] && DuePart(Start(w, t), base) == Without(DuePart(w, base), t)
  {
    hide OnTime, Start, Enqueue, Position, Without, Modest, Unlink;
    RowsExist(w, base);
    RestartInside(w, t, base);
    StartLater(w, t, base);
    UnlinkDue(w, t, base);
    UnlinkKeeps(w, t, base);
    BeyondDue(Without(Bottom(w), t), t, Slack(w, base),
      Remaining(w.timeout, base), Remaining(Start(w, t).timeout, base));
    UnlinkedDue(w, t, base);
  }

  lemma {:induction false} UnlinkedDue(w: Wheel, t: Timer, base: Word)
    requires w.rows != []
    ensures Unlink(w, t).rows != []
    ensures var b := Without(Bottom(w), t);
      DuePart(Unlink(w, t), base) == b[..Position(b, Slack(w, base), Remaining(w.timeout, base), 0)]
  {
    hide Without, Position;
  }

  /** What starting does to the bottom row, in terms of times remaining. */
  lemma {:induction false} StartLater(w: Wheel, t: Timer, base: Word)
    requires OnTime(w, base) && t in w.init && Modest(w.tick, w.init[t], base)
    ensures var n := Start(w, t); var after := Remaining(n.timeout, base);
      && n.rows != [] && Slack(n, base) == Slack(w, base) && Slack(w, base) < after(t)
      && Bottom(n) == Enqueue(Without(Bottom(w), t), t, Prio, after)
      && forall x :: x in Without(Bottom(w), t) ==> after(x) == Remaining(w.timeout, base)(x)
  {
    hide Rows, Placed, Within, Enqueue, Height, NoDup, Without, Minus, Plus, Remaining;
    BottomNoDup(w.rows, Remaining(w.timeout, base));
    ModestExpiry(w, w.init[t], base);
    RestartInside(w, t, base);
    StartSorted(w, t, base);
    ClearedWithin(Bottom(w), w.timeout, t, Start(w, t).timeout[t], base);
    RemainingOthers(w.timeout, t, Plus(w.tick, w.init[t]), base, Without(Bottom(w), t));
  }

  lemma {:induction false} RemainingOthers(timeout: map<Timer, Word>, t: Timer, expiry: Word, base: Word,
      list: seq<Timer>)
    requires forall x :: x in list ==> x != t
    ensures forall x :: x in list ==> Remaining(timeout[t := expiry], base)(x) == Remaining(timeout, base)(x)
  {
  }

  /** Inserting beyond a bound leaves what lies up to it. */
  lemma {:induction false} BeyondDue(rest: seq<Timer>, t: Timer, d: nat, prio: Priorities, after: Priorities)
    requires d < after(t) && forall x :: x in rest ==> after(x) == prio(x)
    ensures var n := Enqueue(rest, t, Prio, after);
      n[..Position(n, d, after, 0)] == rest[..Position(rest, d, prio, 0)]
  {
    hide Enqueue, Position;
    InsertBeyond(rest, t, d, after);
    PositionFrame(rest, d, prio, after);
  }

  lemma {:induction false} RestartKeeps(w: Wheel, t: Timer, base: Word, arm: set<Timer>)
    requires Ready(w, base, arm) && t in w.init && t in arm
    ensures Ready(Start(w, t), base, arm)
    ensures forall x :: x in Bottom(Start(w, t)) <==> x in Bottom(w) || x == t
    ensures DuePart(Start(w, t), base) == Without(DuePart(w, base), t)
  {
    hide OnTime, DuePart, Modest;
    assert Modest(w.tick, w.init[t], base);
    RestartInside(w, t, base);
    StartKeeps(w, t, base);
    StartDue(w, t, base);
    forall x | x in DuePart(Start(w, t), base) ensures Covered(Start(w, t), arm, x) {
      assert Covered(w, arm, x);
    }
  }

  lemma {:induction false} RestartInside(w: Wheel, t: Timer, base: Word)
    requires t in w.init && Modest(w.tick, w.init[t], base)
    ensures Minus(Plus(w.tick, w.init[t]), base) < HALF
  {
    ModestExpiry(w, w.init[t], base);
  }

  /** Flags, counters, periods and the temporary list do not decide what is due. */
  lemma {:induction false} FlagKeeps(w: Wheel, n: Wheel, base: Word)
    requires OnTime(w, base) && n.rows == w.rows && n.timeout == w.timeout && n.tick == w.tick
    requires n.init.Keys == w.init.Keys
    ensures OnTime(n, base) && DuePart(n, base) == DuePart(w, base)
  {
    hide OnTime;
    RowsExist(w, base);
    OnTimeFrame(w, n, base);
  }

  /** Stopping an active timer takes it out of the due part. */
  lemma {:induction false} HaltKeeps(w: Wheel, t: Timer, base: Word)
    requires OnTime(w, base) && t in w.active
    ensures OnTime(Stop(w, t), base)
    ensures DuePart(Stop(w, t), base) == Without(DuePart(w, base), t)
  {
    UnlinkKeeps(w, t, base);
    UnlinkDue(w, t, base);
    FlagKeeps(Unlink(w, t), Stop(w, t), base);
  }

  /** The due timers after an action: it can only take its own timer out. */
  ghost function DueAfter(w: Wheel, a: Action, due: seq<Timer>): seq<Timer> {
    if a.Restart? || (a.Halt? && a.t in w.active) then Without(due, a.t) else due
  }

  /** Fewer due timers, none of them newly periodic or active outside `arm`. */
  lemma {:induction false} ReadyFrom(w: Wheel, n: Wheel, base: Word, arm: set<Timer>)
    requires Ready(w, base, arm) && OnTime(n, base) && n.tick == w.tick && Periods(n.init, n.tick, base, arm)
    requires forall t :: t in DuePart(n, base) ==> t in DuePart(w, base)
    requires forall t :: Covered(w, arm, t) ==> Covered(n, arm, t)
    ensures Ready(n, base, arm)
  {
  }

  lemma {:induction false} ActCovers(w: Wheel, a: Action, base: Word, arm: set<Timer>)
    requires w.rows != [] && a.t in w.init && TameAct(a, w.tick, base, arm)
    ensures forall t :: Covered(w, arm, t) ==> Covered(Act(w, a), arm, t)
    ensures Periods(w.init, w.tick, base, arm) ==> Periods(Act(w, a).init, w.tick, base, arm)
  {
    hide Modest;
  }

  lemma {:induction false} ActKeeps(w: Wheel, a: Action, base: Word, arm: set<Timer>)
    requires Ready(w, base, arm) && a.t in w.init && TameAct(a, w.tick, base, arm)
    ensures Ready(Act(w, a), base, arm)
    ensures DuePart(Act(w, a), base) == DueAfter(w, a, DuePart(w, base))
    ensures forall t :: Covered(w, arm, t) ==> Covered(Act(w, a), arm, t)
  {
    hide OnTime, DuePart, Covered, Modest, Periods, Placed, Remove, Without;
    RowsExist(w, base);
    ActCovers(w, a, base, arm);
    if a.Restart? {
      RestartKeeps(w, a.t, base, arm);
    } else {
      if a.Halt? && a.t in w.active {
        HaltKeeps(w, a.t, base);
      } else {
        FlagKeeps(w, Act(w, a), base);
      }
      assert forall t :: t in DueAfter(w, a, DuePart(w, base)) ==> t in DuePart(w, base);
      ReadyFrom(w, Act(w, a), base, arm);
    }
  }

  lemma {:induction false} RowsExist(w: Wheel, base: Word)
    requires OnTime(w, base)
    ensures w.rows != []
  {
  }

  /** A callback that touches no timer but the one fired. */
  ghost predicate SelfOnly(acts: seq<Action>, t: Timer) {
    forall i :: 0 <= i < |acts| ==> acts[i].t == t
  }

  lemma {:induction false} WithoutLength(s: seq<Timer>, t: Timer)
    ensures |Without(s, t)| <= |s|
    ensures t in s ==> |Without(s, t)| == |s| - 1
  {
    if s != [] && s[0] != t { WithoutLength(s[1..], t); }
  }

  /** A callback never makes a timer due, and one that touches only timers that are not due changes nothing. */
  lemma {:induction false} ActsKeep(w: Wheel, acts: seq<Action>, base: Word, arm: set<Timer>)
    requires Ready(w, base, arm) && Tame(w, acts, base, arm)
    ensures Ready(Acts(w, acts), base, arm)
    ensures |DuePart(Acts(w, acts), base)| <= |DuePart(w, base)|
    ensures forall t :: SelfOnly(acts, t) && t !in DuePart(w, base) ==> DuePart(Acts(w, acts), base) == DuePart(w, base)
    ensures forall t :: Covered(w, arm, t) ==> Covered(Acts(w, acts), arm, t)
    decreases |acts|
  {
    hide Act, Ready, DuePart, Tame, Covered, TameAct;
    if acts != [] {
      ActTame(w, acts, base, arm);
      var a, n := acts[0], Act(w, acts[0]);
      ActKeeps(w, a, base, arm);
      ActsKeep(n, acts[1..], base, arm);
      WithoutLength(DuePart(w, base), a.t);
      forall t | SelfOnly(acts, t) && t !in DuePart(w, base) ensures DuePart(Acts(w, acts), base) == DuePart(w, base) {
        assert a.t == t && SelfOnly(acts[1..], t);
      }
    }
  }

  lemma {:induction false} ActTame(w: Wheel, acts: seq<Action>, base: Word, arm: set<Timer>)
    requires Ready(w, base, arm) && Tame(w, acts, base, arm) && acts != []
    ensures w.rows != [] && acts[0].t in w.init && TameAct(acts[0], w.tick, base, arm)
    ensures Tame(Act(w, acts[0]), acts[1..], base, arm)
  {
    hide TameAct, DuePart, Covered;
    assert forall i :: 0 <= i < |acts[1..]| ==> acts[1..][i] == acts[i + 1];
  }

  /** The head timer, being due, heads the due part. */
  lemma {:induction false} HeadOfDue(w: Wheel, base: Word)
    requires OnTime(w, base) && Slack(w, base) < HALF && HeadDue(w)
    ensures Bottom(w)[0] in w.init
    ensures DuePart(w, base) != [] && DuePart(w, base)[0] == Bottom(w)[0]
    ensures Without(DuePart(w, base), Bottom(w)[0]) == DuePart(w, base)[1..]
    ensures Bottom(w)[0] !in DuePart(w, base)[1..]
  {
    var b := Bottom(w);
    assert b[0] in b && b[0] in w.timeout.Keys;
    DueIsPrefix(w, base, 0);
    NoDupTail(b);
    assert forall x :: x in DuePart(w, base)[1..] ==> x in b[1..];
  }

  /** Moving the head timer to the temporary list. */
  lemma {:induction false} PickKeeps(w: Wheel, base: Word)
    requires OnTime(w, base) && Slack(w, base) < HALF && HeadDue(w)
    ensures OnTime(Pick(w), base)
    ensures Bottom(Pick(w)) == Without(Bottom(w), Bottom(w)[0]) && Bottom(w)[0] !in Bottom(Pick(w))
    ensures DuePart(Pick(w), base) == Without(DuePart(w, base), Bottom(w)[0])
  {
    hide OnTime;
    UnlinkKeeps(w, Bottom(w)[0], base);
    UnlinkDue(w, Bottom(w)[0], base);
    FlagKeeps(Unlink(w, Bottom(w)[0]), Pick(w), base);
  }

  lemma {:induction false} SettleKeeps(w: Wheel, t: Timer, base: Word, arm: set<Timer>)
    requires Ready(w, base, arm) && t in w.init && Covered(w, arm, t)
    ensures Ready(Settle(w, t), base, arm)
    ensures |DuePart(Settle(w, t), base)| <= |DuePart(w, base)|
    ensures t !in DuePart(w, base) ==> DuePart(Settle(w, t), base) == DuePart(w, base)
  {
    hide OnTime, DuePart, Periods, Unlink, Placed;
    RowsExist(w, base);
    if w.temp != [] {
      var n := w.(temp := Without(w.temp, t));
      FlagKeeps(w, n, base);
      ReadyFrom(w, n, base, arm);
      if t in w.periodic && t in w.active {
        var m := n.(active := n.active - {t});
        FlagKeeps(n, m, base);
        ReadyFrom(n, m, base, arm);
        RestartKeeps(m, t, base, arm);
        WithoutLength(DuePart(w, base), t);
      }
    }
  }

  /** One round: the wheel stays in order and at least one timer fewer is due; with a callback that touches only
      its own timer, exactly that one. */
  lemma {:induction false} FireKeeps(w: Wheel, acts: seq<Action>, base: Word, arm: set<Timer>)
    requires Ready(w, base, arm) && HeadDue(w) && Tame(w, acts, base, arm)
    ensures Bottom(w)[0] in w.init && Ready(Fire(w, acts), base, arm)
    ensures |DuePart(Fire(w, acts), base)| < |DuePart(w, base)| && DuePart(w, base)[0] == Bottom(w)[0]
    ensures SelfOnly(acts, Bottom(w)[0]) ==> DuePart(Fire(w, acts), base) == DuePart(w, base)[1..]
  {
    hide OnTime, DuePart, Periods, TameAct, Unlink;
    var t, p := Bottom(w)[0], Pick(w);
    HeadOfDue(w, base);
    PickReady(w, base, arm);
    ActsKeep(p, acts, base, arm);
    SettleKeeps(Acts(p, acts), t, base, arm);
  }

  lemma {:induction false} PickReady(w: Wheel, base: Word, arm: set<Timer>)
    requires Ready(w, base, arm) && HeadDue(w)
    ensures Ready(Pick(w), base, arm) && Bottom(w)[0] in w.init && Covered(Pick(w), arm, Bottom(w)[0])
    ensures DuePart(Pick(w), base) == DuePart(w, base)[1..] && Bottom(w)[0] !in DuePart(Pick(w), base)
    ensures Bottom(w)[0] !in Bottom(Pick(w)) && Pick(w).init == w.init && Pick(w).tick == w.tick && Pick(w).rows != []
  {
    hide OnTime, DuePart, Periods;
    HeadOfDue(w, base);
    PickKeeps(w, base);
    RowsExist(Pick(w), base);
    assert Covered(w, arm, Bottom(w)[0]);
    ReadyFrom(w, Pick(w), base, arm);
  }

  /** The loop run to its end: `script` lists what the callbacks did, round by round. */
  ghost predicate Dispatches(w: Wheel, script: seq<seq<Action>>, n: Wheel)
    decreases |script|
  {
    if !HeadDue(w) then script == [] && n == w
    else if script == [] || !Known(script[0], w.init.Keys) || Bottom(w)[0] !in w.init then false
    else Dispatches(Fire(w, script[0]), script[1..], n)
  }

  /** The timers whose callbacks run, in order. */
  ghost function Fired(w: Wheel, script: seq<seq<Action>>): seq<Timer>
    decreases |script|
  {
    if script == [] || !HeadDue(w) || !Known(script[0], w.init.Keys) || Bottom(w)[0] !in w.init then []
    else [Bottom(w)[0]] + Fired(Fire(w, script[0]), script[1..])
  }

  /** The same loop, stopped after the rounds of `script`. */
  ghost predicate Rounds(w: Wheel, script: seq<seq<Action>>, m: Wheel)
    decreases |script|
  {
    if script == [] then m == w
    else if !HeadDue(w) || !Known(script[0], w.init.Keys) || Bottom(w)[0] !in w.init then false
    else Rounds(Fire(w, script[0]), script[1..], m)
  }

  lemma {:induction false} OneMoreRound(w: Wheel, script: seq<seq<Action>>, m: Wheel, acts: seq<Action>)
    requires Rounds(w, script, m) && HeadDue(m) && Known(acts, m.init.Keys) && Bottom(m)[0] in m.init
    ensures Rounds(w, script + [acts], Fire(m, acts))
    ensures Fired(w, script + [acts]) == Fired(w, script) + [Bottom(m)[0]]
    decreases |script|
  {
    hide Fire, HeadDue, Known;
    if script == [] {
      assert script + [acts] == [acts] && [acts][1..] == [];
    } else {
      OneMoreRound(Fire(w, script[0]), script[1..], m, acts);
      assert (script + [acts])[0] == script[0] && (script + [acts])[1..] == script[1..] + [acts];
    }
  }

  lemma {:induction false} RoundsEnd(w: Wheel, script: seq<seq<Action>>, m: Wheel)
    requires Rounds(w, script, m) && !HeadDue(m)
    ensures Dispatches(w, script, m)
    decreases |script|
  {
    if script != [] { RoundsEnd(Fire(w, script[0]), script[1..], m); }
  }

  /** During its callback nothing but the fired timer is on the temporary list. */
  lemma {:induction false} ActsTemp(w: Wheel, acts: seq<Action>, t: Timer)
    requires w.rows != [] && Known(acts, w.init.Keys) && (w.temp == [] || w.temp == [t])
    ensures Acts(w, acts).temp == [] || Acts(w, acts).temp == [t]
    decreases |acts|
  {
    if acts != [] {
      assert acts[0].t in w.init;
      assert forall i :: 0 <= i < |acts[1..]| ==> acts[1..][i] == acts[i + 1];
      assert Without([t], acts[0].t) == [] || Without([t], acts[0].t) == [t];
      ActsTemp(Act(w, acts[0]), acts[1..], t);
    }
  }

  ghost predicate AllTame(w: Wheel, script: seq<seq<Action>>, base: Word, arm: set<Timer>) {
    forall i :: 0 <= i < |script| ==> Tame(w, script[i], base, arm)
  }

  /** Each callback touches only the timer it belongs to. */
  ghost predicate KeepToThemselves(w: Wheel, script: seq<seq<Action>>)
    decreases |script|
  {
    script != [] && HeadDue(w) && Known(script[0], w.init.Keys) && Bottom(w)[0] in w.init ==>
      SelfOnly(script[0], Bottom(w)[0]) && KeepToThemselves(Fire(w, script[0]), script[1..])
  }

  /** Whatever the callbacks do, every round leaves fewer due timers: no number of rounds exceeds that of the timers
      due at the start, and while a timer is due the next round can be carried out. So the loop ends. */
  lemma {:induction false} RoundsBounded(w: Wheel, script: seq<seq<Action>>, m: Wheel, base: Word, arm: set<Timer>)
    requires Ready(w, base, arm) && Rounds(w, script, m) && AllTame(w, script, base, arm)
    ensures Ready(m, base, arm) && m.tick == w.tick && m.init.Keys == w.init.Keys
    ensures |script| + |DuePart(m, base)| <= |DuePart(w, base)|
    ensures HeadDue(m) <==> DuePart(m, base) != []
    ensures HeadDue(m) ==> Bottom(m)[0] in m.init
    decreases |script|
  {
    hide OnTime, Fire, Slack, DuePart, Periods, Covered, Due;
    if script != [] {
      assert Tame(w, script[0], base, arm);
      FireKeeps(w, script[0], base, arm);
      RoundsBounded(Fire(w, script[0]), script[1..], m, base, arm);
    } else {
      HeadIsDue(w, base);
      if HeadDue(w) { HeadOfDue(w, base); }
    }
  }

  /** When it has ended, no due timer is left anywhere in the list. */
  lemma {:induction false} DispatchEnds(w: Wheel, script: seq<seq<Action>>, n: Wheel, base: Word, arm: set<Timer>)
    requires Ready(w, base, arm) && Dispatches(w, script, n) && AllTame(w, script, base, arm)
    ensures |script| == |Fired(w, script)| <= |DuePart(w, base)|
    ensures Ready(n, base, arm) && n.tick == w.tick && forall x :: x in Bottom(n) ==> !Due(n, x)
    decreases |script|
  {
    hide OnTime, Fire, Slack, DuePart, Periods, Covered, Due;
    if HeadDue(w) {
      assert Tame(w, script[0], base, arm);
      FireKeeps(w, script[0], base, arm);
      DispatchEnds(Fire(w, script[0]), script[1..], n, base, arm);
    } else {
      NoneDue(w, base, arm);
    }
  }

  lemma {:induction false} NoneDue(w: Wheel, base: Word, arm: set<Timer>)
    requires Ready(w, base, arm) && !HeadDue(w)
    ensures forall x :: x in Bottom(w) ==> !Due(w, x)
  {
    forall x | x in Bottom(w) ensures !Due(w, x) {
      var i :| 0 <= i < |Bottom(w)| && Bottom(w)[i] == x;
      DueIsPrefix(w, base, 0);
      DueIsPrefix(w, base, i);
    }
  }

  /** Callbacks that touch only their own timer: every due timer fires exactly once, in list order, that is in
      order of expiry with ties in the order they were started. */
  lemma {:induction false} FiresDueOnce(w: Wheel, script: seq<seq<Action>>, n: Wheel, base: Word, arm: set<Timer>)
    requires Ready(w, base, arm) && Dispatches(w, script, n) && AllTame(w, script, base, arm)
    requires KeepToThemselves(w, script)
    ensures Fired(w, script) == DuePart(w, base)
    decreases |script|
  {
    hide OnTime, Fire, Slack, DuePart, Periods, Covered, Due;
    if HeadDue(w) {
      assert Tame(w, script[0], base, arm);
      FireKeeps(w, script[0], base, arm);
      FiresDueOnce(Fire(w, script[0]), script[1..], n, base, arm);
    } else {
      HeadIsDue(w, base);
    }
  }

  /** Nothing about timer `x` differs. */
  ghost predicate Same(w: Wheel, n: Wheel, x: Timer)
    requires w.rows != [] && n.rows != []
  {
    && (x in Bottom(w) <==> x in Bottom(n)) && (x in w.active <==> x in n.active)
    && (x in w.periodic <==> x in n.periodic)
    && x in w.init && x in n.init && w.init[x] == n.init[x]
    && x in w.timeout && x in n.timeout && w.timeout[x] == n.timeout[x]
  }

  lemma {:induction false} StartOther(w: Wheel, t: Timer, x: Timer, base: Word, arm: set<Timer>)
    requires Ready(w, base, arm) && t in w.init && t in arm && x in w.init && x in w.timeout && x != t
    ensures Same(w, Start(w, t), x)
  {
    hide OnTime, DuePart, Periods, Covered;
    RestartKeeps(w, t, base, arm);
  }

  lemma {:induction false} StopOther(w: Wheel, t: Timer, x: Timer, base: Word)
    requires OnTime(w, base) && x in w.init && x in w.timeout && x != t
    ensures Same(w, Stop(w, t), x)
  {
    hide OnTime;
    StopKeeps(w, t, base);
  }

  lemma {:induction false} Timed(w: Wheel, x: Timer, base: Word)
    requires OnTime(w, base) && x in w.init
    ensures w.rows != [] && x in w.timeout
  {
    assert x in w.init.Keys && x in w.timeout.Keys;
  }

  lemma {:induction false} ActOther(w: Wheel, a: Action, x: Timer, base: Word, arm: set<Timer>)
    requires Ready(w, base, arm) && a.t in w.init && TameAct(a, w.tick, base, arm) && x in w.init && x != a.t
    ensures Same(w, Act(w, a), x)
  {
    hide OnTime, DuePart, Periods, Covered;
    Timed(w, x, base);
    if a.Restart? {
      StartOther(w, a.t, x, base, arm);
    } else if a.Halt? {
      StopOther(w, a.t, x, base);
    }
  }

  /** A callback that leaves timer `x` alone. */
  ghost predicate Spares(acts: seq<Action>, x: Timer) {
    forall i :: 0 <= i < |acts| ==> acts[i].t != x
  }

  lemma {:induction false} OwnSpares(acts: seq<Action>, t: Timer, x: Timer)
    requires SelfOnly(acts, t) && x != t
    ensures Spares(acts, x)
  {
  }

  lemma {:induction false} ActsOther(w: Wheel, acts: seq<Action>, x: Timer, base: Word, arm: set<Timer>)
    requires Ready(w, base, arm) && Tame(w, acts, base, arm) && Spares(acts, x) && x in w.init
    ensures Same(w, Acts(w, acts), x)
    decreases |acts|
  {
    hide OnTime, DuePart, Periods, Covered, TameAct, Act, Tame;
    if acts != [] {
      ActTame(w, acts, base, arm);
      ActKeeps(w, acts[0], base, arm);
      ActOther(w, acts[0], x, base, arm);
      assert forall i :: 0 <= i < |acts[1..]| ==> acts[1..][i] == acts[i + 1];
      ActsOther(Act(w, acts[0]), acts[1..], x, base, arm);
    } else {
      Timed(w, x, base);
    }
  }

  /** A round changes nothing about a timer that neither fires nor is touched by the callback. */
  lemma {:induction false} FireOther(w: Wheel, acts: seq<Action>, x: Timer, base: Word, arm: set<Timer>)
    requires Ready(w, base, arm) && HeadDue(w) && Tame(w, acts, base, arm) && Spares(acts, x)
    requires x in w.init && x != Bottom(w)[0]
    ensures Bottom(w)[0] in w.init && Same(w, Fire(w, acts), x)
  {
    hide OnTime, DuePart, Periods, TameAct, Ready, Unlink;
    var t, p := Bottom(w)[0], Pick(w);
    PickReady(w, base, arm);
    PickOther(w, x, base, arm);
    ActsOther(p, acts, x, base, arm);
    ActsKeep(p, acts, base, arm);
    SettleOther(Acts(p, acts), t, x, base, arm);
  }

  lemma {:induction false} PickOther(w: Wheel, x: Timer, base: Word, arm: set<Timer>)
    requires Ready(w, base, arm) && HeadDue(w) && x in w.init && x != Bottom(w)[0]
    ensures Same(w, Pick(w), x)
  {
    hide OnTime, DuePart, Periods;
    Timed(w, x, base);
    PickKeeps(w, base);
  }

  lemma {:induction false} SettleOther(w: Wheel, t: Timer, x: Timer, base: Word, arm: set<Timer>)
    requires Ready(w, base, arm) && t in w.init && Covered(w, arm, t) && x in w.init && x != t
    ensures Same(w, Settle(w, t), x)
  {
    hide OnTime, DuePart, Periods;
    Timed(w, x, base);
    if w.temp != [] && t in w.periodic && t in w.active {
      var m := w.(temp := Without(w.temp, t), active := w.active - {t});
      FlagKeeps(w, m, base);
      ReadyFrom(w, m, base, arm);
      StartOther(m, t, x, base, arm);
    }
  }

  /** The fired timer during its callback: still on the temporary list, or handed over to the list proper. */
  ghost predicate Loose(w: Wheel, t: Timer, armed: bool)
    requires w.rows != []
  {
    w.temp == [t] && t !in Bottom(w) && (t in w.active <==> armed)
  }

  ghost predicate Handed(w: Wheel, t: Timer)
    requires w.rows != []
  {
    w.temp == [] && (t in Bottom(w) <==> t in w.active)
  }

  lemma {:induction false} ActsOwn(w: Wheel, acts: seq<Action>, t: Timer, armed: bool, base: Word, arm: set<Timer>)
    requires Ready(w, base, arm) && Tame(w, acts, base, arm) && SelfOnly(acts, t)
    requires (Loose(w, t, armed) || Handed(w, t))
    ensures Loose(Acts(w, acts), t, armed) || Handed(Acts(w, acts), t)
    decreases |acts|
  {
    hide Ready, TameAct, Act, Tame, Loose, Handed;
    if acts != [] {
      var a := acts[0];
      ActTame(w, acts, base, arm);
      ActKeeps(w, a, base, arm);
      ActOwn(w, a, armed, base, arm);
      assert forall i :: 0 <= i < |acts[1..]| ==> acts[1..][i] == acts[i + 1];
      ActsOwn(Act(w, a), acts[1..], t, armed, base, arm);
    }
  }

  lemma {:induction false} StartOwn(w: Wheel, t: Timer, base: Word, arm: set<Timer>)
    requires Ready(w, base, arm) && t in w.init && t in arm && (w.temp == [] || w.temp == [t])
    ensures Handed(Start(w, t), t)
  {
    hide OnTime, DuePart, Periods, Covered;
    RestartKeeps(w, t, base, arm);
  }

  lemma {:induction false} StopOwn(w: Wheel, t: Timer, armed: bool, base: Word)
    requires OnTime(w, base) && (Loose(w, t, armed) || Handed(w, t))
    ensures Loose(Stop(w, t), t, armed) || Handed(Stop(w, t), t)
  {
    hide OnTime;
    StopKeeps(w, t, base);
  }

  lemma {:induction false} ActOwn(w: Wheel, a: Action, armed: bool, base: Word, arm: set<Timer>)
    requires Ready(w, base, arm) && a.t in w.init && TameAct(a, w.tick, base, arm)
    requires Loose(w, a.t, armed) || Handed(w, a.t)
    ensures Loose(Act(w, a), a.t, armed) || Handed(Act(w, a), a.t)
  {
    hide OnTime, DuePart, Periods, Covered;
    if a.Restart? {
      StartOwn(w, a.t, base, arm);
    } else if a.Halt? {
      StopOwn(w, a.t, armed, base);
    }
  }

  /** What becomes of the fired timer, from the state `c` its callback left. If the callback restarted or stopped
      it, that is final and it is listed exactly if it is active. Otherwise a timer that was periodic and still is
      gets re-armed for its period from now, a one-shot timer ends inactive and unlisted, and a timer whose
      callback made it one-shot ends unlisted with its active flag still set. */
  ghost predicate Outcome(periodic: bool, c: Wheel, n: Wheel, t: Timer)
    requires n.rows != [] && t in c.init
  {
    && (c.temp == [] ==> c.rows != [] && Same(c, n, t) && (t in Bottom(n) <==> t in n.active))
    && (c.temp != [] && periodic && t in c.periodic ==> Rearmed(n, t, Plus(c.tick, c.init[t])))
    && (c.temp != [] && !periodic ==> t !in Bottom(n) && t !in n.active)
    && (c.temp != [] && periodic && t !in c.periodic ==> t !in Bottom(n) && t in n.active)
  }

  ghost predicate Rearmed(w: Wheel, t: Timer, expiry: Word)
    requires w.rows != []
  {
    t in Bottom(w) && t in w.active && t in w.timeout && w.timeout[t] == expiry
  }

  lemma {:induction false} SettleOwn(w: Wheel, t: Timer, periodic: bool, base: Word, arm: set<Timer>)
    requires Ready(w, base, arm) && t in w.init && Covered(w, arm, t) && (Loose(w, t, periodic) || Handed(w, t))
    ensures Settle(w, t).temp == [] && Outcome(periodic, w, Settle(w, t), t)
  {
    hide OnTime, DuePart, Periods;
    Timed(w, t, base);
    if w.temp != [] && t in w.periodic && t in w.active {
      var m := w.(temp := Without(w.temp, t), active := w.active - {t});
      FlagKeeps(w, m, base);
      ReadyFrom(w, m, base, arm);
      RestartKeeps(m, t, base, arm);
    }
  }

  /** The fired timer's fate at the end of its round, for any callback that touches no other timer. */
  lemma {:induction false} FireOutcome(w: Wheel, acts: seq<Action>, base: Word, arm: set<Timer>)
    requires Ready(w, base, arm) && HeadDue(w) && Tame(w, acts, base, arm) && SelfOnly(acts, Bottom(w)[0])
    requires Bottom(w)[0] in w.active
    ensures Bottom(w)[0] in w.init && Fire(w, acts).temp == []
    ensures Outcome(Bottom(w)[0] in w.periodic, Acts(Pick(w), acts), Fire(w, acts), Bottom(w)[0])
  {
    hide OnTime, DuePart, Periods, TameAct, Ready, Outcome, Handed;
    var t, p := Bottom(w)[0], Pick(w);
    PickReady(w, base, arm);
    ActsOwn(p, acts, t, t in w.periodic, base, arm);
    ActsKeep(p, acts, base, arm);
    SettleOwn(Acts(p, acts), t, t in w.periodic, base, arm);
  }

  /** The wheel after `k` rounds. */
  ghost function After(w: Wheel, script: seq<seq<Action>>, k: nat): (m: Wheel)
    ensures m.tick == w.tick && m.init.Keys == w.init.Keys
    decreases k
  {
    if k == 0 || script == [] || !HeadDue(w) || !Known(script[0], w.init.Keys) || Bottom(w)[0] !in w.init then w
    else After(Fire(w, script[0]), script[1..], k - 1)
  }

  /** A timer that no round fires is left alone by the whole dispatch. */
  lemma {:induction false} NotFired(w: Wheel, script: seq<seq<Action>>, n: Wheel, base: Word, arm: set<Timer>, x: Timer)
    requires Ready(w, base, arm) && Dispatches(w, script, n) && AllTame(w, script, base, arm)
    requires KeepToThemselves(w, script)
    requires x in w.init && x !in DuePart(w, base)
    ensures w.rows != [] && n.rows != [] && Same(w, n, x)
    decreases |script|
  {
    hide OnTime, Same, Fire, Slack, DuePart, Periods, Covered, Due;
    RowsExist(w, base);
    if HeadDue(w) {
      var m := Fire(w, script[0]);
      assert Tame(w, script[0], base, arm);
      FireKeeps(w, script[0], base, arm);
      assert x in m.init.Keys;
      assert Spares(script[0], x);
      FireOther(w, script[0], x, base, arm);
      NotFired(m, script[1..], n, base, arm, x);
      SameTwice(w, m, n, x);
    } else {
      SameSelf(w, x, base);
    }
  }

  lemma {:induction false} SameSelf(w: Wheel, x: Timer, base: Word)
    requires OnTime(w, base) && x in w.init
    ensures w.rows != [] && Same(w, w, x)
  {
    Timed(w, x, base);
  }

  lemma {:induction false} SameTwice(w: Wheel, m: Wheel, n: Wheel, x: Timer)
    requires w.rows != [] && m.rows != [] && n.rows != [] && Same(w, m, x) && Same(m, n, x)
    ensures Same(w, n, x)
  {
  }

  /** The first round of a dispatch, and what is left for the rest. */
  lemma {:induction false} RoundFacts(w: Wheel, script: seq<seq<Action>>, n: Wheel, base: Word, arm: set<Timer>)
    requires Ready(w, base, arm) && Dispatches(w, script, n) && AllTame(w, script, base, arm)
    requires KeepToThemselves(w, script) && script != []
    ensures HeadDue(w) && Known(script[0], w.init.Keys) && Bottom(w)[0] in w.init && Tame(w, script[0], base, arm)
    ensures var m := Fire(w, script[0]);
      && Ready(m, base, arm) && Dispatches(m, script[1..], n)
      && AllTame(m, script[1..], base, arm) && KeepToThemselves(m, script[1..])
      && SelfOnly(script[0], Bottom(w)[0])
      && DuePart(w, base) != [] && DuePart(w, base)[0] == Bottom(w)[0] && DuePart(m, base) == DuePart(w, base)[1..]
      && Bottom(w)[0] !in DuePart(m, base)
  {
    hide OnTime, Fire, Slack, Due, DuePart, Periods, Covered;
    assert Tame(w, script[0], base, arm);
    HeadIsDue(w, base);
    FireKeeps(w, script[0], base, arm);
    HeadOfDue(w, base);
  }

  lemma {:induction false} ReadyListed(w: Wheel, base: Word, arm: set<Timer>, t: Timer)
    requires Ready(w, base, arm) && t in DuePart(w, base)
    ensures OnTime(w, base) && w.rows != [] && t in w.init && t in Bottom(w)
  {
    DueListed(w, base, t);
  }

  /** Only its own round changes a fired timer: nothing did before, and what its round, decided by its callback,
      made of it is what the whole dispatch leaves. */
  lemma {:induction false} OnlyOwnRound(w: Wheel, script: seq<seq<Action>>, n: Wheel, base: Word, arm: set<Timer>,
      k: nat)
    requires Ready(w, base, arm) && Dispatches(w, script, n) && AllTame(w, script, base, arm)
    requires KeepToThemselves(w, script)
    requires k < |script| && k < |DuePart(w, base)|
    ensures w.rows != [] && n.rows != [] && After(w, script, k).rows != [] && HeadDue(After(w, script, k))
    ensures Bottom(After(w, script, k))[0] == DuePart(w, base)[k]
    ensures Same(w, After(w, script, k), DuePart(w, base)[k])
    ensures Ready(After(w, script, k), base, arm) && Tame(After(w, script, k), script[k], base, arm)
    ensures SelfOnly(script[k], DuePart(w, base)[k])
    ensures DuePart(w, base)[k] in After(w, script, k).init
    ensures Same(Fire(After(w, script, k), script[k]), n, DuePart(w, base)[k])
    decreases k
  {
    hide Ready, OnTime, Same, Fire, Slack, Due, AllTame, Tame, Dispatches, KeepToThemselves, DuePart, SelfOnly;
    RoundFacts(w, script, n, base, arm);
    var m, t := Fire(w, script[0]), DuePart(w, base)[k];
    ReadyListed(w, base, arm, t);
    if k == 0 {
      SameSelf(w, t, base);
      NotFired(m, script[1..], n, base, arm, t);
    } else {
      assert t == DuePart(m, base)[k - 1];
      OnlyOwnRound(m, script[1..], n, base, arm, k - 1);
      OwnSpares(script[0], Bottom(w)[0], t);
      FireOther(w, script[0], t, base, arm);
      SameTwice(w, m, After(w, script, k), t);
    }
  }

  /** Only active timers are listed. */
  ghost predicate Registered(w: Wheel)
    requires w.rows != []
  {
    forall x :: x in Bottom(w) ==> x in w.active
  }

  lemma {:induction false} OutcomeStays(periodic: bool, c: Wheel, m: Wheel, n: Wheel, t: Timer)
    requires m.rows != [] && n.rows != [] && t in c.init && Outcome(periodic, c, m, t) && Same(m, n, t)
    ensures Outcome(periodic, c, n, t)
  {
  }

  /** What the whole dispatch leaves of each fired timer is what its round made of it: final if its callback restarted
      or stopped it, re-armed from the current tick if it is periodic, unlisted and inactive if it is one-shot. */
  lemma {:induction false} DispatchFate(w: Wheel, script: seq<seq<Action>>, n: Wheel, base: Word, arm: set<Timer>,
      k: nat)
    requires Ready(w, base, arm) && Dispatches(w, script, n) && AllTame(w, script, base, arm)
    requires KeepToThemselves(w, script)
    requires Registered(w) && k < |script| && k < |DuePart(w, base)|
    ensures var m, t := After(w, script, k), DuePart(w, base)[k];
      && n.rows != [] && HeadDue(m) && Bottom(m)[0] == t && Pick(m).rows != [] && Known(script[k], Pick(m).init.Keys)
      && var c := Acts(Pick(m), script[k]); t in c.init && Outcome(t in w.periodic, c, n, t)
  {
    hide Ready, OnTime, Fire, Slack, Due, AllTame, Dispatches, KeepToThemselves, DuePart, SelfOnly, Outcome, After;
    OnlyOwnRound(w, script, n, base, arm, k);
    var m, t := After(w, script, k), DuePart(w, base)[k];
    ReadyListed(w, base, arm, t);
    PickReady(m, base, arm);
    FireOutcome(m, script[k], base, arm);
    var c := Acts(Pick(m), script[k]);
    assert t in c.init.Keys;
    OutcomeStays(t in w.periodic, c, Fire(m, script[k]), n, t);
  }

  /** In particular, after a callback that leaves the timers alone. */
  lemma {:induction false} QuietFate(w: Wheel, script: seq<seq<Action>>, n: Wheel, base: Word, arm: set<Timer>, k: nat)
    requires Ready(w, base, arm) && Dispatches(w, script, n) && AllTame(w, script, base, arm)
    requires KeepToThemselves(w, script)
    requires Registered(w) && k < |script| && k < |DuePart(w, base)| && script[k] == []
    ensures var t := DuePart(w, base)[k];
      && n.rows != [] && t in w.init
      && if t in w.periodic then Rearmed(n, t, Plus(w.tick, w.init[t])) else t !in Bottom(n) && t !in n.active
  {
    hide Ready, OnTime, Fire, Slack, Due, AllTame, Dispatches, KeepToThemselves, DuePart, SelfOnly, Rearmed, After;
    OnlyOwnRound(w, script, n, base, arm, k);
    DispatchFate(w, script, n, base, arm, k);
  }

  lemma {:induction false} DueListed(w: Wheel, base: Word, t: Timer)
    requires OnTime(w, base) && t in DuePart(w, base)
    ensures t in w.init && t in Bottom(w) && (Slack(w, base) < HALF ==> Due(w, t))
  {
    assert t in Bottom(w);
    assert t in w.timeout.Keys && t in w.init.Keys;
    if Slack(w, base) < HALF {
      var i :| 0 <= i < |DuePart(w, base)| && DuePart(w, base)[i] == t;
      DueIsPrefix(w, base, i);
    }
  }

  /** The periods of due timers that their rounds re-arm stay inside the half range, zero included. */
  ghost predicate Fits(w: Wheel, base: Word)
    requires w.rows != []
  {
    Slack(w, base) < HALF && forall t :: t in DuePart(w, base) ==> FitsIn(w, base, t)
  }

  ghost predicate FitsIn(w: Wheel, base: Word, t: Timer) {
    t in w.periodic && t in w.active && t in w.init ==> Slack(w, base) + w.init[t] < HALF
  }

  /** A due timer that its round will re-arm for the current tick. */
  ghost predicate Zeroed(w: Wheel, t: Timer, base: Word)
    requires w.rows != []
  {
    t in DuePart(w, base) && t in w.periodic && t in w.active && t in w.init && w.init[t] == 0
  }

  /** What one round with a callback that does nothing makes of the list. */
  lemma {:induction false} QuietRound(w: Wheel, base: Word)
    requires OnTime(w, base) && Fits(w, base) && HeadDue(w)
    ensures Bottom(w)[0] in w.init && OnTime(Fire(w, []), base)
    ensures var t, n := Bottom(w)[0], Fire(w, []);
      if t in w.periodic && t in w.active
      then Rearmed(n, t, Plus(w.tick, w.init[t])) && (w.init[t] > 0 ==> DuePart(n, base) == DuePart(w, base)[1..])
      else DuePart(n, base) == DuePart(w, base)[1..] && t !in Bottom(n)
    ensures forall x :: x in Bottom(w) && x != Bottom(w)[0] ==> x in Bottom(Fire(w, []))
    ensures forall x :: x in Bottom(Fire(w, [])) ==> x in Bottom(w)
    ensures Fire(w, []).periodic == w.periodic && Fire(w, []).init == w.init
    ensures forall x :: x != Bottom(w)[0] ==> (x in Fire(w, []).active <==> x in w.active)
    ensures forall x :: x != Bottom(w)[0] ==> (Due(w, x) <==> Due(Fire(w, []), x))
  {
    hide OnTime, Rearmed, DuePart;
    var t, p := Bottom(w)[0], Pick(w);
    HeadOfDue(w, base);
    PickKeeps(w, base);
    assert FitsIn(w, base, t);
    if t in w.periodic && t in w.active {
      QuietRestart(p, t, base);
    } else {
      FlagKeeps(p, p.(temp := Without(p.temp, t)), base);
    }
  }

  lemma {:induction false} QuietRestart(p: Wheel, t: Timer, base: Word)
    requires OnTime(p, base) && t in p.init && Slack(p, base) + p.init[t] < HALF
    requires p.rows != [] && t !in DuePart(p, base) && p.temp == [t] && t in p.periodic && t in p.active
    ensures OnTime(Settle(p, t), base) && Rearmed(Settle(p, t), t, Plus(p.tick, p.init[t]))
    ensures p.init[t] > 0 ==> DuePart(Settle(p, t), base) == DuePart(p, base)
    ensures forall x :: x in Bottom(Settle(p, t)) <==> x in Bottom(p) || x == t
  {
    hide OnTime, DuePart, Placed, Remove;
    var m := p.(temp := [], active := p.active - {t});
    FlagKeeps(p, m, base);
    StartKeeps(m, t, base);
    if p.init[t] > 0 { StartDue(m, t, base); }
  }

  /** The due timers of the next round were due before, so their periods fit still. */
  lemma {:induction false} QuietFits(w: Wheel, base: Word)
    requires OnTime(w, base) && Fits(w, base) && HeadDue(w)
    ensures Bottom(w)[0] in w.init && Fits(Fire(w, []), base)
    ensures forall x :: x in DuePart(Fire(w, []), base) ==> x in DuePart(w, base)
  {
    hide OnTime, DuePart, Fire, Due;
    SlackSmall(w, base);
    HeadOfDue(w, base);
    QuietRound(w, base);
    var t, n := Bottom(w)[0], Fire(w, []);
    forall x | x in DuePart(n, base) ensures x in DuePart(w, base) && FitsIn(n, base, x) {
      DueListed(n, base, x);
      if x != t { DueHas(w, x, base); }
      assert FitsIn(w, base, x);
    }
  }

  lemma {:induction false} ZeroStays(w: Wheel, t: Timer, base: Word)
    requires OnTime(w, base) && Fits(w, base) && Zeroed(w, t, base)
    ensures HeadDue(w) && Bottom(w)[0] in w.init && Zeroed(Fire(w, []), t, base)
  {
    hide OnTime, Fire, DuePart, Fits;
    RowsExist(w, base);
    SlackSmall(w, base);
    DueListed(w, base, t);
    HeadIsDue(w, base);
    HeadOfDue(w, base);
    QuietRound(w, base);
    var n := Fire(w, []);
    assert t == Bottom(w)[0] ==> n.timeout[t] == w.tick;
    DueHas(n, t, base);
  }

  lemma {:induction false} SlackSmall(w: Wheel, base: Word)
    requires w.rows != [] && Fits(w, base)
    ensures Slack(w, base) < HALF
  {
  }

  lemma {:induction false} HeadIsDue(w: Wheel, base: Word)
    requires OnTime(w, base) && Slack(w, base) < HALF
    ensures w.rows != [] && (HeadDue(w) <==> DuePart(w, base) != [])
  {
    if Bottom(w) != [] { DueIsPrefix(w, base, 0); }
  }

  lemma {:induction false} DueHas(w: Wheel, t: Timer, base: Word)
    requires OnTime(w, base) && Slack(w, base) < HALF && t in Bottom(w) && Due(w, t)
    ensures t in DuePart(w, base)
  {
    var i :| 0 <= i < |Bottom(w)| && Bottom(w)[i] == t;
    DueIsPrefix(w, base, i);
    assert DuePart(w, base)[i] == t;
  }

  /** Callbacks that do nothing, round after round. */
  ghost predicate Quiet(script: seq<seq<Action>>) {
    forall i :: 0 <= i < |script| ==> script[i] == []
  }

  lemma {:induction false} ZeroNeverEnds(w: Wheel, t: Timer, base: Word, script: seq<seq<Action>>, n: Wheel)
    requires OnTime(w, base) && Fits(w, base) && Zeroed(w, t, base) && Quiet(script)
    ensures !Dispatches(w, script, n)
    decreases |script|
  {
    hide OnTime, Fire, DuePart, HeadDue, Fits, Zeroed;
    ZeroStays(w, t, base);
    if script != [] {
      QuietRound(w, base);
      QuietFits(w, base);
      ZeroNeverEnds(Fire(w, []), t, base, script[1..], n);
    }
  }

  ghost predicate NoneZeroed(w: Wheel, base: Word)
    requires w.rows != []
  {
    forall t :: t in DuePart(w, base) ==> !Zeroed(w, t, base)
  }

  /** A round that re-arms nothing for the current tick takes its timer out of the due ones for good. */
  lemma {:induction false} PositiveRound(w: Wheel, base: Word)
    requires OnTime(w, base) && Fits(w, base) && NoneZeroed(w, base) && HeadDue(w)
    ensures Bottom(w)[0] in w.init && OnTime(Fire(w, []), base) && Fits(Fire(w, []), base)
    ensures NoneZeroed(Fire(w, []), base) && |DuePart(Fire(w, []), base)| < |DuePart(w, base)|
  {
    hide OnTime, Fire, DuePart;
    HeadOfDue(w, base);
    QuietRound(w, base);
    QuietFits(w, base);
    var t, m := Bottom(w)[0], Fire(w, []);
    assert t in DuePart(w, base) && !Zeroed(w, t, base);
    assert DuePart(m, base) == DuePart(w, base)[1..];
    forall x | x in DuePart(m, base) ensures !Zeroed(m, x, base) {
      assert x in DuePart(w, base) && !Zeroed(w, x, base) && x != t;
    }
  }

  lemma {:induction false} QuietMore(w: Wheel, rest: seq<seq<Action>>, n: Wheel)
    requires HeadDue(w) && Bottom(w)[0] in w.init && Dispatches(Fire(w, []), rest, n) && Quiet(rest)
    ensures Quiet([[]] + rest) && Dispatches(w, [[]] + rest, n)
  {
    assert ([[]] + rest)[0] == [] && ([[]] + rest)[1..] == rest;
  }

  lemma {:induction false} PositiveEnds(w: Wheel, base: Word) returns (script: seq<seq<Action>>, n: Wheel)
    requires OnTime(w, base) && Fits(w, base) && NoneZeroed(w, base)
    ensures Quiet(script) && Dispatches(w, script, n)
    decreases |DuePart(w, base)|
  {
    if HeadDue(w) {
      hide *;
      PositiveRound(w, base);
      var rest;
      rest, n := PositiveEnds(Fire(w, []), base);
      script := [[]] + rest;
      QuietMore(w, rest, n);
    } else {
      script, n := [], w;
    }
  }

  /** With callbacks that do nothing, the dispatch loop ends exactly if no due periodic timer has a period of
      zero ticks. */
  lemma {:induction false} EndsExactly(w: Wheel, base: Word)
    requires OnTime(w, base) && Fits(w, base)
    ensures (exists script, n :: Quiet(script) && Dispatches(w, script, n))
       <==> NoneZeroed(w, base)
  {
    if NoneZeroed(w, base) {
      var script, n := PositiveEnds(w, base);
      assert Quiet(script) && Dispatches(w, script, n);
    } else {
      var t :| t in DuePart(w, base) && Zeroed(w, t, base);
      forall script, n | Quiet(script) ensures !Dispatches(w, script, n) {
        ZeroNeverEnds(w, t, base, script, n);
      }
    }
  }
}
