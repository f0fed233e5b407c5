/** The timer module's mutable state and its loops (`rt-thread/src/timer.c`), proved against `Timers` and
    `TimerCheck`. Rows are lists of timers; `row_head` cursors are positions in them. */
module TimerWheel {
  import opened KernelTypes
  import opened Lists
  import opened WaitList
  import opened SkipList
  import opened Timers
  import opened TimerCheck
  import TimerRuns

  ghost predicate Inside(rows: seq<seq<Timer>>, head: seq<nat>) {
    |head| == |rows| && forall l :: 0 <= l < |rows| ==> head[l] <= |rows[l]|
  }

  ghost predicate AtCursors(rows: seq<seq<Timer>>, head: seq<nat>, timeout: map<Timer, Word>, t: Timer) {
    |head| == |rows| && forall l :: 0 <= l < |rows| ==> head[l] == Cursor(rows, timeout, t, l)
  }

  /** The lowest `h` rows with `t` inserted at the given positions. */
  ghost function PlacedAt(rows: seq<seq<Timer>>, head: seq<nat>, t: Timer, h: nat): seq<seq<Timer>>
    requires Inside(rows, head)
  {
    seq(|rows|, i requires 0 <= i < |rows| => if i + h >= |rows| then InsertAt(rows[i], head[i], t) else rows[i])
  }

  lemma {:induction false} PlacedAtMore(rows: seq<seq<Timer>>, head: seq<nat>, t: Timer, h: nat, i: nat)
    requires Inside(rows, head) && i + h + 1 == |rows|
    ensures |head| == |rows| && head[i] <= |rows[i]|
    ensures |PlacedAt(rows, head, t, h)| == |rows| && PlacedAt(rows, head, t, h)[i] == rows[i]
    ensures PlacedAt(rows, head, t, h)[i := InsertAt(rows[i], head[i], t)] == PlacedAt(rows, head, t, h + 1)
  {
  }

  lemma {:induction false} PlacedAtNone(rows: seq<seq<Timer>>, head: seq<nat>, t: Timer)
    requires Inside(rows, head)
    ensures PlacedAt(rows, head, t, 0) == rows
  {
  }

  lemma {:induction false} HeightMore(levels: nat, nr: Word)
    requires levels >= 1
    ensures Height(levels, nr) == (if levels == 1 || !LowBitsClear(nr) then 1 else 1 + Height(levels - 1, Shifted(nr)))
  {
  }

  lemma {:induction false} PlacedAtCursors(rows: seq<seq<Timer>>, head: seq<nat>, timeout: map<Timer, Word>, t: Timer,
      h: nat)
    requires AtCursors(rows, head, timeout, t)
    ensures Inside(rows, head)
    ensures PlacedAt(rows, head, t, h) == Placed(rows, timeout, t, h)
  {
  }

  /** The inner search loop of `rt_timer_start` on one row. */
  method ScanRow(row: seq<Timer>, timeout: map<Timer, Word>, t: Timer, from: nat) returns (p: nat)
    requires from <= |row|
    ensures p == Scan(row, timeout, t, from)
  {
    p := from;
    while p != |row| && !Later(timeout, row[p], t)
      invariant from <= p <= |row| && Scan(row, timeout, t, from) == Scan(row, timeout, t, p)
      decreases |row| - p
    {
      p := p + 1;
    }
  }

  /** The outer search loop: every row is scanned from where the row above stopped. */
  method FindHeads(rows: seq<seq<Timer>>, timeout: map<Timer, Word>, t: Timer) returns (head: seq<nat>)
    ensures AtCursors(rows, head, timeout, t)
  {
    hide Scan, Entry;
    head := seq(|rows|, i => 0);
    var l := 0;
    while l < |rows|
      invariant 0 <= l <= |rows| == |head|
      invariant forall j :: 0 <= j < l ==> head[j] == Cursor(rows, timeout, t, j)
      invariant l < |rows| ==> head[l] == (if l == 0 then 0 else Entry(rows[l - 1], head[l - 1], rows[l]))
    {
      var p := ScanRow(rows[l], timeout, t, head[l]);
      head := head[l := p];
      if l != |rows| - 1 {
        head := head[l + 1 := Entry(rows[l], p, rows[l + 1])];
      }
      l := l + 1;
    }
  }

  /** The insertion loop: the bottom row always, each higher row while the counter's next two bits are zero. */
  method InsertAtHeads(was: seq<seq<Timer>>, head: seq<nat>, t: Timer, randomNr: Word) returns (rows: seq<seq<Timer>>)
    requires was != [] && Inside(was, head)
    ensures rows == PlacedAt(was, head, t, Height(|was|, randomNr))
  {
    var tstNr, n, rowLvl := randomNr, |was|, 2;
    PlacedAtNone(was, head, t);
    PlacedAtMore(was, head, t, 0, n - 1);
    hide *;
    rows := was[n - 1 := InsertAt(was[n - 1], head[n - 1], t)];
    while rowLvl <= n && LowBitsClear(tstNr)
      invariant 2 <= rowLvl <= n + 1 && |rows| == n
      invariant Height(n, randomNr) == rowLvl - 2 + Height(n - rowLvl + 2, tstNr)
      invariant rows == PlacedAt(was, head, t, rowLvl - 1)
      decreases n - rowLvl
    {
      HeightMore(n - rowLvl + 2, tstNr);
      var i := n - rowLvl;
      PlacedAtMore(was, head, t, rowLvl - 1, i);
      rows := rows[i := InsertAt(rows[i], head[i], t)];
      tstNr := Shifted(tstNr);
      rowLvl := rowLvl + 1;
    }
    HeightMore(n - rowLvl + 2, tstNr);
  }

  /** What holds each time round the dispatch loop. */
  ghost predicate CheckInv(w0: Wheel, script: seq<seq<Action>>, w: Wheel, base: Word, arm: set<Timer>) {
    && Ready(w, base, arm) && w.tick == w0.tick && w.init.Keys == w0.init.Keys
    && Rounds(w0, script, w) && AllTame(w0, script, base, arm)
  }

  lemma {:induction false} CheckStart(w: Wheel, base: Word, arm: set<Timer>)
    requires Ready(w, base, arm)
    ensures CheckInv(w, [], w, base, arm) && w.rows != []
  {
  }

  lemma {:induction false} HeadTest(w0: Wheel, script: seq<seq<Action>>, w: Wheel, base: Word, arm: set<Timer>)
    requires CheckInv(w0, script, w, base, arm) && w.rows != []
    ensures Bottom(w) == [] ==> !HeadDue(w)
    ensures Bottom(w) != [] ==> Bottom(w)[0] in w.timeout && Bottom(w)[0] in w.init && Bottom(w)[0] in w0.init
    ensures Bottom(w) != [] ==> (HeadDue(w) <==> Minus(w.tick, w.timeout[Bottom(w)[0]]) < HALF)
  {
    hide Rows, DuePart, Periods, Covered, AllTame;
    assert Bottom(w) != [] ==> Bottom(w)[0] in Bottom(w);
    assert Bottom(w) != [] ==> Bottom(w)[0] in w.timeout.Keys && Bottom(w)[0] in w.init.Keys;
    assert Bottom(w) != [] ==> Bottom(w)[0] in w0.init.Keys;
  }

  /** No timer of the list is due. */
  ghost predicate NoneLeft(w: Wheel) {
    w.rows != [] && forall x :: x in Bottom(w) ==> !Due(w, x)
  }

  lemma {:induction false} CheckEnd(w0: Wheel, script: seq<seq<Action>>, w: Wheel, base: Word, arm: set<Timer>)
    requires Ready(w0, base, arm) && CheckInv(w0, script, w, base, arm) && !HeadDue(w)
    ensures Dispatches(w0, script, w) && AllTame(w0, script, base, arm) && w0.rows != []
    ensures |script| <= |DuePart(w0, base)| && NoneLeft(w)
  {
    hide OnTime, Fire, DuePart, Due, Periods, Covered;
    RowsExist(w0, base);
    RowsExist(w, base);
    RoundsEnd(w0, script, w);
    DispatchEnds(w0, script, w, base, arm);
  }

  lemma {:induction false} CheckStep(w0: Wheel, script: seq<seq<Action>>, w: Wheel, acts: seq<Action>, base: Word,
      arm: set<Timer>)
    requires CheckInv(w0, script, w, base, arm) && HeadDue(w) && Tame(w0, acts, base, arm)
    ensures Bottom(w)[0] in w.init && Known(acts, w.init.Keys)
    ensures CheckInv(w0, script + [acts], Fire(w, acts), base, arm)
    ensures |DuePart(Fire(w, acts), base)| < |DuePart(w, base)|
    ensures Fired(w0, script + [acts]) == Fired(w0, script) + [Bottom(w)[0]]
  {
    hide OnTime, Fire, DuePart, Due, Slack, TameAct, Ready;
    assert Tame(w, acts, base, arm);
    FireKeeps(w, acts, base, arm);
    TameKnown(w, acts, base, arm);
    OneMoreRound(w0, script, w, acts);
  }

  /** Round by round, the script is what the fired timers' callbacks do. */
  ghost predicate Follows(w: Wheel, script: seq<seq<Action>>, calls: (nat, Timer) -> seq<Action>) {
    |Fired(w, script)| == |script| && forall i :: 0 <= i < |script| ==> script[i] == calls(i, Fired(w, script)[i])
  }

  lemma {:induction false} FollowsNone(w: Wheel, calls: (nat, Timer) -> seq<Action>)
    ensures Follows(w, [], calls)
  {
  }

  lemma {:induction false} FollowsMore(w: Wheel, script: seq<seq<Action>>, t: Timer, calls: (nat, Timer) -> seq<Action>)
    requires Follows(w, script, calls)
    requires Fired(w, script + [calls(|script|, t)]) == Fired(w, script) + [t]
    ensures Follows(w, script + [calls(|script|, t)], calls)
  {
  }

  lemma {:induction false} TameKnown(w: Wheel, acts: seq<Action>, base: Word, arm: set<Timer>)
    requires Tame(w, acts, base, arm)
    ensures Known(acts, w.init.Keys)
  {
  }

  /** What a tick asks of the periods: see `TimerRuns.Enabled`. */
  ghost predicate NextTick(w: Wheel, arm: set<Timer>) {
    && w.rows != [] && Periods(w.init, Plus(w.tick, 1), TimerRuns.From(w), arm)
    && forall t :: t in Bottom(w) && Due(TimerRuns.Advance(w), t) ==> Covered(w, arm, t)
  }

  lemma {:induction false} NextReady(w: Wheel, arm: set<Timer>)
    requires TimerRuns.Steady(w) && NextTick(w, arm)
    ensures Ready(w.(tick := Plus(w.tick, 1)), TimerRuns.From(w), arm) && w.temp == []
    ensures TimerRuns.Advance(w) == w.(tick := Plus(w.tick, 1))
  {
    TimerRuns.TickReady(w, arm);
  }

  lemma {:induction false} TickDone(w: Wheel, script: seq<seq<Action>>, arm: set<Timer>, n: Wheel)
    requires TimerRuns.Steady(w) && NextTick(w, arm)
    requires var m := w.(tick := Plus(w.tick, 1));
      Dispatches(m, script, n) && AllTame(m, script, TimerRuns.From(w), arm)
    ensures TimerRuns.Enabled(w, TimerRuns.DoTick(script, arm, n)) && TimerRuns.Steady(n)
  {
    hide TimerRuns.Steady, Dispatches, AllTame, Periods, Covered, Due;
    TimerRuns.TickSteady(w, script, arm, n);
  }

  class TimerList {
    var rows: seq<seq<Timer>>
    var temp: seq<Timer>
    var timeout: map<Timer, Word>
    var init: map<Timer, Word>
    var periodic: set<Timer>
    var active: set<Timer>
    var randomNr: Word
    var tick: Word

    ghost function View(): Wheel
      reads this
    {
      Wheel(rows, temp, timeout, init, periodic, active, randomNr, tick)
    }

    /** `rt_system_timer_init`: empty rows. */
    constructor (levels: nat)
      requires levels >= 1
      ensures View() == Wheel(seq(levels, i => []), [], map[], map[], {}, {}, 0, 0)
    {
      rows := seq(levels, i => []);
      temp, timeout, init, periodic, active, randomNr, tick := [], map[], map[], {}, {}, 0, 0;
    }

    /** `rt_timer_init`, whose assertion keeps the period below half the tick range. */
    method Create(t: Timer, ticks: Word, isPeriodic: bool)
      requires ticks < HALF && t !in init
      modifies this`timeout, this`init, this`periodic, this`active
      ensures View() == old(View()).(timeout := old(timeout)[t := 0], init := old(init)[t := ticks],
        periodic := if isPeriodic then old(periodic) + {t} else old(periodic) - {t}, active := old(active) - {t})
    {
      periodic := if isPeriodic then periodic + {t} else periodic - {t};
      active := active - {t};
      timeout, init := timeout[t := 0], init[t := ticks];
    }

    /** `_timer_remove`. */
    method RemoveTimer(t: Timer)
      modifies this`rows, this`temp
      ensures View() == Unlink(old(View()), t)
    {
      var i := 0;
      while i < |rows|
        invariant 0 <= i <= |rows| == |old(rows)| && temp == old(temp)
        invariant forall j :: 0 <= j < i ==> rows[j] == Without(old(rows)[j], t)
        invariant forall j :: i <= j < |rows| ==> rows[j] == old(rows)[j]
      {
        rows := rows[i := Without(rows[i], t)];
        i := i + 1;
      }
      temp := Without(temp, t);
      assert rows == Remove(old(rows), t);
    }

    /** `rt_timer_start`. */
    method StartTimer(t: Timer)
      requires rows != [] && t in init
      modifies this`rows, this`temp, this`timeout, this`active, this`randomNr
      ensures View() == Start(old(View()), t)
    {
      RemoveTimer(t);
      active := active - {t};
      timeout := timeout[t := Plus(tick, init[t])];
      var head := FindHeads(rows, timeout, t);
      randomNr := Plus(randomNr, 1);
      rows := InsertAtHeads(rows, head, t, randomNr);
      PlacedAtCursors(Remove(old(rows), t), head, timeout, t, Height(|rows|, randomNr));
      active := active + {t};
      assert active == old(active) + {t};
    }

    /** `rt_timer_stop`. */
    method StopTimer(t: Timer) returns (ok: bool)
      modifies this`rows, this`temp, this`active
      ensures ok == (t in old(active)) && View() == Stop(old(View()), t)
    {
      if t !in active { return false; }
      RemoveTimer(t);
      active := active - {t};
      return true;
    }

    /** A callback, as the calls it makes. */
    method CallTimeout(acts: seq<Action>)
      requires rows != [] && Known(acts, init.Keys)
      modifies this`rows, this`temp, this`timeout, this`active, this`randomNr, this`init, this`periodic
      ensures View() == Acts(old(View()), acts) && rows != []
    {
      hide Without, Height, Cursor, InsertAt, Minus, Plus;
      var i := 0;
      while i < |acts|
        invariant 0 <= i <= |acts| && rows != [] && init.Keys == old(init.Keys)
        invariant Known(acts[i..], init.Keys) && Acts(old(View()), acts) == Acts(View(), acts[i..])
        invariant tick == old(tick)
        decreases |acts| - i
      {
        ghost var before, rest := View(), acts[i..];
        assert rest[0] == acts[i] && rest[1..] == acts[i + 1..];
        match acts[i] {
          case Restart(t) => StartTimer(t);
          case Halt(t) => var ok := StopTimer(t);
          case SetTime(t, ticks) => init := init[t := ticks];
          case SetOneShot(t) => periodic := periodic - {t};
          case SetPeriodic(t) => periodic := periodic + {t};
        }
        assert View() == Act(before, rest[0]);
        i := i + 1;
      }
      assert acts[i..] == [];
    }

    /** The body of the dispatch loop for a due head timer whose callback does `acts`. */
    method FireHead(acts: seq<Action>)
      requires HeadDue(View()) && Known(acts, init.Keys) && rows[|rows| - 1][0] in init && temp == []
      modifies this`rows, this`temp, this`timeout, this`active, this`randomNr, this`init, this`periodic
      ensures View() == Fire(old(View()), acts) && temp == []
    {
      var t := rows[|rows| - 1][0];
      RemoveTimer(t);
      if t !in periodic { active := active - {t}; }
      temp := [t] + temp;
      ghost var picked := View();
      assert picked == Pick(old(View()));
      CallTimeout(acts);
      ActsTemp(picked, acts, t);
      if temp != [] {
        temp := Without(temp, t);
        if t in periodic && t in active {
          active := active - {t};
          StartTimer(t);
        }
      }
    }

    /** `rt_timer_check`. `calls` says what the callback of a timer does when it runs in a given round. The loop
        ends within as many rounds as timers are due, and leaves the state a dispatch must leave. */
    method Check(calls: (nat, Timer) -> seq<Action>, ghost base: Word, ghost arm: set<Timer>)
      returns (ghost script: seq<seq<Action>>)
      requires Ready(View(), base, arm) && temp == []
      requires forall i: nat, t: Timer :: t in init ==> Tame(View(), calls(i, t), base, arm)
      modifies this`rows, this`temp, this`timeout, this`active, this`randomNr, this`init, this`periodic
      ensures Dispatches(old(View()), script, View()) && AllTame(old(View()), script, base, arm) && temp == []
      ensures Follows(old(View()), script, calls) && old(View()).rows != []
      ensures |script| <= |DuePart(old(View()), base)| && NoneLeft(View())
    {
      hide Ready, Tame, AllTame, Dispatches, Follows, CheckInv, HeadDue, Fire, DuePart, NoneLeft, OnTime, Known, Minus;
      hide Fired, Rounds;
      ghost var w0 := View();
      script := [];
      var round, currentTick := 0, tick;
      CheckStart(w0, base, arm);
      FollowsNone(w0, calls);
      while |rows[|rows| - 1]| != 0
        invariant CheckInv(w0, script, View(), base, arm) && rows != [] && temp == []
        invariant currentTick == tick && round == |script| && Follows(w0, script, calls)
        decreases |DuePart(View(), base)|
      {
        var t := rows[|rows| - 1][0];
        HeadTest(w0, script, View(), base, arm);
        if Minus(currentTick, timeout[t]) >= HALF { break; }
        ghost var w, acts := View(), calls(round, t);
        CheckStep(w0, script, w, acts, base, arm);
        FollowsMore(w0, script, Bottom(w)[0], calls);
        FireHead(calls(round, t));
        currentTick := tick;
        script := script + [acts];
        round := round + 1;
      }
      HeadTest(w0, script, View(), base, arm);
      CheckEnd(w0, script, View(), base, arm);
    }

    /** What `rt_tick_increase` does to the timers: a tick of the runs in `TimerRuns`. */
    method TickIncrease(calls: (nat, Timer) -> seq<Action>, ghost arm: set<Timer>)
      returns (ghost script: seq<seq<Action>>)
      requires TimerRuns.Steady(View()) && NextTick(View(), arm)
      requires forall i: nat, t: Timer :: t in init ==>
        Tame(TimerRuns.Advance(View()), calls(i, t), TimerRuns.From(View()), arm)
      modifies this`rows, this`temp, this`timeout, this`active, this`randomNr, this`init, this`periodic, this`tick
      ensures TimerRuns.Enabled(old(View()), TimerRuns.DoTick(script, arm, View())) && TimerRuns.Steady(View())
    {
      hide TimerRuns.Steady, TimerRuns.Enabled, Tame, Ready, Dispatches, AllTame, Follows, DuePart, NoneLeft;
      ghost var w := View();
      NextReady(w, arm);
      tick := Plus(tick, 1);
      script := Check(calls, TimerRuns.From(w), arm);
      TickDone(w, script, arm, View());
    }
  }
}
