/** Event flags (`rt_event_*` in `rt-thread/src/ipc.c`): threads wait for all or any of a set of bits, and a
    send sweeps the wait list while satisfied waiters may clear bits on the way. */
module EventFlags {
  import opened Lists
  import opened WaitList
  import opened Lanes

  /** A 32-bit mask as the set of its bit numbers: `|`, `&` and `& ~` are union, intersection and difference. */
  type Mask = set<nat>

  /** `RT_EVENT_FLAG_AND`, `_OR` and `_CLEAR`. */
  datatype Options = Options(all: bool, any: bool, clear: bool)

  /** A suspended thread with its `event_set` and `event_info`. */
  datatype Waiter = Waiter(t: Tid, want: Mask, opt: Options)

  datatype Ev = Ev(set_: Mask, waiters: seq<Waiter>)

  /** The test both receive and send make; AND takes precedence when both flags are given. */
  predicate Satisfied(set_: Mask, want: Mask, opt: Options) {
    if opt.all then set_ * want == want else opt.any && set_ * want != {}
  }

  /** What `rt_event_send` leaves in `event_set` of a satisfied waiter, and in the event. */
  function Reported(set_: Mask, w: Waiter): Mask {
    if w.opt.all then w.want else w.want * set_
  }

  function Remaining(set_: Mask, w: Waiter): Mask {
    if w.opt.clear then set_ - Reported(set_, w) else set_
  }

  /** A thread that was woken, with the bits it will report. */
  datatype Wakeup = Wakeup(t: Tid, bits: Mask)

  /** The send loop from the head of `ws` on. */
  function Sweep(set_: Mask, ws: seq<Waiter>): (Mask, seq<Waiter>, seq<Wakeup>) {
    if ws == [] then (set_, [], [])
    else if Satisfied(set_, ws[0].want, ws[0].opt) then
      var r := Sweep(Remaining(set_, ws[0]), ws[1..]);
      (r.0, r.1, [Wakeup(ws[0].t, Reported(set_, ws[0]))] + r.2)
    else
      var r := Sweep(set_, ws[1..]);
      (r.0, [ws[0]] + r.1, r.2)
  }

  /** `rt_event_send`; sending no bits is refused. */
  function Send(e: Ev, bits: Mask): (Ev, seq<Wakeup>) {
    if bits == {} then (e, [])
    else
      var r := Sweep(e.set_ + bits, e.waiters);
      (Ev(r.0, r.1), r.2)
  }

  datatype RecvResult = Got(bits: Mask) | Refused | TimedOut | Suspended

  function Ids(ws: seq<Waiter>): (r: seq<Tid>)
    ensures |r| == |ws|
  {
    seq(|ws|, i requires 0 <= i < |ws| => ws[i].t)
  }

  /** The waiter list with `w` inserted where `_ipc_list_suspend` puts its thread. */
  function InsertWaiter(ws: seq<Waiter>, w: Waiter, flag: Flag, prio: Priorities): (r: seq<Waiter>)
    ensures forall x :: x in r <==> x in ws || x == w
  {
    var k := if flag.Fifo? then |ws| else Position(Ids(ws), prio(w.t), prio, 0);
    assert ws == ws[..k] + ws[k..];
    ws[..k] + [w] + ws[k..]
  }

  lemma {:induction false} InsertWaiterEnqueues(ws: seq<Waiter>, w: Waiter, flag: Flag, prio: Priorities)
    ensures Ids(InsertWaiter(ws, w, flag, prio)) == Enqueue(Ids(ws), w.t, flag, prio)
  {
  }

  /** `rt_event_recv` up to the point where the caller returns or is suspended. */
  function Recv(e: Ev, w: Waiter, timeout: int, flag: Flag, prio: Priorities): (Ev, RecvResult) {
    if w.want == {} then (e, Refused)
    else if Satisfied(e.set_, w.want, w.opt) then
      (e.(set_ := if w.opt.clear then e.set_ - w.want else e.set_), Got(e.set_ * w.want))
    else if timeout == 0 then (e, TimedOut)
    else (e.(waiters := InsertWaiter(e.waiters, w, flag, prio)), Suspended)
  }

  function DropWaiter(ws: seq<Waiter>, t: Tid): seq<Waiter> {
    if ws == [] then [] else if ws[0].t == t then ws[1..] else [ws[0]] + DropWaiter(ws[1..], t)
  }

  datatype Step =
    | DoSend(bits: Mask)
    | DoRecv(w: Waiter, timeout: int, prio: Priorities)
    | DoExpire(t: Tid)
    | DoReset

  function Apply(e: Ev, s: Step, flag: Flag): Ev {
    match s
    case DoSend(bits) => Send(e, bits).0
    case DoRecv(w, timeout, prio) => Recv(e, w, timeout, flag, prio).0
    case DoExpire(t) => e.(waiters := DropWaiter(e.waiters, t))
    case DoReset => Ev({}, [])
  }

  /** No suspended thread's condition holds of the current set. */
  ghost predicate AllUnsatisfied(set_: Mask, ws: seq<Waiter>) {
    forall w :: w in ws ==> !Satisfied(set_, w.want, w.opt)
  }

  /** Clearing bits satisfies nobody. */
  lemma {:induction false} ClearingNeverSatisfies(a: Mask, b: Mask, want: Mask, opt: Options)
    requires a <= b && Satisfied(a, want, opt)
    ensures Satisfied(b, want, opt)
  {
    if !opt.all {
      var x :| x in a * want;
      assert x in b * want;
    }
  }

  /** After the sweep nobody left behind is satisfied, although later waiters kept shrinking the set. */
  lemma {:induction false} SweepSettles(set_: Mask, ws: seq<Waiter>)
    ensures var r := Sweep(set_, ws);
      && r.0 <= set_
      && AllUnsatisfied(r.0, r.1)
      && (forall w :: w in r.1 ==> w in ws)
    decreases |ws|
  {
    if ws != [] {
      if Satisfied(set_, ws[0].want, ws[0].opt) {
        SweepSettles(Remaining(set_, ws[0]), ws[1..]);
      } else {
        SweepSettles(set_, ws[1..]);
        var r := Sweep(set_, ws[1..]);
        if Satisfied(r.0, ws[0].want, ws[0].opt) {
          ClearingNeverSatisfies(r.0, set_, ws[0].want, ws[0].opt);
        }
      }
    }
  }

  lemma {:induction false} DroppedWaiters(ws: seq<Waiter>, t: Tid)
    ensures forall x :: x in DropWaiter(ws, t) ==> x in ws
    decreases |ws|
  {
    if ws != [] && ws[0].t != t { DroppedWaiters(ws[1..], t); }
  }

  /** Every waiter gave AND or OR, and none of them is satisfied. */
  ghost predicate Inv(e: Ev) {
    AllUnsatisfied(e.set_, e.waiters) && forall w :: w in e.waiters ==> w.opt.all || w.opt.any
  }

  /** `rt_event_recv` asserts that AND or OR is given. */
  ghost predicate Enabled(s: Step) {
    s.DoRecv? ==> s.w.opt.all || s.w.opt.any
  }

  ghost function After(e: Ev, ss: seq<Step>, flag: Flag): Ev
    decreases |ss|
  {
    if ss == [] then e else After(Apply(e, ss[0], flag), ss[1..], flag)
  }

  lemma {:induction false} StepKeeps(e: Ev, s: Step, flag: Flag)
    requires Inv(e) && Enabled(s)
    ensures Inv(Apply(e, s, flag))
  {
    match s
    case DoSend(bits) => SweepSettles(e.set_ + bits, e.waiters);
    case DoRecv(w, timeout, prio) =>
      var n := Apply(e, s, flag);
      if n.waiters == e.waiters {
        forall x | x in e.waiters ensures !Satisfied(n.set_, x.want, x.opt) {
          if Satisfied(n.set_, x.want, x.opt) { ClearingNeverSatisfies(n.set_, e.set_, x.want, x.opt); }
        }
      }
    case DoExpire(t) => DroppedWaiters(e.waiters, t);
    case DoReset =>
  }

  /** In no reachable state is a suspended thread's condition satisfied, and the invalid-option return
      inside the send loop is unreachable. */
  lemma {:induction false} NobodyOverlooked(e: Ev, ss: seq<Step>, flag: Flag)
    requires Inv(e) && forall i :: 0 <= i < |ss| ==> Enabled(ss[i])
    ensures Inv(After(e, ss, flag))
    decreases |ss|
  {
    if ss != [] {
      StepKeeps(e, ss[0], flag);
      NobodyOverlooked(Apply(e, ss[0], flag), ss[1..], flag);
    }
  }

  /** A receiver that finds its condition satisfied, and one woken by the send that satisfies it, report the
      same bits and leave the same set behind. */
  lemma {:induction false} PathsAgree(set_: Mask, w: Waiter, flag: Flag, prio: Priorities, timeout: int)
    requires w.want != {} && Satisfied(set_, w.want, w.opt)
    ensures Recv(Ev(set_, []), w, timeout, flag, prio) == (Ev(Remaining(set_, w), []), Got(Reported(set_, w)))
    ensures Sweep(set_, [w]) == (Remaining(set_, w), [], [Wakeup(w.t, Reported(set_, w))])
    ensures {} < Reported(set_, w) <= set_
  {
    assert [w][1..] == [];
    assert Sweep(Remaining(set_, w), []) == (Remaining(set_, w), [], []);
    assert [Wakeup(w.t, Reported(set_, w))] + [] == [Wakeup(w.t, Reported(set_, w))];
    assert set_ - w.want == set_ - w.want * set_;
    assert w.want * set_ == set_ * w.want;
  }

  /** The two conditions: all bits asked for are set, or one of them is. */
  lemma {:induction false} SatisfiedMeans(set_: Mask, want: Mask, opt: Options)
    ensures opt.all ==> (Satisfied(set_, want, opt) <==> forall b :: b in want ==> b in set_)
    ensures !opt.all && opt.any ==> (Satisfied(set_, want, opt) <==> exists b :: b in want && b in set_)
    ensures !opt.all && !opt.any ==> !Satisfied(set_, want, opt)
  {
    assert set_ * want == want <==> forall b :: b in want ==> b in set_;
    if exists b :: b in want && b in set_ {
      var b :| b in want && b in set_;
      assert b in set_ * want;
    }
  }

  /** The set at each waiter's turn: `sets[i]` for waiter `i`, who, if satisfied by it and asking for that, clears the
      bits it receives. */
  ghost predicate Turnwise(sets: seq<Mask>, ws: seq<Waiter>) {
    && |sets| == |ws| + 1
    && forall i :: 0 <= i < |ws| ==> sets[i + 1] == TurnTaken(sets[i], ws[i])
  }

  ghost function TurnTaken(set_: Mask, w: Waiter): Mask {
    if Satisfied(set_, w.want, w.opt) && w.opt.clear then set b | b in set_ && b !in w.want else set_
  }

  /** The waiters whose condition holds of the set at their turn, or those whose does not, in order. */
  ghost function Picked(sets: seq<Mask>, ws: seq<Waiter>, yes: bool): seq<Waiter>
    requires |sets| == |ws| + 1
    decreases |ws|
  {
    if ws == [] then []
    else if Satisfied(sets[0], ws[0].want, ws[0].opt) == yes then [ws[0]] + Picked(sets[1..], ws[1..], yes)
    else Picked(sets[1..], ws[1..], yes)
  }

  /** What the woken ones report: the bits asked for that are in the set at their turn. */
  ghost function Reports(sets: seq<Mask>, ws: seq<Waiter>): seq<Wakeup>
    requires |sets| == |ws| + 1
    decreases |ws|
  {
    if ws == [] then []
    else if Satisfied(sets[0], ws[0].want, ws[0].opt) then
      [Wakeup(ws[0].t, sets[0] * ws[0].want)] + Reports(sets[1..], ws[1..])
    else Reports(sets[1..], ws[1..])
  }

  lemma {:induction false} OneTurn(set_: Mask, w: Waiter)
    requires Satisfied(set_, w.want, w.opt)
    ensures Reported(set_, w) == set_ * w.want && Remaining(set_, w) == TurnTaken(set_, w)
  {
    assert set_ * w.want == w.want * set_;
    assert set_ - Reported(set_, w) == set b | b in set_ && b !in w.want;
  }

  lemma {:induction false} SweepTurns(set_: Mask, ws: seq<Waiter>) returns (sets: seq<Mask>)
    ensures Turnwise(sets, ws) && sets[0] == set_ && sets[|ws|] == Sweep(set_, ws).0
    ensures Sweep(set_, ws).1 == Picked(sets, ws, false) && Sweep(set_, ws).2 == Reports(sets, ws)
    decreases |ws|
  {
    if ws == [] {
      sets := [set_];
    } else {
      if Satisfied(set_, ws[0].want, ws[0].opt) { OneTurn(set_, ws[0]); }
      var rest := SweepTurns(TurnTaken(set_, ws[0]), ws[1..]);
      sets := [set_] + rest;
      assert sets[1..] == rest;
      forall i | 0 <= i < |ws| ensures sets[i + 1] == TurnTaken(sets[i], ws[i]) {
        if i > 0 { assert rest[i] == TurnTaken(rest[i - 1], ws[1..][i - 1]); }
      }
    }
  }

  /** Nobody is lost and nobody's order changes. */
  lemma {:induction false} PickedAll(sets: seq<Mask>, ws: seq<Waiter>)
    requires |sets| == |ws| + 1
    ensures Interleaved(ws, Picked(sets, ws, false), Picked(sets, ws, true))
    ensures |Reports(sets, ws)| == |Picked(sets, ws, true)|
    ensures forall j :: 0 <= j < |Reports(sets, ws)| ==> Reports(sets, ws)[j].t == Picked(sets, ws, true)[j].t
    decreases |ws|
  {
    if ws != [] {
      PickedAll(sets[1..], ws[1..]);
      var a, b := Picked(sets, ws, false), Picked(sets, ws, true);
      if Satisfied(sets[0], ws[0].want, ws[0].opt) {
        assert b[0] == ws[0] && b[1..] == Picked(sets[1..], ws[1..], true);
      } else {
        assert a[0] == ws[0] && a[1..] == Picked(sets[1..], ws[1..], false);
      }
    }
  }

  /** What a send does, whatever the waiters are: every waiter is afterwards either still waiting or woken, exactly
      once, in unchanged order. It is woken if and only if its condition holds of the set at its turn, and then
      reports the bits it asked for that are in that set. Sending nothing is refused. */
  lemma {:induction false} SendMeans(e: Ev, bits: Mask) returns (sets: seq<Mask>)
    ensures bits == {} ==> Send(e, bits) == (e, [])
    ensures bits != {} ==>
      && var (n, woken) := Send(e, bits);
      && Turnwise(sets, e.waiters) && sets[0] == e.set_ + bits && sets[|e.waiters|] == n.set_
      && n.waiters == Picked(sets, e.waiters, false) && woken == Reports(sets, e.waiters)
      && |woken| == |Picked(sets, e.waiters, true)|
      && Interleaved(e.waiters, n.waiters, Picked(sets, e.waiters, true))
      && multiset(e.waiters) == multiset(n.waiters) + multiset(Picked(sets, e.waiters, true))
  {
    sets := [];
    if bits != {} {
      sets := SweepTurns(e.set_ + bits, e.waiters);
      PickedAll(sets, e.waiters);
      InterleavedSum(e.waiters, Picked(sets, e.waiters, false), Picked(sets, e.waiters, true));
    }
  }

  /** What the result of a receive means: satisfied at once, refused, or suspended exactly if it gave a time other than
      zero; the other waiters stay as they are. */
  lemma {:induction false} RecvMeans(e: Ev, w: Waiter, timeout: int, flag: Flag, prio: Priorities)
    ensures var (n, r) := Recv(e, w, timeout, flag, prio); var ok := Satisfied(e.set_, w.want, w.opt);
      && (r == Refused <==> w.want == {})
      && (r.Got? <==> w.want != {} && ok)
      && (r.Got? ==> r.bits == e.set_ * w.want && n.set_ == TurnTaken(e.set_, w) && n.waiters == e.waiters)
      && (!r.Got? ==> n.set_ == e.set_)
      && (r == TimedOut <==> w.want != {} && !ok && timeout == 0)
      && (r == Suspended <==> w.want != {} && !ok && timeout != 0)
      && (if r == Suspended then multiset(n.waiters) == multiset(e.waiters) + multiset{w}
          else n.waiters == e.waiters)
  {
    var n := Recv(e, w, timeout, flag, prio).0;
    if Recv(e, w, timeout, flag, prio).1 == Suspended {
      var k := if flag.Fifo? then |e.waiters| else Position(Ids(e.waiters), prio(w.t), prio, 0);
      assert e.waiters == e.waiters[..k] + e.waiters[k..];
    } else if w.opt.clear && Satisfied(e.set_, w.want, w.opt) {
      assert e.set_ - w.want == set b | b in e.set_ && b !in w.want;
    }
  }

  /** A timeout takes out its thread; a reset leaves no bit and nobody waiting. */
  lemma {:induction false} OthersMean(e: Ev, t: Tid, flag: Flag)
    ensures Apply(e, DoReset, flag).waiters == [] && Apply(e, DoReset, flag).set_ == {}
    ensures var n := Apply(e, DoExpire(t), flag); n.set_ == e.set_ && Ids(n.waiters) == Without(Ids(e.waiters), t)
    ensures forall w :: w in e.waiters && w.t != t ==> w in Apply(e, DoExpire(t), flag).waiters
  {
    DropMeans(e.waiters, t);
    forall w | w in e.waiters && w.t != t ensures w in DropWaiter(e.waiters, t) { DropLeaves(e.waiters, t, w); }
  }

  lemma {:induction false} DropMeans(ws: seq<Waiter>, t: Tid)
    ensures Ids(DropWaiter(ws, t)) == Without(Ids(ws), t)
    decreases |ws|
  {
    if ws != [] {
      assert Ids(ws)[1..] == Ids(ws[1..]) && Ids(ws)[0] == ws[0].t;
      if ws[0].t != t {
        DropMeans(ws[1..], t);
        assert Ids(DropWaiter(ws, t)) == [ws[0].t] + Ids(DropWaiter(ws[1..], t));
      }
    }
  }

  lemma {:induction false} DropLeaves(ws: seq<Waiter>, t: Tid, w: Waiter)
    requires w in ws && w.t != t
    ensures w in DropWaiter(ws, t)
    decreases |ws|
  {
    if ws[0].t != t && w != ws[0] { DropLeaves(ws[1..], t, w); }
  }

  /** One step of the cursor. */
  lemma {:induction false} SweepStep(set_: Mask, ws: seq<Waiter>)
    ensures ws == [] ==> Sweep(set_, ws) == (set_, [], [])
    ensures ws != [] && Satisfied(set_, ws[0].want, ws[0].opt) ==>
      var r := Sweep(Remaining(set_, ws[0]), ws[1..]);
      Sweep(set_, ws) == (r.0, r.1, [Wakeup(ws[0].t, Reported(set_, ws[0]))] + r.2)
    ensures ws != [] && !Satisfied(set_, ws[0].want, ws[0].opt) ==>
      var r := Sweep(set_, ws[1..]);
      Sweep(set_, ws) == (r.0, [ws[0]] + r.1, r.2)
  {
  }

  class EventObject {
    const flag: Flag
    var bits: Mask
    var waiters: seq<Waiter>

    ghost function View(): Ev
      reads this
    {
      Ev(bits, waiters)
    }

    /** `rt_event_init`. */
    constructor (queueing: Flag)
      ensures View() == Ev({}, []) && Inv(View()) && flag == queueing
    {
      flag, bits, waiters := queueing, {}, [];
    }

    /** `rt_event_send`: the cursor walks the list, unlinking satisfied waiters as it passes them. */
    method SendPass(set_: Mask) returns (woken: seq<Wakeup>)
      requires Inv(View())
      modifies this
      ensures (View(), woken) == Send(old(View()), set_)
    {
      hide Sweep, Ids, InsertWaiter, AllUnsatisfied, Interleaved;
      woken := [];
      if set_ == {} {
        return;
      }
      bits := bits + set_;
      var n := 0;
      ghost var goal := Sweep(bits, waiters);
      assert waiters[..0] == [] && waiters[0..] == waiters;
      while n != |waiters|
        invariant n <= |waiters|
        invariant forall w :: w in waiters ==> w.opt.all || w.opt.any
        invariant var r := Sweep(bits, waiters[n..]);
          goal.0 == r.0 && goal.1 == waiters[..n] + r.1 && goal.2 == woken + r.2
        decreases |waiters| - n
      {
        var w := waiters[n];
        assert waiters[n..][1..] == waiters[n + 1..];
        SweepStep(bits, waiters[n..]);
        var satisfied, received := false, w.want;
        if w.opt.all {
          satisfied := w.want * bits == w.want;
        } else if w.opt.any {
          if w.want * bits != {} {
            received := w.want * bits;
            satisfied := true;
          }
        } else {
          assert false;  // the invalid-option return is unreachable
        }
        assert w.want * bits == bits * w.want;
        if satisfied {
          if w.opt.clear {
            bits := bits - received;
          }
          woken := woken + [Wakeup(w.t, received)];
          assert (waiters[..n] + waiters[n + 1..])[..n] == waiters[..n];
          assert (waiters[..n] + waiters[n + 1..])[n..] == waiters[n + 1..];
          waiters := waiters[..n] + waiters[n + 1..];
        } else {
          assert waiters[..n + 1] == waiters[..n] + [w];
          n := n + 1;
        }
      }
      assert waiters[..n] == waiters && waiters[n..] == [];
      SweepStep(bits, []);
      assert waiters + [] == waiters && woken + [] == woken;
      assert goal.1 == waiters && goal.2 == woken;
    }

    /** `rt_event_recv` up to return or suspension; one of AND and OR must be given. */
    method RecvPass(w: Waiter, timeout: int, prio: Priorities) returns (r: RecvResult)
      requires w.opt.all || w.opt.any
      modifies this
      ensures (View(), r) == Recv(old(View()), w, timeout, flag, prio)
    {
      if w.want == {} {
        return Refused;
      }
      var satisfied := if w.opt.all then bits * w.want == w.want else bits * w.want != {};
      if satisfied {
        r := Got(bits * w.want);
        if w.opt.clear {
          bits := bits - w.want;
        }
      } else if timeout == 0 {
        r := TimedOut;
      } else {
        waiters := InsertWaiter(waiters, w, flag, prio);
        r := Suspended;
      }
    }
  }
}
