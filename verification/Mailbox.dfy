/** Mailbox (`rt_mb_*` in `rt-thread/src/ipc.c`): a ring of words with two wait lists.
    Every region between interrupt disable and enable is one atomic step; a wait loop is one step per pass. */
module Mailbox {
  import opened KernelTypes
  import opened Lists
  import opened WaitList
  import opened ServiceOrder
  import opened Lanes

  /** `RT_MB_ENTRY_MAX`. */
  const ENTRY_MAX: nat := 65535

  /** The abstract mailbox: a bounded deque and the threads blocked on either side of it. */
  datatype Mb = Mb(size: nat, mails: seq<Word>, rx: Gate, tx: Gate)

  datatype SendResult = Sent | SendFull | SendBlocked
  datatype RecvResult = Received(value: Word) | NoMail | RecvBlocked

  /** One pass of `rt_mb_send_wait` by thread `t`. */
  function Send(m: Mb, t: Tid, v: Word, timeout: int, flag: Flag, prio: Priorities): (Mb, SendResult) {
    var tx := Run(m.tx, t);
    if |m.mails| == m.size then
      if timeout == 0 then (m.(tx := tx), SendFull) else (m.(tx := Block(tx, t, flag, prio)), SendBlocked)
    else
      (m.(mails := m.mails + [v], rx := Wake(m.rx), tx := tx), Sent)
  }

  function Urgent(m: Mb, v: Word): (Mb, SendResult) {
    if |m.mails| == m.size then (m, SendFull)
    else (m.(mails := [v] + m.mails, rx := Wake(m.rx)), Sent)
  }

  /** One pass of `rt_mb_recv` by thread `t`. */
  function Recv(m: Mb, t: Tid, timeout: int, flag: Flag, prio: Priorities): (Mb, RecvResult) {
    var rx := Run(m.rx, t);
    if m.mails == [] then
      if timeout == 0 then (m.(rx := rx), NoMail) else (m.(rx := Block(rx, t, flag, prio)), RecvBlocked)
    else
      (m.(mails := m.mails[1..], rx := rx, tx := Wake(m.tx)), Received(m.mails[0]))
  }

  function Reset(m: Mb): Mb {
    m.(mails := [], rx := Flush(m.rx), tx := Flush(m.tx))
  }

  /** Anything that can happen to a mailbox; `Expire*` is the thread timer of a suspended thread. */
  datatype Event =
    | DoSend(t: Tid, v: Word, timeout: int, prio: Priorities)
    | DoUrgent(v: Word)
    | DoRecv(t: Tid, timeout: int, prio: Priorities)
    | ExpireReceiver(t: Tid)
    | ExpireSender(t: Tid)
    | DoReset

  /** A thread acts only while it is running, hence not suspended, and a thread that was woken inside
      one call finishes that call first. */
  ghost predicate Enabled(m: Mb, e: Event) {
    match e
    case DoSend(t, _, _, _) => t !in m.tx.waiting && !At(m.rx, t)
    case DoUrgent(_) => true
    case DoRecv(t, _, _) => t !in m.rx.waiting && !At(m.tx, t)
    case ExpireReceiver(t) => t in m.rx.waiting
    case ExpireSender(t) => t in m.tx.waiting
    case DoReset => true
  }

  function Apply(m: Mb, e: Event, flag: Flag): Mb {
    match e
    case DoSend(t, v, timeout, prio) => Send(m, t, v, timeout, flag, prio).0
    case DoUrgent(v) => Urgent(m, v).0
    case DoRecv(t, timeout, prio) => Recv(m, t, timeout, flag, prio).0
    case ExpireReceiver(t) => m.(rx := TimeOut(m.rx, t))
    case ExpireSender(t) => m.(tx := TimeOut(m.tx, t))
    case DoReset => Reset(m)
  }

  /** Suspended receivers are covered by woken ones for every mail, suspended senders for every free slot,
      and no thread is on both sides. */
  ghost predicate Inv(m: Mb) {
    && |m.mails| <= m.size
    && NoLostWakeup(m.rx, |m.mails|)
    && NoLostWakeup(m.tx, m.size - |m.mails|)
    && forall t: Tid :: !(At(m.rx, t) && At(m.tx, t))
  }

  lemma {:induction false} SendKeeps(m: Mb, t: Tid, v: Word, timeout: int, flag: Flag, prio: Priorities)
    requires Inv(m) && t !in m.tx.waiting && !At(m.rx, t)
    ensures Inv(Send(m, t, v, timeout, flag, prio).0)
  {
    hide NoLostWakeup, Enqueue;
    GateMembers(m.tx, t, flag, prio);
    GateMembers(Run(m.tx, t), t, flag, prio);
    GateMembers(m.rx, t, flag, prio);
    if |m.mails| == m.size {
      FindNothing(m.tx, t, flag, prio);
    } else {
      TakeUnit(m.tx, t, m.size - |m.mails|);
      AddUnit(m.rx, |m.mails|);
    }
  }

  lemma {:induction false} RecvKeeps(m: Mb, t: Tid, timeout: int, flag: Flag, prio: Priorities)
    requires Inv(m) && t !in m.rx.waiting && !At(m.tx, t)
    ensures Inv(Recv(m, t, timeout, flag, prio).0)
  {
    hide NoLostWakeup, Enqueue;
    GateMembers(m.rx, t, flag, prio);
    GateMembers(Run(m.rx, t), t, flag, prio);
    GateMembers(m.tx, t, flag, prio);
    if m.mails == [] {
      FindNothing(m.rx, t, flag, prio);
    } else {
      TakeUnit(m.rx, t, |m.mails|);
      AddUnit(m.tx, m.size - |m.mails|);
    }
  }

  lemma {:induction false} StepKeeps(m: Mb, e: Event, flag: Flag)
    requires Inv(m) && Enabled(m, e)
    ensures Inv(Apply(m, e, flag))
  {
    match e
    case DoSend(t, v, timeout, prio) => SendKeeps(m, t, v, timeout, flag, prio);
    case DoUrgent(v) =>
      GateMembers(m.rx, 0, flag, t => 0);
      if |m.mails| < m.size {
        AddUnit(m.rx, |m.mails|);
        FewerUnits(m.tx, m.size - |m.mails|, m.size - |m.mails| - 1);
      }
    case DoRecv(t, timeout, prio) => RecvKeeps(m, t, timeout, flag, prio);
    case ExpireReceiver(t) => LoseWaiters(m.rx, t, |m.mails|); GateMembers(m.rx, t, flag, t => 0);
    case ExpireSender(t) => LoseWaiters(m.tx, t, m.size - |m.mails|); GateMembers(m.tx, t, flag, t => 0);
    case DoReset =>
      assert forall t: Tid :: At(Flush(m.rx), t) ==> At(m.rx, t);
      assert forall t: Tid :: At(Flush(m.tx), t) ==> At(m.tx, t);
  }

  ghost predicate CanRun(m: Mb, es: seq<Event>, flag: Flag)
    decreases |es|
  {
    es == [] || (Enabled(m, es[0]) && CanRun(Apply(m, es[0], flag), es[1..], flag))
  }

  ghost function After(m: Mb, es: seq<Event>, flag: Flag): Mb
    decreases |es|
  {
    if es == [] then m else After(Apply(m, es[0], flag), es[1..], flag)
  }

  /** No interleaving of sends, urgent sends, receives, thefts, timeouts and resets loses a wake-up. */
  lemma {:induction false} RunKeeps(m: Mb, es: seq<Event>, flag: Flag)
    requires Inv(m) && CanRun(m, es, flag)
    ensures Inv(After(m, es, flag))
    decreases |es|
  {
    if es != [] {
      StepKeeps(m, es[0], flag);
      RunKeeps(Apply(m, es[0], flag), es[1..], flag);
    }
  }

  /** Once every woken thread has run, receivers wait only on an empty mailbox, senders only on a full
      one, and (unless the mailbox has no slots) not both. */
  lemma {:induction false} NobodyStuck(m: Mb, es: seq<Event>, flag: Flag)
    requires Inv(m) && CanRun(m, es, flag)
    ensures var n := After(m, es, flag);
      n.rx.woken == {} && n.tx.woken == {} ==>
        && (n.rx.waiting != [] ==> n.mails == [])
        && (n.tx.waiting != [] ==> |n.mails| == n.size)
        && (n.rx.waiting != [] && n.tx.waiting != [] ==> n.size == 0)
  {
    RunKeeps(m, es, flag);
  }

  /** What one step takes out of the mailbox, and what it puts in by an ordinary send. */
  function Taken(m: Mb, e: Event, flag: Flag): seq<Word> {
    match e
    case DoRecv(t, timeout, prio) =>
      (match Recv(m, t, timeout, flag, prio).1 case Received(v) => [v] case _ => [])
    case _ => []
  }

  function Put(m: Mb, e: Event, flag: Flag): seq<Word> {
    match e
    case DoSend(t, v, timeout, prio) => if Send(m, t, v, timeout, flag, prio).1 == Sent then [v] else []
    case _ => []
  }

  ghost function Delivered(m: Mb, es: seq<Event>, flag: Flag): seq<Word>
    decreases |es|
  {
    if es == [] then [] else Taken(m, es[0], flag) + Delivered(Apply(m, es[0], flag), es[1..], flag)
  }

  ghost function Accepted(m: Mb, es: seq<Event>, flag: Flag): seq<Word>
    decreases |es|
  {
    if es == [] then [] else Put(m, es[0], flag) + Accepted(Apply(m, es[0], flag), es[1..], flag)
  }

  /** What one step puts in by an urgent send. */
  function Pressed(m: Mb, e: Event): seq<Word> {
    match e
    case DoUrgent(v) => if Urgent(m, v).1 == Sent then [v] else []
    case _ => []
  }

  ghost function AllPressed(m: Mb, es: seq<Event>, flag: Flag): seq<Word>
    decreases |es|
  {
    if es == [] then [] else Pressed(m, es[0]) + AllPressed(Apply(m, es[0], flag), es[1..], flag)
  }

  /** The step as a move of a deque. */
  ghost function MoveOf(m: Mb, e: Event, flag: Flag): seq<Move<Word>> {
    if Put(m, e, flag) != [] then [Push(Put(m, e, flag)[0])]
    else if Pressed(m, e) != [] then [Urge(Pressed(m, e)[0])]
    else if Taken(m, e, flag) != [] then [Pull]
    else []
  }

  ghost function Moves(m: Mb, es: seq<Event>, flag: Flag): seq<Move<Word>>
    decreases |es|
  {
    if es == [] then [] else MoveOf(m, es[0], flag) + Moves(Apply(m, es[0], flag), es[1..], flag)
  }

  /** One step takes from the front, puts at the end, or puts an urgent mail at the front. */
  lemma {:induction false} FifoStep(m: Mb, e: Event, flag: Flag)
    requires !e.DoReset?
    ensures Taken(m, e, flag) + Apply(m, e, flag).mails == Pressed(m, e) + (m.mails + Put(m, e, flag))
    ensures var a := MoveOf(m, e, flag);
      && |a| <= 1 && Deque(m.mails, a) == Apply(m, e, flag).mails && Out(m.mails, a) == Taken(m, e, flag)
      && Pushed(a) == Put(m, e, flag) && Urged(a) == Pressed(m, e)
  {
    var a := MoveOf(m, e, flag);
    assert |a| == 1 ==> a[1..] == [];
  }

  lemma {:induction false} RunMoves(m: Mb, es: seq<Event>, flag: Flag)
    requires forall i :: 0 <= i < |es| ==> !es[i].DoReset?
    ensures var ms := Moves(m, es, flag);
      && Deque(m.mails, ms) == After(m, es, flag).mails && Out(m.mails, ms) == Delivered(m, es, flag)
      && Pushed(ms) == Accepted(m, es, flag) && Urged(ms) == AllPressed(m, es, flag)
    decreases |es|
  {
    hide MoveOf, Apply, Taken, Put, Pressed;
    if es != [] {
      var n := Apply(m, es[0], flag);
      FifoStep(m, es[0], flag);
      RunMoves(n, es[1..], flag);
      FirstMove(m.mails, MoveOf(m, es[0], flag), Moves(n, es[1..], flag));
    }
  }

  /** Over every run without reset, whichever threads send, receive, block and time out: mails sent ordinarily leave in
      the order in which they were accepted, urgent ones in front of them and newest first (see `Lanes`), and nothing is
      lost, invented or duplicated. Without urgent sends that is first in, first out. */
  lemma {:induction false} FifoRun(m: Mb, es: seq<Event>, flag: Flag)
    requires forall i :: 0 <= i < |es| ==> !es[i].DoReset?
    ensures InLanes(m.mails, Moves(m, es, flag), Delivered(m, es, flag), After(m, es, flag).mails,
      Accepted(m, es, flag), AllPressed(m, es, flag))
    ensures AllPressed(m, es, flag) == [] ==>
      Delivered(m, es, flag) + After(m, es, flag).mails == m.mails + Accepted(m, es, flag)
  {
    RunMoves(m, es, flag);
    RunsInLanes(m.mails, Moves(m, es, flag));
  }

  /** What the result of a pass of a send means: the mail is in and one receiver is resumed if any waits, which happens
      exactly if there is a slot; otherwise nothing is put in, and the caller waits exactly if it gave a time other than
      zero. */
  lemma {:induction false} SendMeans(m: Mb, t: Tid, v: Word, timeout: int, flag: Flag, prio: Priorities)
    requires Inv(m) && Enabled(m, DoSend(t, v, timeout, prio))
    ensures var (n, r) := Send(m, t, v, timeout, flag, prio);
      && (r == Sent <==> |m.mails| < m.size) && n.size == m.size
      && (r == Sent ==>
            multiset(n.mails) == multiset(m.mails) + multiset{v} && Resumed(m.rx, n.rx) && t !in n.tx.waiting)
      && (r != Sent ==> n.mails == m.mails && n.rx == m.rx)
      && (r == SendFull <==> |m.mails| == m.size && timeout == 0)
      && (r == SendBlocked <==> t in n.tx.waiting)
      && (if r == SendBlocked then Joined(m.tx, n.tx, t) else n.tx == Gate(m.tx.waiting, m.tx.woken - {t}))
  {
    hide Enqueue, Without, Position;
    WakeResumes(m.rx);
    BlockJoins(m.tx, t, flag, prio);
  }

  lemma {:induction false} UrgentMeans(m: Mb, v: Word)
    requires Inv(m)
    ensures var (n, r) := Urgent(m, v);
      && (r == Sent <==> |m.mails| < m.size) && (r != Sent ==> r == SendFull && n == m)
      && (r == Sent ==> |n.mails| == |m.mails| + 1 && n.mails[0] == v && Resumed(m.rx, n.rx))
      && n.tx == m.tx && n.size == m.size
  {
    WakeResumes(m.rx);
  }

  /** Likewise of a receive: the front mail is delivered and one sender resumed exactly if there is a mail. */
  lemma {:induction false} RecvMeans(m: Mb, t: Tid, timeout: int, flag: Flag, prio: Priorities)
    requires Inv(m) && Enabled(m, DoRecv(t, timeout, prio))
    ensures var (n, r) := Recv(m, t, timeout, flag, prio);
      && (r.Received? <==> m.mails != []) && n.size == m.size
      && (r.Received? ==> m.mails == [r.value] + n.mails && Resumed(m.tx, n.tx))
      && (!r.Received? ==> n.mails == [] && n.tx == m.tx)
      && (r == NoMail <==> m.mails == [] && timeout == 0)
      && (r == RecvBlocked <==> t in n.rx.waiting)
      && (if r == RecvBlocked then Joined(m.rx, n.rx, t) else n.rx == Gate(m.rx.waiting, m.rx.woken - {t}))
  {
    hide Enqueue, Without, Position;
    WakeResumes(m.tx);
    BlockJoins(m.rx, t, flag, prio);
  }

  /** A reset leaves no mail and nobody waiting; a timeout takes out its thread and does nothing else. */
  lemma {:induction false} OthersMean(m: Mb, e: Event, flag: Flag)
    requires Inv(m) && Enabled(m, e)
    ensures var n := Apply(m, e, flag);
      && (e.DoReset? ==>
            && n.mails == [] && n.rx.waiting == [] && n.tx.waiting == [] && n.size == m.size
            && n.rx.woken == m.rx.woken && n.tx.woken == m.tx.woken)
      && (e.ExpireReceiver? ==>
            && n == m.(rx := n.rx) && e.t !in n.rx.waiting && n.rx.woken == m.rx.woken
            && multiset(n.rx.waiting) == multiset(m.rx.waiting) - multiset{e.t})
      && (e.ExpireSender? ==>
            && n == m.(tx := n.tx) && e.t !in n.tx.waiting && n.tx.woken == m.tx.woken
            && multiset(n.tx.waiting) == multiset(m.tx.waiting) - multiset{e.t})
  {
    if e.ExpireReceiver? { LeavingMeans(m.rx, e.t); }
    if e.ExpireSender? { LeavingMeans(m.tx, e.t); }
  }

  /** The thread a step is about. */
  function Subject(e: Event): Tid {
    if e.DoUrgent? || e.DoReset? then 0 else e.t
  }

  /** All threads keep the priorities `prio` while the run lasts. */
  ghost predicate Steady(es: seq<Event>, prio: Priorities) {
    forall i :: 0 <= i < |es| && (es[i].DoSend? || es[i].DoRecv?) ==> es[i].prio == prio
  }

  /** When the waiting receivers and senders were suspended, by the number of the step. */
  ghost function Stamps(
    m: Mb, es: seq<Event>, flag: Flag, rx: map<Tid, nat>, tx: map<Tid, nat>, now: nat): (map<Tid, nat>, map<Tid, nat>)
    decreases |es|
  {
    if es == [] then (rx, tx)
    else
      var n, t := Apply(m, es[0], flag), Subject(es[0]);
      Stamps(n, es[1..], flag, Stamp(m.rx.waiting, n.rx.waiting, t, rx, now),
             Stamp(m.tx.waiting, n.tx.waiting, t, tx, now), now + 1)
  }

  lemma {:induction false} StepLists(m: Mb, e: Event, flag: Flag, prio: Priorities)
    requires Enabled(m, e) && ((e.DoSend? || e.DoRecv?) ==> e.prio == prio)
    ensures ListStep(m.rx.waiting, Apply(m, e, flag).rx.waiting, Subject(e), flag, prio)
    ensures ListStep(m.tx.waiting, Apply(m, e, flag).tx.waiting, Subject(e), flag, prio)
  {
    hide Enqueue, Without;
  }

  lemma {:induction false} RunTurns(
    m: Mb, es: seq<Event>, flag: Flag, prio: Priorities, rx: map<Tid, nat>, tx: map<Tid, nat>, now: nat)
    requires CanRun(m, es, flag) && Steady(es, prio)
    requires Turns(m.rx.waiting, Key(flag, prio), rx, now) && Turns(m.tx.waiting, Key(flag, prio), tx, now)
    ensures var n, at := After(m, es, flag), Stamps(m, es, flag, rx, tx, now);
      && Turns(n.rx.waiting, Key(flag, prio), at.0, now + |es|)
      && Turns(n.tx.waiting, Key(flag, prio), at.1, now + |es|)
    decreases |es|
  {
    hide Turns, Key, Apply, Enabled, ListStep, Stamp, Subject;
    if es != [] {
      var n, t := Apply(m, es[0], flag), Subject(es[0]);
      StepLists(m, es[0], flag, prio);
      StepTurns(m.rx.waiting, n.rx.waiting, t, flag, prio, rx, now);
      StepTurns(m.tx.waiting, n.tx.waiting, t, flag, prio, tx, now);
      assert Steady(es[1..], prio);
      RunTurns(n, es[1..], flag, prio, Stamp(m.rx.waiting, n.rx.waiting, t, rx, now),
               Stamp(m.tx.waiting, n.tx.waiting, t, tx, now), now + 1);
    }
  }

  lemma {:induction false} WakesHead(m: Mb, e: Event, flag: Flag, u: Tid)
    requires Enabled(m, e)
    ensures u in Apply(m, e, flag).rx.woken && u !in m.rx.woken ==> m.rx.waiting != [] && u == m.rx.waiting[0]
    ensures u in Apply(m, e, flag).tx.woken && u !in m.tx.woken ==> m.tx.waiting != [] && u == m.tx.waiting[0]
  {
    hide Enqueue, Without;
  }

  /** After any run from a state with nobody waiting, whoever a step resumes is the one whose turn it is: the most
      urgent under `Prio`, and among equals, as under `Fifo`, the one suspended first. */
  lemma {:induction false} ServesInTurn(m: Mb, es: seq<Event>, flag: Flag, prio: Priorities, e: Event, u: Tid)
    requires m.rx.waiting == [] && m.tx.waiting == [] && CanRun(m, es, flag) && Steady(es, prio)
    requires Enabled(After(m, es, flag), e)
    ensures var n, at := After(m, es, flag), Stamps(m, es, flag, map[], map[], 0); var l := Apply(n, e, flag);
      && (u in l.rx.woken && u !in n.rx.woken ==> Foremost(n.rx.waiting, u, Key(flag, prio), at.0))
      && (u in l.tx.woken && u !in n.tx.woken ==> Foremost(n.tx.waiting, u, Key(flag, prio), at.1))
  {
    hide Turns, Key, Foremost, Apply, Enabled;
    NoTurns(Key(flag, prio));
    RunTurns(m, es, flag, prio, map[], map[], 0);
    var n, at := After(m, es, flag), Stamps(m, es, flag, map[], map[], 0);
    WakesHead(n, e, flag, u);
    if n.rx.waiting != [] { HeadForemost(n.rx.waiting, Key(flag, prio), at.0, |es|); }
    if n.tx.waiting != [] { HeadForemost(n.tx.waiting, Key(flag, prio), at.1, |es|); }
  }

  /** Slot `i` places after `out` in a ring of `size` slots. */
  function Slot(out: nat, i: nat, size: nat): nat {
    if out + i < size then out + i else out + i - size
  }

  lemma {:induction false} SlotIsModular(out: nat, i: nat, size: nat)
    requires out < size && i <= size
    ensures Slot(out, i, size) == (out + i) % size
  {
    if out + i >= size { OnceAround(out + i - size, size); }
  }

  lemma {:induction false} OnceAround(r: nat, size: nat)
    requires r < size
    ensures (size + r) % size == r
  {
    Divided(size + r, size, 1, r);
  }

  ghost function Ring(pool: seq<Word>, out: nat, n: nat): seq<Word>
    requires n <= |pool| && (n > 0 ==> out < |pool|)
  {
    seq(n, i requires 0 <= i < n => pool[Slot(out, i, |pool|)])
  }

  class MailboxObject {
    const size: nat
    const pool: array<Word>
    const flag: Flag
    var entry: nat
    var inOffset: nat
    var outOffset: nat
    var receivers: seq<Tid>
    var senders: seq<Tid>
    /** Program points: resumed inside a receive, or inside a send, and not yet run. */
    ghost var wokenReceivers: set<Tid>
    ghost var wokenSenders: set<Tid>

    ghost predicate Valid()
      reads this, pool
    {
      && pool.Length == size <= ENTRY_MAX
      && entry <= size
      && (size > 0 ==> outOffset < size && inOffset == Slot(outOffset, entry, size) && inOffset < size)
      && (size == 0 ==> inOffset == outOffset == 0)
    }

    ghost function View(): Mb
      reads this, pool
      requires Valid()
    {
      Mb(size, Ring(pool[..], outOffset, entry), Gate(receivers, wokenReceivers), Gate(senders, wokenSenders))
    }

    /** `rt_mb_init`. */
    constructor (words: array<Word>, queueing: Flag)
      requires words.Length <= ENTRY_MAX
      ensures Valid() && pool == words && flag == queueing
      ensures View() == Mb(words.Length, [], Gate([], {}), Gate([], {}))
    {
      size, pool, flag := words.Length, words, queueing;
      entry, inOffset, outOffset := 0, 0, 0;
      receivers, senders := [], [];
      wokenReceivers, wokenSenders := {}, {};
    }

    /** `if (!rt_list_isempty(&mb->parent.suspend_thread)) _ipc_list_resume(...)`. */
    method ResumeReceiver()
      requires Valid()
      modifies `receivers, `wokenReceivers
      ensures Valid() && View() == old(View()).(rx := Wake(old(View()).rx))
    {
      if receivers != [] {
        wokenReceivers := wokenReceivers + {receivers[0]};
        receivers := receivers[1..];
      }
    }

    method ResumeSender()
      requires Valid()
      modifies `senders, `wokenSenders
      ensures Valid() && View() == old(View()).(tx := Wake(old(View()).tx))
    {
      if senders != [] {
        wokenSenders := wokenSenders + {senders[0]};
        senders := senders[1..];
      }
    }

    /** One pass of `rt_mb_send_wait`, from interrupt disable to enable. */
    method SendPass(t: Tid, v: Word, timeout: int, prio: Priorities) returns (r: SendResult)
      requires Valid()
      modifies this, pool
      ensures Valid() && (View(), r) == Send(old(View()), t, v, timeout, flag, prio)
    {
      ghost var m := View();
      wokenSenders := wokenSenders - {t};
      if entry == size {
        if timeout == 0 {
          return SendFull;
        }
        senders := Suspend(senders, t, flag, prio);
        return SendBlocked;
      }
      pool[inOffset] := v;
      inOffset := inOffset + 1;
      if inOffset >= size {
        inOffset := 0;
      }
      if entry < ENTRY_MAX {
        entry := entry + 1;
      } else {
        assert false;  // the overflow return after the slot write is unreachable
      }
      assert Ring(pool[..], outOffset, entry) == m.mails + [v];
      ResumeReceiver();
      r := Sent;
    }

    /** `rt_mb_urgent`. */
    method UrgentPass(v: Word) returns (r: SendResult)
      requires Valid()
      modifies this, pool
      ensures Valid() && (View(), r) == Urgent(old(View()), v)
    {
      ghost var m := View();
      if entry == size {
        return SendFull;
      }
      if outOffset > 0 {
        outOffset := outOffset - 1;
      } else {
        outOffset := size - 1;
      }
      pool[outOffset] := v;
      entry := entry + 1;
      assert Ring(pool[..], outOffset, entry) == [v] + m.mails;
      ResumeReceiver();
      r := Sent;
    }

    /** One pass of `rt_mb_recv`. */
    method RecvPass(t: Tid, timeout: int, prio: Priorities) returns (r: RecvResult)
      requires Valid()
      modifies this
      ensures Valid() && (View(), r) == Recv(old(View()), t, timeout, flag, prio)
    {
      ghost var m := View();
      wokenReceivers := wokenReceivers - {t};
      if entry == 0 {
        if timeout == 0 {
          return NoMail;
        }
        receivers := Suspend(receivers, t, flag, prio);
        return RecvBlocked;
      }
      var value := pool[outOffset];
      outOffset := outOffset + 1;
      if outOffset >= size {
        outOffset := 0;
      }
      if entry > 0 {
        entry := entry - 1;
      }
      assert Ring(pool[..], outOffset, entry) == m.mails[1..];
      ResumeSender();
      r := Received(value);
    }

    /** `rt_mb_control` with `RT_IPC_CMD_RESET`. */
    method ResetAll()
      requires Valid()
      modifies this
      ensures Valid() && View() == Reset(old(View()))
    {
      receivers, senders := [], [];
      entry, inOffset, outOffset := 0, 0, 0;
    }

    /** `_thread_timeout` for a thread suspended on this mailbox. */
    method Expire(t: Tid, receiving: bool)
      requires Valid()
      modifies this
      ensures Valid()
      ensures View() == Apply(old(View()), if receiving then ExpireReceiver(t) else ExpireSender(t), flag)
    {
      if receiving { receivers := Without(receivers, t); } else { senders := Without(senders, t); }
    }
  }
}
