/** Message queue (`rt_mq_*` in `rt-thread/src/ipc.c`). A send takes a block off the free list, drops the
    interrupt lock to copy, and links the block in a second critical section; a receive unlinks, copies
    unlocked, and returns the block. Each critical section, and each unlocked copy, is one step. */
module MessageQueue {
  import opened KernelTypes
  import opened Lists
  import opened WaitList
  import opened ServiceOrder
  import opened Lanes

  /** `RT_MQ_ENTRY_MAX`. */
  const ENTRY_MAX: nat := 65535

  type Msg = seq<Word>

  /** What the local variable `msg` of a call in progress refers to. */
  datatype Hold =
    | Grabbed(block: nat, urgent: bool)
    | Filled(block: nat, urgent: bool)
    | Draining(block: nat)

  /** `queue` and `free` list block numbers in link order; `body` holds the message bytes of each block. */
  datatype Mq = Mq(max: nat, queue: seq<nat>, free: seq<nat>, held: map<Tid, Hold>, body: seq<Msg>, rx: Gate, tx: Gate)

  datatype Event =
    | DoGrab(t: Tid, timeout: int, prio: Priorities)
    | DoGrabUrgent(t: Tid)
    | DoFill(t: Tid, data: Msg)
    | DoLink(t: Tid)
    | DoTake(t: Tid, timeout: int, prio: Priorities)
    | DoReturn(t: Tid)
    | ExpireReceiver(t: Tid)
    | ExpireSender(t: Tid)
    | DoReset

  ghost predicate Idle(m: Mq, t: Tid) {
    t !in m.held && t !in m.rx.waiting && t !in m.tx.waiting
  }

  ghost predicate Enabled(m: Mq, e: Event) {
    match e
    case DoGrab(t, _, _) => Idle(m, t) && t !in m.rx.woken
    case DoGrabUrgent(t) => Idle(m, t) && t !in m.rx.woken && t !in m.tx.woken
    case DoFill(t, _) => t in m.held && m.held[t].Grabbed? && m.held[t].block < |m.body|
    case DoLink(t) => t in m.held && m.held[t].Filled?
    case DoTake(t, _, _) => Idle(m, t) && t !in m.tx.woken
    case DoReturn(t) => t in m.held && m.held[t].Draining?
    case ExpireReceiver(t) => t in m.rx.waiting
    case ExpireSender(t) => t in m.tx.waiting
    case DoReset => true
  }

  /** First critical section of `rt_mq_send_wait`, one pass of its loop. */
  function Grab(m: Mq, t: Tid, timeout: int, flag: Flag, prio: Priorities): Mq {
    var tx := Run(m.tx, t);
    if m.free == [] then
      if timeout == 0 then m.(tx := tx) else m.(tx := Block(tx, t, flag, prio))
    else
      m.(free := m.free[1..], held := m.held[t := Grabbed(m.free[0], false)], tx := tx)
  }

  function GrabUrgent(m: Mq, t: Tid): Mq {
    if m.free == [] then m else m.(free := m.free[1..], held := m.held[t := Grabbed(m.free[0], true)])
  }

  function Fill(m: Mq, t: Tid, data: Msg): Mq
    requires t in m.held && m.held[t].Grabbed? && m.held[t].block < |m.body|
  {
    var h := m.held[t];
    m.(held := m.held[t := Filled(h.block, h.urgent)], body := m.body[h.block := data])
  }

  /** Second critical section of a send: at the tail, or at the head when urgent. */
  function Link(m: Mq, t: Tid): Mq
    requires t in m.held && m.held[t].Filled?
  {
    var h := m.held[t];
    m.(queue := if h.urgent then [h.block] + m.queue else m.queue + [h.block], held := m.held - {t}, rx := Wake(m.rx))
  }

  /** First critical section of `rt_mq_recv`, one pass of its loop. */
  function Take(m: Mq, t: Tid, timeout: int, flag: Flag, prio: Priorities): Mq {
    var rx := Run(m.rx, t);
    if m.queue == [] then
      if timeout == 0 then m.(rx := rx) else m.(rx := Block(rx, t, flag, prio))
    else
      m.(queue := m.queue[1..], held := m.held[t := Draining(m.queue[0])], rx := rx)
  }

  /** Second critical section of a receive. */
  function Return(m: Mq, t: Tid): Mq
    requires t in m.held && m.held[t].Draining?
  {
    m.(free := [m.held[t].block] + m.free, held := m.held - {t}, tx := Wake(m.tx))
  }

  function Reverse(s: seq<nat>): (r: seq<nat>)
    ensures |r| == |s|
    ensures forall x :: x in r <==> x in s
  {
    if s == [] then []
    else
      assert forall x :: x in s <==> x == s[0] || x in s[1..];
      Reverse(s[1..]) + [s[0]]
  }

  /** `RT_IPC_CMD_RESET`: queued blocks go back to the free list one by one; blocks in flight stay in flight. */
  function Reset(m: Mq): Mq {
    m.(queue := [], free := Reverse(m.queue) + m.free, rx := Flush(m.rx), tx := Flush(m.tx))
  }

  function Apply(m: Mq, e: Event, flag: Flag): Mq
    requires Enabled(m, e)
  {
    match e
    case DoGrab(t, timeout, prio) => Grab(m, t, timeout, flag, prio)
    case DoGrabUrgent(t) => GrabUrgent(m, t)
    case DoFill(t, data) => Fill(m, t, data)
    case DoLink(t) => Link(m, t)
    case DoTake(t, timeout, prio) => Take(m, t, timeout, flag, prio)
    case DoReturn(t) => Return(m, t)
    case ExpireReceiver(t) => m.(rx := TimeOut(m.rx, t))
    case ExpireSender(t) => m.(tx := TimeOut(m.tx, t))
    case DoReset => Reset(m)
  }

  /** `t` holds block `b` between two critical sections. */
  ghost predicate Holds(held: map<Tid, Hold>, t: Tid, b: nat) {
    t in held && held[t].block == b
  }

  ghost predicate InFlight(held: map<Tid, Hold>, b: nat) {
    exists t: Tid :: Holds(held, t, b)
  }

  ghost predicate OneHolder(max: nat, held: map<Tid, Hold>) {
    && (forall t :: t in held ==> held[t].block < max)
    && (forall t, u :: t in held && u in held && t != u ==> held[t].block != held[u].block)
  }

  /** Every pool block is in exactly one place: queued, free, or held by exactly one call. */
  ghost predicate Partition(max: nat, queue: seq<nat>, free: seq<nat>, held: map<Tid, Hold>) {
    && NoDup(queue) && NoDup(free)
    && (forall b: nat :: b in queue ==> b < max && b !in free && !InFlight(held, b))
    && (forall b: nat :: b in free ==> b < max && !InFlight(held, b))
    && OneHolder(max, held)
    && (forall b: nat :: b < max ==> b in queue || b in free || InFlight(held, b))
    && |queue| + |free| + |held| == max
  }

  /** A thread is at one program point at a time. */
  ghost predicate OnePlace(m: Mq) {
    && (forall t: Tid :: !(At(m.rx, t) && At(m.tx, t)))
    && (forall t: Tid :: t in m.held ==> !At(m.rx, t) && !At(m.tx, t))
  }

  ghost predicate Inv(m: Mq) {
    && Partition(m.max, m.queue, m.free, m.held) && |m.body| == m.max && OnePlace(m)
    && NoLostWakeup(m.rx, |m.queue|)
    && NoLostWakeup(m.tx, |m.free|)
  }

  lemma {:induction false} HeldSize(held: map<Tid, Hold>, t: Tid, h: Hold)
    ensures t !in held ==> |held[t := h]| == |held| + 1
    ensures t in held ==> |held[t := h]| == |held| && |held - {t}| == |held| - 1
  {
    if t in held {
      assert held[t := h].Keys == held.Keys;
      assert (held - {t}).Keys == held.Keys - {t};
    } else {
      assert held[t := h].Keys == held.Keys + {t};
    }
  }

  /** Taking the head of the free list into flight. */
  lemma {:induction false} GrabPartition(max: nat, queue: seq<nat>, free: seq<nat>, held: map<Tid, Hold>, t: Tid,
      h: Hold)
    requires Partition(max, queue, free, held) && free != [] && t !in held && h.block == free[0]
    ensures Partition(max, queue, free[1..], held[t := h])
  {
    NoDupTail(free);
    TakeOff(max, held, t, h);
  }

  lemma {:induction false} TakePartition(max: nat, queue: seq<nat>, free: seq<nat>, held: map<Tid, Hold>, t: Tid,
      h: Hold)
    requires Partition(max, queue, free, held) && queue != [] && t !in held && h.block == queue[0]
    ensures Partition(max, queue[1..], free, held[t := h])
  {
    NoDupTail(queue);
    TakeOff(max, held, t, h);
  }

  lemma {:induction false} TakeOff(max: nat, held: map<Tid, Hold>, t: Tid, h: Hold)
    requires t !in held && OneHolder(max, held) && h.block < max && !InFlight(held, h.block)
    ensures |held[t := h]| == |held| + 1 && OneHolder(max, held[t := h])
    ensures forall b: nat :: InFlight(held[t := h], b) <==> b == h.block || InFlight(held, b)
  {
    HeldSize(held, t, h);
    var n := held[t := h];
    assert Holds(n, t, h.block);
    forall u | u in held ensures held[u].block != h.block { assert !Holds(held, u, h.block); }
    forall b: nat ensures InFlight(n, b) <==> b == h.block || InFlight(held, b) {
      if InFlight(held, b) { var u :| Holds(held, u, b); assert Holds(n, u, b); }
      if InFlight(n, b) { var u :| Holds(n, u, b); assert u == t || Holds(held, u, b); }
    }
  }

  /** Ending a flight: the block reappears in exactly one list. */
  lemma {:induction false} LandPartition(max: nat, queue: seq<nat>, free: seq<nat>, held: map<Tid, Hold>, t: Tid,
      q: seq<nat>, f: seq<nat>)
    requires Partition(max, queue, free, held) && t in held && NoDup(q) && NoDup(f)
    requires forall b :: b in q || b in f <==> b in queue || b in free || b == held[t].block
    requires forall b :: b in q ==> b !in f
    requires |q| + |f| == |queue| + |free| + 1
    ensures Partition(max, q, f, held - {t})
  {
    var n := held - {t};
    HeldSize(held, t, held[t]);
    assert Holds(held, t, held[t].block);
    forall b: nat ensures InFlight(n, b) <==> b != held[t].block && InFlight(held, b) {
      if InFlight(n, b) { var u :| Holds(n, u, b); assert Holds(held, u, b) && u != t; }
      if InFlight(held, b) && b != held[t].block { var u :| Holds(held, u, b); assert Holds(n, u, b); }
    }
  }

  lemma {:induction false} LinkPartition(m: Mq, t: Tid)
    requires Partition(m.max, m.queue, m.free, m.held) && t in m.held && m.held[t].Filled?
    ensures var n := Link(m, t); Partition(n.max, n.queue, n.free, n.held)
  {
    var b := m.held[t].block;
    assert Holds(m.held, t, b) && InFlight(m.held, b);
    NoDupAppend([b], m.queue);
    NoDupAppend(m.queue, [b]);
    LandPartition(m.max, m.queue, m.free, m.held, t, if m.held[t].urgent then [b] + m.queue else m.queue + [b], m.free);
  }

  lemma {:induction false} ReturnPartition(m: Mq, t: Tid)
    requires Partition(m.max, m.queue, m.free, m.held) && t in m.held && m.held[t].Draining?
    ensures var n := Return(m, t); Partition(n.max, n.queue, n.free, n.held)
  {
    var b := m.held[t].block;
    assert Holds(m.held, t, b) && InFlight(m.held, b);
    NoDupAppend([b], m.free);
    LandPartition(m.max, m.queue, m.free, m.held, t, m.queue, [b] + m.free);
  }

  lemma {:induction false} FillPartition(max: nat, queue: seq<nat>, free: seq<nat>, held: map<Tid, Hold>, t: Tid,
      h: Hold)
    requires Partition(max, queue, free, held) && t in held && held[t].block == h.block
    ensures Partition(max, queue, free, held[t := h])
  {
    var n := held[t := h];
    HeldSize(held, t, h);
    forall b: nat ensures InFlight(n, b) <==> InFlight(held, b) {
      if InFlight(n, b) { var u :| Holds(n, u, b); assert Holds(held, u, b); }
      if InFlight(held, b) { var u :| Holds(held, u, b); assert Holds(n, u, b); }
    }
  }

  lemma {:induction false} ReverseNoDup(s: seq<nat>)
    requires NoDup(s)
    ensures NoDup(Reverse(s))
  {
    if s != [] {
      NoDupTail(s);
      ReverseNoDup(s[1..]);
      NoDupAppend(Reverse(s[1..]), [s[0]]);
    }
  }

  lemma {:induction false} ResetPartition(max: nat, queue: seq<nat>, free: seq<nat>, held: map<Tid, Hold>)
    requires Partition(max, queue, free, held)
    ensures Partition(max, [], Reverse(queue) + free, held)
  {
    ReverseNoDup(queue);
    var r, f := Reverse(queue), Reverse(queue) + free;
    NoDupAppend(r, free);
  }

  lemma {:induction false} StepPartition(m: Mq, e: Event, flag: Flag)
    requires Inv(m) && Enabled(m, e)
    ensures var n := Apply(m, e, flag); Partition(n.max, n.queue, n.free, n.held) && |n.body| == n.max
  {
    match e
    case DoGrab(t, timeout, prio) =>
      if m.free != [] { GrabPartition(m.max, m.queue, m.free, m.held, t, Grabbed(m.free[0], false)); }
    case DoGrabUrgent(t) =>
      if m.free != [] { GrabPartition(m.max, m.queue, m.free, m.held, t, Grabbed(m.free[0], true)); }
    case DoFill(t, data) =>
      FillPartition(m.max, m.queue, m.free, m.held, t, Filled(m.held[t].block, m.held[t].urgent));
    case DoLink(t) => LinkPartition(m, t);
    case DoTake(t, timeout, prio) =>
      if m.queue != [] { TakePartition(m.max, m.queue, m.free, m.held, t, Draining(m.queue[0])); }
    case DoReturn(t) => ReturnPartition(m, t);
    case ExpireReceiver(t) =>
    case ExpireSender(t) =>
    case DoReset => ResetPartition(m.max, m.queue, m.free, m.held);
  }

  lemma {:induction false} StepOnePlace(m: Mq, e: Event, flag: Flag)
    requires Inv(m) && Enabled(m, e)
    ensures OnePlace(Apply(m, e, flag))
  {
    hide Block, Wake, TimeOut, Flush, Partition, NoLostWakeup;
    match e
    case DoGrab(t, timeout, prio) =>
      GateMembers(m.tx, t, flag, prio);
      GateMembers(Run(m.tx, t), t, flag, prio);
    case DoLink(t) => GateMembers(m.rx, t, flag, x => 0);
    case DoTake(t, timeout, prio) =>
      GateMembers(m.rx, t, flag, prio);
      GateMembers(Run(m.rx, t), t, flag, prio);
    case DoReturn(t) => GateMembers(m.tx, t, flag, x => 0);
    case ExpireReceiver(t) => GateMembers(m.rx, t, flag, x => 0);
    case ExpireSender(t) => GateMembers(m.tx, t, flag, x => 0);
    case DoReset =>
      GateMembers(m.rx, 0, flag, x => 0);
      GateMembers(m.tx, 0, flag, x => 0);
    case _ =>
  }

  lemma {:induction false} StepGates(m: Mq, e: Event, flag: Flag)
    requires Inv(m) && Enabled(m, e)
    ensures var n := Apply(m, e, flag); NoLostWakeup(n.rx, |n.queue|) && NoLostWakeup(n.tx, |n.free|)
  {
    match e
    case DoGrab(t, timeout, prio) =>
      if m.free == [] { FindNothing(m.tx, t, flag, prio); } else { TakeUnit(m.tx, t, |m.free|); }
    case DoGrabUrgent(t) => if m.free != [] { FewerUnits(m.tx, |m.free|, |m.free| - 1); }
    case DoFill(t, data) =>
    case DoLink(t) => AddUnit(m.rx, |m.queue|);
    case DoTake(t, timeout, prio) =>
      if m.queue == [] { FindNothing(m.rx, t, flag, prio); } else { TakeUnit(m.rx, t, |m.queue|); }
    case DoReturn(t) => AddUnit(m.tx, |m.free|);
    case ExpireReceiver(t) => LoseWaiters(m.rx, t, |m.queue|);
    case ExpireSender(t) => LoseWaiters(m.tx, t, |m.free|);
    case DoReset =>
  }

  lemma {:induction false} StepKeeps(m: Mq, e: Event, flag: Flag)
    requires Inv(m) && Enabled(m, e)
    ensures Inv(Apply(m, e, flag))
  {
    StepPartition(m, e, flag);
    StepOnePlace(m, e, flag);
    StepGates(m, e, flag);
  }

  ghost predicate CanRun(m: Mq, es: seq<Event>, flag: Flag)
    decreases |es|
  {
    es == [] || (Enabled(m, es[0]) && CanRun(Apply(m, es[0], flag), es[1..], flag))
  }

  ghost function After(m: Mq, es: seq<Event>, flag: Flag): Mq
    requires CanRun(m, es, flag)
    decreases |es|
  {
    if es == [] then m else After(Apply(m, es[0], flag), es[1..], flag)
  }

  /** Blocks are conserved and no wake-up is lost in any interleaving of the critical sections. */
  lemma {:induction false} RunKeeps(m: Mq, es: seq<Event>, flag: Flag)
    requires Inv(m) && CanRun(m, es, flag)
    ensures Inv(After(m, es, flag))
    decreases |es|
  {
    if es != [] {
      StepKeeps(m, es[0], flag);
      RunKeeps(Apply(m, es[0], flag), es[1..], flag);
    }
  }

  /** With nobody woken and pending: receivers wait only on an empty queue, senders only while no block is
      free, and if both wait then every block is inside a call in progress. */
  lemma {:induction false} NobodyStuck(m: Mq, es: seq<Event>, flag: Flag)
    requires Inv(m) && CanRun(m, es, flag)
    ensures var n := After(m, es, flag);
      n.rx.woken == {} && n.tx.woken == {} ==>
        && (n.rx.waiting != [] ==> n.queue == [])
        && (n.tx.waiting != [] ==> n.free == [])
        && (n.rx.waiting != [] && n.tx.waiting != [] ==> |n.held| == n.max)
  {
    RunKeeps(m, es, flag);
  }

  /** A block in flight is private: no step of another thread writes its bytes or takes it away. So what a
      receiver copies out is what was at the head when it unlinked, and what is linked is what was filled. */
  lemma {:induction false} HeldIsPrivate(m: Mq, e: Event, flag: Flag, t: Tid)
    requires Inv(m) && Enabled(m, e) && t in m.held
    requires !((e.DoFill? || e.DoLink? || e.DoReturn?) && e.t == t)
    ensures var n := Apply(m, e, flag);
      && t in n.held && n.held[t] == m.held[t]
      && m.held[t].block < |m.body| == |n.body| && n.body[m.held[t].block] == m.body[m.held[t].block]
  {
  }

  /** The bytes of the queued messages, in link order. */
  ghost function Queued(m: Mq): seq<Msg>
    requires forall b :: b in m.queue ==> b < |m.body|
  {
    seq(|m.queue|, i requires 0 <= i < |m.queue| => assert m.queue[i] in m.queue; m.body[m.queue[i]])
  }

  /** The message one step unlinks, and the one it links, at the tail or, urgent, at the head. */
  ghost function Unlinked(m: Mq, e: Event): seq<Msg>
    requires forall b :: b in m.queue ==> b < |m.body|
  {
    if e.DoTake? && m.queue != [] then assert m.queue[0] in m.queue; [m.body[m.queue[0]]] else []
  }

  ghost function Linked(m: Mq, e: Event): seq<Msg> {
    if e.DoLink? && e.t in m.held && m.held[e.t].block < |m.body| then [m.body[m.held[e.t].block]] else []
  }

  /** A call between its two critical sections keeps its block, untouched, whatever the other threads do. */
  lemma {:induction false} StaysHeld(m: Mq, es: seq<Event>, flag: Flag, t: Tid)
    requires Inv(m) && CanRun(m, es, flag) && t in m.held && m.held[t].Draining?
    requires forall i :: 0 <= i < |es| ==> es[i] != DoReturn(t)
    ensures var n := After(m, es, flag);
      && t in n.held && n.held[t] == m.held[t]
      && m.held[t].block < |m.body| == |n.body| && n.body[m.held[t].block] == m.body[m.held[t].block]
    decreases |es|
  {
    if es != [] {
      HeldIsPrivate(m, es[0], flag, t);
      StepKeeps(m, es[0], flag);
      StaysHeld(Apply(m, es[0], flag), es[1..], flag, t);
    } else {
      assert Holds(m.held, t, m.held[t].block);
    }
  }

  /** A receiver delivers exactly the message that headed the queue when it unlinked it, however many steps of other
      threads come in between. */
  lemma {:induction false} DeliversTaken(m: Mq, t: Tid, timeout: int, prio: Priorities, es: seq<Event>, flag: Flag)
    requires Inv(m) && Enabled(m, DoTake(t, timeout, prio)) && m.queue != []
    requires CanRun(Apply(m, DoTake(t, timeout, prio), flag), es, flag)
    requires forall i :: 0 <= i < |es| ==> es[i] != DoReturn(t)
    ensures forall b :: b in m.queue ==> b < |m.body|
    ensures var n := After(Apply(m, DoTake(t, timeout, prio), flag), es, flag);
      t in n.held && n.held[t].block < |n.body| && n.body[n.held[t].block] == Queued(m)[0]
  {
    StepKeeps(m, DoTake(t, timeout, prio), flag);
    StaysHeld(Apply(m, DoTake(t, timeout, prio), flag), es, flag, t);
  }

  lemma {:induction false} SameQueued(m: Mq, n: Mq)
    requires forall b :: b in m.queue ==> b < |m.body|
    requires n.queue == m.queue && |n.body| == |m.body|
    requires forall b :: b in m.queue ==> n.body[b] == m.body[b]
    ensures Queued(n) == Queued(m)
  {
    forall i | 0 <= i < |m.queue| ensures Queued(n)[i] == Queued(m)[i] { assert m.queue[i] in m.queue; }
  }

  lemma {:induction false} FillQueued(m: Mq, t: Tid, data: Msg)
    requires Inv(m) && Enabled(m, DoFill(t, data))
    ensures Queued(Fill(m, t, data)) == Queued(m)
  {
    assert Holds(m.held, t, m.held[t].block) && InFlight(m.held, m.held[t].block);
    SameQueued(m, Fill(m, t, data));
  }

  lemma {:induction false} TakeQueued(m: Mq, t: Tid, timeout: int, flag: Flag, prio: Priorities)
    requires Inv(m) && Inv(Take(m, t, timeout, flag, prio))
    ensures Unlinked(m, DoTake(t, timeout, prio)) + Queued(Take(m, t, timeout, flag, prio)) == Queued(m)
  {
    hide OnePlace, NoLostWakeup, NoDup, InFlight, OneHolder, Block, Run;
    var n := Take(m, t, timeout, flag, prio);
    if m.queue == [] {
      SameQueued(m, n);
    } else {
      assert m.queue[0] in m.queue;
      assert [m.body[m.queue[0]]] + Queued(n) == Queued(m);
    }
  }

  lemma {:induction false} LinkedQueued(m: Mq, n: Mq, b: nat, urgent: bool)
    requires forall x :: x in m.queue ==> x < |m.body|
    requires b < |m.body| && n.body == m.body && n.queue == if urgent then [b] + m.queue else m.queue + [b]
    ensures forall x :: x in n.queue ==> x < |n.body|
    ensures Queued(n) == if urgent then [m.body[b]] + Queued(m) else Queued(m) + [m.body[b]]
  {
    if urgent {
      assert Queued(n) == [m.body[b]] + Queued(m);
    } else {
      assert Queued(n) == Queued(m) + [m.body[b]];
    }
  }

  lemma {:induction false} LinkQueued(m: Mq, t: Tid)
    requires Inv(m) && Enabled(m, DoLink(t)) && Inv(Link(m, t))
    ensures Queued(Link(m, t)) ==
      if m.held[t].urgent then Linked(m, DoLink(t)) + Queued(m) else Queued(m) + Linked(m, DoLink(t))
  {
    var n, b := Link(m, t), m.held[t].block;
    assert b < |m.body|;
    LinkedQueued(m, n, b, m.held[t].urgent);
  }

  lemma {:induction false} OtherQueued(m: Mq, e: Event, flag: Flag)
    requires Inv(m) && Enabled(m, e) && !e.DoReset? && !e.DoFill? && !e.DoLink? && !e.DoTake?
    ensures var n := Apply(m, e, flag); n.queue == m.queue && n.body == m.body
  {
  }

  /** What one step does to the queued messages: take the front, append, or prepend when urgent. */
  lemma {:induction false} FifoStep(m: Mq, e: Event, flag: Flag)
    requires Inv(m) && Enabled(m, e) && !e.DoReset?
    ensures Inv(Apply(m, e, flag))
    ensures e.DoLink? && m.held[e.t].urgent ==> Queued(Apply(m, e, flag)) == Linked(m, e) + Queued(m)
    ensures !(e.DoLink? && m.held[e.t].urgent) ==>
      Unlinked(m, e) + Queued(Apply(m, e, flag)) == Queued(m) + Linked(m, e)
  {
    StepKeeps(m, e, flag);
    if e.DoFill? {
      FillQueued(m, e.t, e.data);
    } else if e.DoLink? {
      LinkQueued(m, e.t);
    } else if e.DoTake? {
      TakeQueued(m, e.t, e.timeout, flag, e.prio);
    } else {
      OtherQueued(m, e, flag);
      SameQueued(m, Apply(m, e, flag));
    }
  }

  ghost function AllUnlinked(m: Mq, es: seq<Event>, flag: Flag): seq<Msg>
    requires Inv(m) && CanRun(m, es, flag)
    decreases |es|
  {
    if es == [] then []
    else
      StepKeeps(m, es[0], flag);
      Unlinked(m, es[0]) + AllUnlinked(Apply(m, es[0], flag), es[1..], flag)
  }

  ghost predicate Urgently(m: Mq, e: Event)
    requires Enabled(m, e)
  {
    e.DoLink? && m.held[e.t].urgent
  }

  ghost function Appended(m: Mq, e: Event): seq<Msg>
    requires Enabled(m, e)
  {
    if Urgently(m, e) then [] else Linked(m, e)
  }

  ghost function Pressed(m: Mq, e: Event): seq<Msg>
    requires Enabled(m, e)
  {
    if Urgently(m, e) then Linked(m, e) else []
  }

  ghost function AllAppended(m: Mq, es: seq<Event>, flag: Flag): seq<Msg>
    requires CanRun(m, es, flag)
    decreases |es|
  {
    if es == [] then [] else Appended(m, es[0]) + AllAppended(Apply(m, es[0], flag), es[1..], flag)
  }

  ghost function AllPressed(m: Mq, es: seq<Event>, flag: Flag): seq<Msg>
    requires CanRun(m, es, flag)
    decreases |es|
  {
    if es == [] then [] else Pressed(m, es[0]) + AllPressed(Apply(m, es[0], flag), es[1..], flag)
  }

  /** The step as a move of a deque. */
  ghost function MoveOf(m: Mq, e: Event): seq<Move<Msg>>
    requires Enabled(m, e)
  {
    if Linked(m, e) != [] then [if Urgently(m, e) then Urge(Linked(m, e)[0]) else Push(Linked(m, e)[0])]
    else if e.DoTake? && m.queue != [] then [Pull]
    else []
  }

  ghost function Moves(m: Mq, es: seq<Event>, flag: Flag): seq<Move<Msg>>
    requires CanRun(m, es, flag)
    decreases |es|
  {
    if es == [] then [] else MoveOf(m, es[0]) + Moves(Apply(m, es[0], flag), es[1..], flag)
  }

  lemma {:induction false} StepMoves(m: Mq, e: Event, flag: Flag)
    requires Inv(m) && Enabled(m, e) && !e.DoReset?
    ensures Inv(Apply(m, e, flag))
    ensures var a := MoveOf(m, e);
      && |a| <= 1 && Deque(Queued(m), a) == Queued(Apply(m, e, flag)) && Out(Queued(m), a) == Unlinked(m, e)
      && Pushed(a) == Appended(m, e) && Urged(a) == Pressed(m, e)
  {
    FifoStep(m, e, flag);
    MoveTail(MoveOf(m, e));
    hide Inv, Apply, Enabled;
    var q, n := Queued(m), Queued(Apply(m, e, flag));
    if Linked(m, e) != [] {
      assert Unlinked(m, e) == [] && Unlinked(m, e) + n == n;
    } else if e.DoTake? && m.queue != [] {
      assert q == Unlinked(m, e) + n && q[1..] == n;
    } else {
      assert Unlinked(m, e) + n == n && q + Linked(m, e) == q;
    }
  }

  lemma {:induction false} QueueInside(m: Mq)
    requires Inv(m)
    ensures forall b :: b in m.queue ==> b < |m.body|
  {
  }

  lemma {:induction false} MoveTail(a: seq<Move<Msg>>)
    ensures |a| == 1 ==> a[1..] == []
  {
  }

  ghost predicate NoReset(es: seq<Event>) {
    forall i :: 0 <= i < |es| ==> !es[i].DoReset?
  }

  lemma {:induction false} RunMoves(m: Mq, es: seq<Event>, flag: Flag)
    requires Inv(m) && CanRun(m, es, flag) && NoReset(es)
    ensures Inv(After(m, es, flag))
    ensures var ms := Moves(m, es, flag);
      && Deque(Queued(m), ms) == Queued(After(m, es, flag)) && Out(Queued(m), ms) == AllUnlinked(m, es, flag)
      && Pushed(ms) == AllAppended(m, es, flag) && Urged(ms) == AllPressed(m, es, flag)
    decreases |es|
  {
    hide Inv, Apply, Enabled, MoveOf, Unlinked, Appended, Pressed, Queued;
    if es != [] {
      var n := Apply(m, es[0], flag);
      StepMoves(m, es[0], flag);
      RunMoves(n, es[1..], flag);
      QueueInside(m);
      FirstMove(Queued(m), MoveOf(m, es[0]), Moves(n, es[1..], flag));
    }
  }

  /** A send in progress, as its caller sees it: which call it is, and the message it was given. */
  datatype Parcel = Parcel(urgent: bool, data: Msg)

  /** What the callers asked for, step by step; nothing here looks at a block. */
  ghost function Noted(e: Event, p: map<Tid, Parcel>): map<Tid, Parcel> {
    match e
    case DoGrab(t, _, _) => p[t := Parcel(false, [])]
    case DoGrabUrgent(t) => p[t := Parcel(true, [])]
    case DoFill(t, data) => if t in p then p[t := Parcel(p[t].urgent, data)] else p
    case _ => p
  }

  /** What the step should do to the queue of messages. */
  ghost function SentMove(m: Mq, e: Event, p: map<Tid, Parcel>): seq<Move<Msg>> {
    match e
    case DoLink(t) => if t in p then [if p[t].urgent then Urge(p[t].data) else Push(p[t].data)] else []
    case DoTake(_, _, _) => if m.queue != [] then [Pull] else []
    case _ => []
  }

  ghost function SentMoves(m: Mq, es: seq<Event>, flag: Flag, p: map<Tid, Parcel>): seq<Move<Msg>>
    requires CanRun(m, es, flag)
    decreases |es|
  {
    if es == [] then []
    else SentMove(m, es[0], p) + SentMoves(Apply(m, es[0], flag), es[1..], flag, Noted(es[0], p))
  }

  /** The block of a send in progress is as its caller's notes have it. */
  ghost predicate Carries(m: Mq, p: map<Tid, Parcel>, t: Tid) {
    t in m.held && !m.held[t].Draining? ==>
      && t in p && p[t].urgent == m.held[t].urgent
      && (m.held[t].Filled? ==> m.held[t].block < |m.body| && m.body[m.held[t].block] == p[t].data)
  }

  ghost predicate Matches(m: Mq, p: map<Tid, Parcel>) {
    forall t: Tid :: t in m.held ==> Carries(m, p, t)
  }

  lemma {:induction false} MatchesOwn(m: Mq, e: Event, flag: Flag, p: map<Tid, Parcel>)
    requires Inv(m) && Enabled(m, e) && Matches(m, p) && (e.DoGrab? || e.DoGrabUrgent? || e.DoFill?)
    ensures Carries(Apply(m, e, flag), Noted(e, p), e.t)
  {
    hide Block, Run, NoLostWakeup, OnePlace;
    if e.DoFill? { assert Carries(m, p, e.t); }
  }

  lemma {:induction false} MatchesStep(m: Mq, e: Event, flag: Flag, p: map<Tid, Parcel>)
    requires Inv(m) && Enabled(m, e) && Matches(m, p)
    ensures Matches(Apply(m, e, flag), Noted(e, p))
  {
    var n, q := Apply(m, e, flag), Noted(e, p);
    forall t: Tid | t in n.held ensures Carries(n, q, t) {
      if (e.DoGrab? || e.DoGrabUrgent? || e.DoFill?) && e.t == t {
        MatchesOwn(m, e, flag, p);
      } else {
        HeldBefore(m, e, flag, t);
        if t in m.held && !((e.DoLink? || e.DoReturn?) && e.t == t) {
          assert Carries(m, p, t);
          HeldIsPrivate(m, e, flag, t);
          assert t in p ==> t in q && q[t] == p[t];
        }
      }
    }
  }

  lemma {:induction false} HeldBefore(m: Mq, e: Event, flag: Flag, t: Tid)
    requires Inv(m) && Enabled(m, e) && t in Apply(m, e, flag).held
    requires !((e.DoGrab? || e.DoGrabUrgent? || e.DoFill?) && e.t == t)
    ensures t in m.held || Apply(m, e, flag).held[t].Draining?
    ensures !((e.DoLink? || e.DoReturn?) && e.t == t)
  {
    hide Block, Run, Wake, NoLostWakeup, OnePlace, Partition;
  }

  lemma {:induction false} MoveAsSent(m: Mq, e: Event, flag: Flag, p: map<Tid, Parcel>)
    requires Inv(m) && Enabled(m, e) && Matches(m, p)
    ensures MoveOf(m, e) == SentMove(m, e, p)
  {
    if e.DoLink? { assert Carries(m, p, e.t); }
  }

  lemma {:induction false} MovesAsSent(m: Mq, es: seq<Event>, flag: Flag, p: map<Tid, Parcel>)
    requires Inv(m) && CanRun(m, es, flag) && Matches(m, p)
    ensures Moves(m, es, flag) == SentMoves(m, es, flag, p)
    decreases |es|
  {
    hide Inv, Apply, Enabled, MoveOf, SentMove, Matches, Noted;
    if es != [] {
      StepKeeps(m, es[0], flag);
      MoveAsSent(m, es[0], flag, p);
      MatchesStep(m, es[0], flag, p);
      MovesAsSent(Apply(m, es[0], flag), es[1..], flag, Noted(es[0], p));
    }
  }

  /** Over every run without reset, from callers to receivers: the messages unlinked are those the senders passed in,
      whole and exactly once each, ordinary ones in the order in which they were linked, urgent ones in front of them
      and newest first (see `Lanes`). Without urgent sends that is first in, first out. */
  lemma {:induction false} FifoRun(m: Mq, es: seq<Event>, flag: Flag, p: map<Tid, Parcel>)
    requires Inv(m) && CanRun(m, es, flag) && NoReset(es) && Matches(m, p)
    ensures Inv(After(m, es, flag))
    ensures var ms := SentMoves(m, es, flag, p);
      && InLanes(Queued(m), ms, AllUnlinked(m, es, flag), Queued(After(m, es, flag)), Pushed(ms), Urged(ms))
      && (Urged(ms) == [] ==> AllUnlinked(m, es, flag) + Queued(After(m, es, flag)) == Queued(m) + Pushed(ms))
  {
    hide Inv, Apply, Enabled, InLanes, Moves, SentMoves, AllUnlinked, Deque, Out, Pushed, Urged, Matches;
    RunMoves(m, es, flag);
    MovesAsSent(m, es, flag, p);
    QueueInside(m);
    RunsInLanes(Queued(m), Moves(m, es, flag));
  }

  /** The steps of other threads. */
  ghost predicate Others(es: seq<Event>, t: Tid) {
    forall i :: 0 <= i < |es| ==> !((es[i].DoFill? || es[i].DoLink? || es[i].DoReturn?) && es[i].t == t)
  }

  /** One send: what it copies into its block is what it links, whatever other threads do in between. */
  lemma {:induction false} LinksGiven(m: Mq, t: Tid, data: Msg, es: seq<Event>, flag: Flag)
    requires Inv(m) && Enabled(m, DoFill(t, data)) && CanRun(Fill(m, t, data), es, flag) && Others(es, t)
    ensures var n := After(Fill(m, t, data), es, flag);
      && Inv(n) && Enabled(n, DoLink(t)) && Inv(Link(n, t))
      && Queued(Link(n, t)) == if m.held[t].urgent then [data] + Queued(n) else Queued(n) + [data]
  {
    var f := Fill(m, t, data);
    StepKeeps(m, DoFill(t, data), flag);
    StaysFilled(f, es, flag, t);
    var n := After(f, es, flag);
    StepKeeps(n, DoLink(t), flag);
    FifoStep(n, DoLink(t), flag);
    hide Inv, Apply, After;
    assert Linked(n, DoLink(t)) == [data];
    assert Unlinked(n, DoLink(t)) + Queued(Link(n, t)) == Queued(Link(n, t));
  }

  lemma {:induction false} StaysFilled(m: Mq, es: seq<Event>, flag: Flag, t: Tid)
    requires Inv(m) && CanRun(m, es, flag) && t in m.held && Others(es, t)
    ensures var n := After(m, es, flag);
      && Inv(n) && t in n.held && n.held[t] == m.held[t]
      && m.held[t].block < |m.body| == |n.body| && n.body[m.held[t].block] == m.body[m.held[t].block]
    decreases |es|
  {
    hide Apply, Enabled;
    if es != [] {
      HeldIsPrivate(m, es[0], flag, t);
      StepKeeps(m, es[0], flag);
      StaysFilled(Apply(m, es[0], flag), es[1..], flag, t);
    } else {
      assert Holds(m.held, t, m.held[t].block);
    }
  }

  /** What the first section of a send does: it takes one free block into flight exactly if there is one; otherwise the
      caller waits exactly if it gave a time other than zero. */
  lemma {:induction false} GrabMeans(m: Mq, t: Tid, timeout: int, flag: Flag, prio: Priorities)
    requires Inv(m) && Enabled(m, DoGrab(t, timeout, prio))
    ensures var n := Grab(m, t, timeout, flag, prio);
      && n == m.(free := n.free, held := n.held, tx := n.tx)
      && (if m.free != [] then Grabs(m, n, t, false) else n.free == [] && n.held == m.held)
      && (t in n.tx.waiting <==> m.free == [] && timeout != 0)
      && (if t in n.tx.waiting then Joined(m.tx, n.tx, t) else n.tx == Gate(m.tx.waiting, m.tx.woken - {t}))
  {
    hide Enqueue, Without, Position, Partition, OnePlace;
    BlockJoins(m.tx, t, flag, prio);
  }

  /** `t` now holds a block that was free. */
  ghost predicate Grabs(m: Mq, n: Mq, t: Tid, urgent: bool) {
    && t in n.held && n.held[t].Grabbed? && n.held[t].urgent == urgent && n.held == m.held[t := n.held[t]]
    && m.free == [n.held[t].block] + n.free
  }

  /** An urgent send never waits. */
  lemma {:induction false} GrabUrgentMeans(m: Mq, t: Tid)
    requires Inv(m) && Enabled(m, DoGrabUrgent(t))
    ensures var n := GrabUrgent(m, t);
      && n == m.(free := n.free, held := n.held)
      && if m.free != [] then Grabs(m, n, t, true) else n == m
  {
  }

  /** A send ends with its block in the queue and one receiver resumed if any waits; a receive with its block free and
      one sender resumed if any waits. Neither touches anything else. */
  lemma {:induction false} EndsMean(m: Mq, t: Tid)
    requires Inv(m) && t in m.held
    ensures m.held[t].Filled? ==> var n := Link(m, t);
      && n == m.(queue := n.queue, held := m.held - {t}, rx := n.rx) && Resumed(m.rx, n.rx)
      && multiset(n.queue) == multiset(m.queue) + multiset{m.held[t].block}
    ensures m.held[t].Draining? ==> var n := Return(m, t);
      && n == m.(free := n.free, held := m.held - {t}, tx := n.tx) && Resumed(m.tx, n.tx)
      && multiset(n.free) == multiset(m.free) + multiset{m.held[t].block}
  {
    hide Partition, OnePlace;
    WakeResumes(m.rx);
    WakeResumes(m.tx);
  }

  /** What the first section of a receive does. */
  lemma {:induction false} TakeMeans(m: Mq, t: Tid, timeout: int, flag: Flag, prio: Priorities)
    requires Inv(m) && Enabled(m, DoTake(t, timeout, prio))
    ensures var n := Take(m, t, timeout, flag, prio);
      && n == m.(queue := n.queue, held := n.held, rx := n.rx)
      && (if m.queue != [] then
            && t in n.held && n.held[t].Draining? && n.held == m.held[t := n.held[t]]
            && m.queue == [n.held[t].block] + n.queue
          else n.queue == [] && n.held == m.held)
      && (t in n.rx.waiting <==> m.queue == [] && timeout != 0)
      && (if t in n.rx.waiting then Joined(m.rx, n.rx, t) else n.rx == Gate(m.rx.waiting, m.rx.woken - {t}))
  {
    hide Enqueue, Without, Position, Partition, OnePlace;
    BlockJoins(m.rx, t, flag, prio);
  }

  /** A reset leaves no message and nobody waiting, and calls in progress untouched; a timeout takes out its thread and
      does nothing else. */
  lemma {:induction false} OthersMean(m: Mq, e: Event, flag: Flag)
    requires Inv(m) && Enabled(m, e)
    ensures var n := Apply(m, e, flag);
      && (e.DoReset? ==>
            && n == m.(queue := [], free := n.free, rx := n.rx, tx := n.tx)
            && (forall b :: b in n.free <==> b in m.free || b in m.queue)
            && n.rx.waiting == [] && n.tx.waiting == [] && n.rx.woken == m.rx.woken && n.tx.woken == m.tx.woken)
      && (e.ExpireReceiver? ==>
            && n == m.(rx := n.rx) && e.t !in n.rx.waiting && n.rx.woken == m.rx.woken
            && multiset(n.rx.waiting) == multiset(m.rx.waiting) - multiset{e.t})
      && (e.ExpireSender? ==>
            && n == m.(tx := n.tx) && e.t !in n.tx.waiting && n.tx.woken == m.tx.woken
            && multiset(n.tx.waiting) == multiset(m.tx.waiting) - multiset{e.t})
  {
    hide Partition, OnePlace;
    if e.ExpireReceiver? { LeavingMeans(m.rx, e.t); }
    if e.ExpireSender? { LeavingMeans(m.tx, e.t); }
  }

  /** The thread a step is about. */
  function Subject(e: Event): Tid {
    if e.DoReset? then 0 else e.t
  }

  /** All threads keep the priorities `prio` while the run lasts. */
  ghost predicate Steady(es: seq<Event>, prio: Priorities) {
    forall i :: 0 <= i < |es| && (es[i].DoGrab? || es[i].DoTake?) ==> es[i].prio == prio
  }

  /** When the waiting receivers and senders were suspended, by the number of the step. */
  ghost function Stamps(
    m: Mq, es: seq<Event>, flag: Flag, rx: map<Tid, nat>, tx: map<Tid, nat>, now: nat): (map<Tid, nat>, map<Tid, nat>)
    requires CanRun(m, es, flag)
    decreases |es|
  {
    if es == [] then (rx, tx)
    else
      var n, t := Apply(m, es[0], flag), Subject(es[0]);
      Stamps(n, es[1..], flag, Stamp(m.rx.waiting, n.rx.waiting, t, rx, now),
             Stamp(m.tx.waiting, n.tx.waiting, t, tx, now), now + 1)
  }

  lemma {:induction false} StepLists(m: Mq, e: Event, flag: Flag, prio: Priorities)
    requires Enabled(m, e) && ((e.DoGrab? || e.DoTake?) ==> e.prio == prio)
    ensures ListStep(m.rx.waiting, Apply(m, e, flag).rx.waiting, Subject(e), flag, prio)
    ensures ListStep(m.tx.waiting, Apply(m, e, flag).tx.waiting, Subject(e), flag, prio)
  {
    hide Enqueue, Without;
  }

  lemma {:induction false} RunTurns(
    m: Mq, es: seq<Event>, flag: Flag, prio: Priorities, rx: map<Tid, nat>, tx: map<Tid, nat>, now: nat)
    requires CanRun(m, es, flag) && Steady(es, prio)
    requires Turns(m.rx.waiting, Key(flag, prio), rx, now) && Turns(m.tx.waiting, Key(flag, prio), tx, now)
    ensures var n, at := After(m, es, flag), Stamps(m, es, flag, rx, tx, now);
      && Turns(n.rx.waiting, Key(flag, prio), at.0, now + |es|)
      && Turns(n.tx.waiting, Key(flag, prio), at.1, now + |es|)
    decreases |es|
  {
    hide Turns, Key, Apply, Enabled, ListStep, Stamp, Subject;
    if es != [] {
      var n, t := Apply(m, es[0], flag), Subject(es[0]);
      StepLists(m, es[0], flag, prio);
      StepTurns(m.rx.waiting, n.rx.waiting, t, flag, prio, rx, now);
      StepTurns(m.tx.waiting, n.tx.waiting, t, flag, prio, tx, now);
      assert Steady(es[1..], prio);
      RunTurns(n, es[1..], flag, prio, Stamp(m.rx.waiting, n.rx.waiting, t, rx, now),
               Stamp(m.tx.waiting, n.tx.waiting, t, tx, now), now + 1);
    }
  }

  lemma {:induction false} WakesHead(m: Mq, e: Event, flag: Flag, u: Tid)
    requires Enabled(m, e)
    ensures u in Apply(m, e, flag).rx.woken && u !in m.rx.woken ==> m.rx.waiting != [] && u == m.rx.waiting[0]
    ensures u in Apply(m, e, flag).tx.woken && u !in m.tx.woken ==> m.tx.waiting != [] && u == m.tx.waiting[0]
  {
    hide Enqueue, Without;
  }

  /** After any run from a state with nobody waiting, whoever a step resumes is the one whose turn it is: the most
      urgent under `Prio`, and among equals, as under `Fifo`, the one suspended first. */
  lemma {:induction false} ServesInTurn(m: Mq, es: seq<Event>, flag: Flag, prio: Priorities, e: Event, u: Tid)
    requires m.rx.waiting == [] && m.tx.waiting == [] && CanRun(m, es, flag) && Steady(es, prio)
    requires Enabled(After(m, es, flag), e)
    ensures var n, at := After(m, es, flag), Stamps(m, es, flag, map[], map[], 0); var l := Apply(n, e, flag);
      && (u in l.rx.woken && u !in n.rx.woken ==> Foremost(n.rx.waiting, u, Key(flag, prio), at.0))
      && (u in l.tx.woken && u !in n.tx.woken ==> Foremost(n.tx.waiting, u, Key(flag, prio), at.1))
  {
    hide Turns, Key, Foremost, Apply, Enabled;
    NoTurns(Key(flag, prio));
    RunTurns(m, es, flag, prio, map[], map[], 0);
    var n, at := After(m, es, flag), Stamps(m, es, flag, map[], map[], 0);
    WakesHead(n, e, flag, u);
    if n.rx.waiting != [] { HeadForemost(n.rx.waiting, Key(flag, prio), at.0, |es|); }
    if n.tx.waiting != [] { HeadForemost(n.tx.waiting, Key(flag, prio), at.1, |es|); }
  }

  /** `NULL` as a block link. */
  const NIL: int := -1

  ghost predicate LinkAt(next: seq<int>, s: seq<nat>, i: nat)
    requires i < |s|
  {
    s[i] < |next| && next[s[i]] == if i + 1 < |s| then s[i + 1] else NIL
  }

  /** The list starting at `h` through the `next` fields is exactly `s`. */
  ghost predicate Chained(next: seq<int>, h: int, s: seq<nat>) {
    && h == (if s == [] then NIL else s[0])
    && forall i :: 0 <= i < |s| ==> LinkAt(next, s, i)
  }

  lemma {:induction false} ChainedFrame(next: seq<int>, after: seq<int>, h: int, s: seq<nat>, b: nat)
    requires Chained(next, h, s) && |after| == |next| && b !in s
    requires forall j :: 0 <= j < |next| && j != b ==> after[j] == next[j]
    ensures Chained(after, h, s)
  {
    forall i | 0 <= i < |s| ensures LinkAt(after, s, i) {
      assert LinkAt(next, s, i) && s[i] in s;
    }
  }

  lemma {:induction false} ChainedPush(next: seq<int>, h: int, s: seq<nat>, b: nat)
    requires Chained(next, h, s) && b < |next| && b !in s
    ensures Chained(next[b := h], b, [b] + s)
  {
    ChainedFrame(next, next[b := h], h, s, b);
    var n, r := next[b := h], [b] + s;
    forall i | 0 <= i < |r| ensures LinkAt(n, r, i) {
      if i > 0 { assert LinkAt(n, s, i - 1); }
    }
  }

  lemma {:induction false} ChainedAppend(next: seq<int>, h: int, s: seq<nat>, b: nat)
    requires Chained(next, h, s) && b < |next| && b !in s && NoDup(s) && next[b] == NIL
    ensures s == [] ==> Chained(next, b, [b])
    ensures s != [] ==> s[|s| - 1] < |next| && Chained(next[s[|s| - 1] := b], h, s + [b])
  {
    if s != [] {
      var l := s[|s| - 1];
      assert LinkAt(next, s, |s| - 1);
      var n, r := next[l := b], s + [b];
      forall i | 0 <= i < |r| ensures LinkAt(n, r, i) {
        if i < |s| { assert LinkAt(next, s, i); }
      }
    }
  }

  lemma {:induction false} ChainedEmpty(next: seq<int>, h: int, s: seq<nat>)
    requires Chained(next, h, s)
    ensures h == NIL <==> s == []
  {
  }

  lemma {:induction false} ChainedPop(next: seq<int>, h: int, s: seq<nat>)
    requires Chained(next, h, s) && s != []
    ensures h == s[0] && s[0] < |next| && Chained(next, next[s[0]], s[1..])
  {
    assert LinkAt(next, s, 0);
    forall i | 0 <= i < |s| - 1 ensures LinkAt(next, s[1..], i) {
      assert LinkAt(next, s, i + 1);
    }
  }

  class QueueObject {
    const max: nat
    const next: array<int>
    const body: array<Msg>
    const flag: Flag
    var head: int
    var tail: int
    var freeHead: int
    var entry: nat
    var receivers: seq<Tid>
    var senders: seq<Tid>
    /** The local `msg` of every call between its two critical sections. */
    var held: map<Tid, Hold>
    ghost var queue: seq<nat>
    ghost var free: seq<nat>
    ghost var wokenReceivers: set<Tid>
    ghost var wokenSenders: set<Tid>

    ghost function View(): Mq
      reads this, body
    {
      Mq(max, queue, free, held, body[..], Gate(receivers, wokenReceivers), Gate(senders, wokenSenders))
    }

    /** How the fields represent the abstract queue. `Inv(View())` is required beside it and, by
        `StepKeeps`, kept by every method. */
    ghost predicate Valid()
      reads this, next, body
    {
      && next.Length == body.Length == max <= ENTRY_MAX
      && Chained(next[..], head, queue) && Chained(next[..], freeHead, free)
      && entry == |queue|
      && tail == (if queue == [] then NIL else queue[|queue| - 1])
      && forall t :: t in held && held[t].Filled? && !held[t].urgent ==>
           held[t].block < next.Length && next[held[t].block] == NIL
    }

    /** `rt_mq_init`: the free list is built by pushing block 0, 1, ... */
    constructor (blocks: nat, queueing: Flag)
      requires blocks <= ENTRY_MAX
      ensures Valid() && Inv(View()) && max == blocks && flag == queueing
      ensures queue == [] && |free| == blocks && held == map[] && receivers == [] && senders == []
    {
      max, flag := blocks, queueing;
      next := new int[blocks];
      body := new Msg[blocks](i => []);
      head, tail, freeHead, entry := NIL, NIL, NIL, 0;
      receivers, senders, held := [], [], map[];
      queue, free, wokenReceivers, wokenSenders := [], [], {}, {};
      new;
      for temp := 0 to blocks
        invariant |free| == temp && NoDup(free)
        invariant forall b: nat :: b in free <==> b < temp
        invariant Chained(next[..], freeHead, free)
        invariant queue == [] && held == map[] && entry == 0 && head == tail == NIL
        invariant receivers == [] && senders == [] && wokenReceivers == {} && wokenSenders == {}
        modifies this, next
      {
        ChainedPush(next[..], freeHead, free, temp);
        next[temp] := freeHead;
        freeHead := temp;
        NoDupAppend([temp], free);
        assert forall b: nat :: b in [temp] + free <==> b == temp || b in free;
        free := [temp] + free;
      }
      assert forall b: nat :: !InFlight(held, b);
    }

    /** The block a call holds is in neither list. */
    lemma {:induction false} HeldApart(t: Tid)
      requires Valid() && Inv(View()) && t in held
      ensures held[t].block < max && held[t].block !in queue && held[t].block !in free
    {
      assert Holds(held, t, held[t].block) && InFlight(held, held[t].block);
    }

    lemma {:induction false} QueuedApart()
      requires Valid() && Inv(View())
      ensures NoDup(queue)
      ensures queue != [] ==> 0 <= tail < max && tail !in free && forall u :: u in held ==> held[u].block != tail
    {
      if queue != [] {
        assert queue[|queue| - 1] in queue;
        forall u | u in held ensures held[u].block != tail { HeldApart(u); }
      }
    }

    /** First critical section of `rt_mq_send_wait` (one pass of its loop); true when a block was taken. */
    method SendGrab(t: Tid, timeout: int, prio: Priorities) returns (ok: bool)
      requires Valid() && Inv(View()) && Enabled(View(), DoGrab(t, timeout, prio))
      modifies this
      ensures Valid() && View() == Apply(old(View()), DoGrab(t, timeout, prio), flag)
      ensures ok <==> old(free) != []
    {
      hide Chained, Inv, Enabled, Enqueue, NoDup;
      ChainedEmpty(next[..], freeHead, free);
      wokenSenders := wokenSenders - {t};
      if freeHead == NIL {
        if timeout != 0 {
          senders := Suspend(senders, t, flag, prio);
        }
        return false;
      }
      ChainedPop(next[..], freeHead, free);
      held := held[t := Grabbed(freeHead, false)];
      freeHead := next[freeHead];
      free := free[1..];
      return true;
    }

    /** First critical section of `rt_mq_urgent`; false is its full return. */
    method UrgentGrab(t: Tid) returns (ok: bool)
      requires Valid() && Inv(View()) && Enabled(View(), DoGrabUrgent(t))
      modifies this
      ensures Valid() && View() == Apply(old(View()), DoGrabUrgent(t), flag)
      ensures ok <==> old(free) != []
    {
      if freeHead == NIL {
        return false;
      }
      ChainedPop(next[..], freeHead, free);
      held := held[t := Grabbed(freeHead, true)];
      freeHead := next[freeHead];
      free := free[1..];
      return true;
    }

    /** The unlocked copy into the block, which for an ordinary send also ends the block's link. */
    method FillBlock(t: Tid, data: Msg)
      requires Valid() && Inv(View()) && Enabled(View(), DoFill(t, data))
      modifies this, next, body
      ensures Valid() && View() == Apply(old(View()), DoFill(t, data), flag)
    {
      HeldApart(t);
      var msg, urgent := held[t].block, held[t].urgent;
      ghost var was := next[..];
      if !urgent {
        next[msg] := NIL;
      }
      body[msg] := data;
      held := held[t := Filled(msg, urgent)];
      ChainedFrame(was, next[..], head, queue, msg);
      ChainedFrame(was, next[..], freeHead, free, msg);
    }

    /** `if (!rt_list_isempty(...)) _ipc_list_resume(...)` on the receiving side. */
    method ResumeReceiver()
      modifies `receivers, `wokenReceivers
      ensures Gate(receivers, wokenReceivers) == Wake(Gate(old(receivers), old(wokenReceivers)))
    {
      if receivers != [] {
        wokenReceivers := wokenReceivers + {receivers[0]};
        receivers := receivers[1..];
      }
    }

    method ResumeSender()
      modifies `senders, `wokenSenders
      ensures Gate(senders, wokenSenders) == Wake(Gate(old(senders), old(wokenSenders)))
    {
      if senders != [] {
        wokenSenders := wokenSenders + {senders[0]};
        senders := senders[1..];
      }
    }

    /** Distinct calls hold distinct blocks. */
    lemma {:induction false} HeldAlone(t: Tid)
      requires Valid() && Inv(View()) && t in held
      ensures forall u :: u in held && u != t ==> held[u].block != held[t].block
    {
    }

    /** A held block and the queued ones leave room in the 16-bit entry counter. */
    lemma {:induction false} EntryFits(t: Tid)
      requires Valid() && Inv(View()) && t in held
      ensures entry < ENTRY_MAX
    {
      assert held.Keys != {};
      assert |held| == |held.Keys| > 0;
    }

    /** Link block `msg` behind the tail. */
    method AppendBlock(msg: nat)
      requires Valid() && NoDup(queue) && msg < max && msg !in queue && msg !in free && next[msg] == NIL
      requires queue != [] ==> 0 <= tail < max && tail !in free
      modifies `head, `tail, `queue, next
      ensures queue == old(queue) + [msg] && tail == msg
      ensures Chained(next[..], head, queue) && Chained(next[..], freeHead, free)
      ensures forall j :: 0 <= j < max && (old(queue) == [] || j != old(tail)) ==> next[j] == old(next[j])
    {
      ghost var was := next[..];
      ChainedAppend(was, head, queue, msg);
      if tail != NIL {
        next[tail] := msg;
        assert next[..] == was[tail := msg];
        ChainedFrame(was, next[..], freeHead, free, tail);
      } else {
        assert next[..] == was;
      }
      tail := msg;
      if head == NIL {
        head := msg;
      }
      queue := queue + [msg];
    }

    /** Second critical section of `rt_mq_send_wait`. */
    method SendLink(t: Tid)
      requires Valid() && Inv(View()) && Enabled(View(), DoLink(t)) && !held[t].urgent
      modifies this, next
      ensures Valid() && View() == Apply(old(View()), DoLink(t), flag)
    {
      hide Chained, Inv, Wake;
      QueuedApart();
      HeldApart(t);
      EntryFits(t);
      AppendBlock(held[t].block);
      held := held - {t};
      if entry < ENTRY_MAX {
        entry := entry + 1;
      } else {
        assert false;  // the overflow return is unreachable
      }
      ResumeReceiver();
    }

    /** Link block `msg` before the head. */
    method PrependBlock(msg: nat)
      requires Valid() && msg < max && msg !in queue && msg !in free
      modifies `head, `tail, `queue, next
      ensures queue == [msg] + old(queue) && head == msg
      ensures tail == (if old(queue) == [] then msg else old(tail))
      ensures Chained(next[..], head, queue) && Chained(next[..], freeHead, free)
      ensures forall j :: 0 <= j < max && j != msg ==> next[j] == old(next[j])
    {
      ghost var was := next[..];
      ChainedPush(was, head, queue, msg);
      ChainedFrame(was, was[msg := head], freeHead, free, msg);
      next[msg] := head;
      assert next[..] == was[msg := head];
      head := msg;
      if tail == NIL {
        tail := msg;
      }
      queue := [msg] + queue;
    }

    /** Second critical section of `rt_mq_urgent`. */
    method UrgentLink(t: Tid)
      requires Valid() && Inv(View()) && Enabled(View(), DoLink(t)) && held[t].urgent
      modifies this, next
      ensures Valid() && View() == Apply(old(View()), DoLink(t), flag)
    {
      hide Chained, Inv, Wake, LinkAt;
      HeldApart(t);
      HeldAlone(t);
      EntryFits(t);
      PrependBlock(held[t].block);
      held := held - {t};
      if entry < ENTRY_MAX {
        entry := entry + 1;
      } else {
        assert false;  // the overflow return is unreachable
      }
      ResumeReceiver();
    }

    /** First critical section of `rt_mq_recv` (one pass of its loop); true when a message was unlinked. */
    method RecvTake(t: Tid, timeout: int, prio: Priorities) returns (ok: bool)
      requires Valid() && Inv(View()) && Enabled(View(), DoTake(t, timeout, prio))
      modifies this
      ensures Valid() && View() == Apply(old(View()), DoTake(t, timeout, prio), flag)
      ensures ok <==> old(queue) != []
    {
      hide Chained, Inv;
      QueuedApart();
      wokenReceivers := wokenReceivers - {t};
      if entry == 0 {
        if timeout != 0 {
          receivers := Suspend(receivers, t, flag, prio);
        }
        return false;
      }
      ChainedPop(next[..], head, queue);
      assert |queue| > 1 ==> Differ(queue, 0, |queue| - 1);
      var msg := head;
      head := next[msg];
      if tail == msg {
        tail := NIL;
      }
      queue := queue[1..];
      held := held[t := Draining(msg)];
      if entry > 0 {
        entry := entry - 1;
      }
      return true;
    }

    /** The unlocked copy out of the block and the second critical section of `rt_mq_recv`. */
    method RecvReturn(t: Tid) returns (data: Msg)
      requires Valid() && Inv(View()) && Enabled(View(), DoReturn(t))
      modifies this, next
      ensures Valid() && View() == Apply(old(View()), DoReturn(t), flag)
      ensures data == old(body[held[t].block])
    {
      hide Chained, Inv, Wake;
      HeldAlone(t);
      HeldApart(t);
      var msg := held[t].block;
      data := body[msg];
      ghost var was := next[..];
      ChainedPush(was, freeHead, free, msg);
      ChainedFrame(was, was[msg := freeHead], head, queue, msg);
      next[msg] := freeHead;
      assert next[..] == was[msg := freeHead];
      freeHead := msg;
      free := [msg] + free;
      held := held - {t};
      ResumeSender();
    }

    /** Move the head message to the free list, as the reset loop does. */
    method Recycle()
      requires next.Length == max && queue != [] && NoDup(queue) && Chained(next[..], head, queue)
      requires Chained(next[..], freeHead, free) && forall b :: b in queue ==> b !in free
      requires tail == queue[|queue| - 1]
      modifies `head, `tail, `freeHead, `queue, `free, next
      ensures queue == old(queue)[1..] && free == [old(queue)[0]] + old(free)
      ensures Chained(next[..], head, queue) && Chained(next[..], freeHead, free)
      ensures tail == (if queue == [] then NIL else queue[|queue| - 1])
      ensures forall j :: 0 <= j < max && j != old(queue)[0] ==> next[j] == old(next[j])
    {
      NoDupTail(queue);
      ChainedPop(next[..], head, queue);
      ghost var was := next[..];
      var msg := head;
      head := next[msg];
      if tail == msg {
        tail := NIL;
      }
      queue := queue[1..];
      ChainedFrame(was, was[msg := freeHead], head, queue, msg);
      ChainedPush(was, freeHead, free, msg);
      next[msg] := freeHead;
      assert next[..] == was[msg := freeHead];
      freeHead := msg;
      free := [msg] + free;
    }

    lemma {:induction false} ResetReady()
      requires Inv(View())
      ensures NoDup(queue) && forall b :: b in queue ==> b !in free
      ensures forall t, b :: t in held && b in queue ==> held[t].block != b
    {
      forall t, b | t in held && b in queue ensures held[t].block != b {
        assert held[t].block == b ==> Holds(held, t, b);
      }
    }

    /** The reset loop: every queued block goes to the front of the free list, head first. */
    method Drain()
      requires next.Length == max && NoDup(queue) && Chained(next[..], head, queue) && Chained(next[..], freeHead, free)
      requires forall b :: b in queue ==> b !in free
      requires tail == (if queue == [] then NIL else queue[|queue| - 1])
      modifies `head, `tail, `freeHead, `queue, `free, next
      ensures queue == [] && tail == NIL && free == Reverse(old(queue)) + old(free)
      ensures Chained(next[..], head, queue) && Chained(next[..], freeHead, free)
      ensures forall j :: 0 <= j < max && j !in old(queue) ==> next[j] == old(next[j])
    {
      while head != NIL
        invariant NoDup(queue) && Chained(next[..], head, queue) && Chained(next[..], freeHead, free)
        invariant forall b :: b in queue ==> b in old(queue) && b !in free
        invariant Reverse(queue) + free == Reverse(old(queue)) + old(free)
        invariant tail == (if queue == [] then NIL else queue[|queue| - 1])
        invariant forall j :: 0 <= j < max && j !in old(queue) ==> next[j] == old(next[j])
        decreases |queue|
      {
        NoDupTail(queue);
        Recycle();
      }
    }

    /** `rt_mq_control` with `RT_IPC_CMD_RESET`. */
    method ResetAll()
      requires Valid() && Inv(View())
      modifies this, next
      ensures Valid() && View() == Apply(old(View()), DoReset, flag)
    {
      hide Chained, Inv;
      ResetReady();
      receivers, senders := [], [];
      Drain();
      entry := 0;
    }

    /** `_thread_timeout` for a thread suspended on this queue. */
    method Expire(t: Tid, receiving: bool)
      requires Valid() && Enabled(View(), if receiving then ExpireReceiver(t) else ExpireSender(t))
      modifies this
      ensures Valid() && View() == Apply(old(View()), if receiving then ExpireReceiver(t) else ExpireSender(t), flag)
    {
      if receiving { receivers := Without(receivers, t); } else { senders := Without(senders, t); }
    }
  }
}
