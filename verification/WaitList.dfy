/** Suspended-thread lists: `_ipc_list_suspend`, `_ipc_list_resume` and the waking discipline
    shared by every object whose wait loop re-tests its condition after waking. */
module WaitList {
  import opened Lists

  type Tid = nat

  /** `RT_IPC_FLAG_FIFO` and `RT_IPC_FLAG_PRIO`. */
  datatype Flag = Fifo | Prio

  /** A thread's `current_priority`; a smaller number is more urgent. */
  type Priorities = Tid -> nat

  /** The first position from `from` on whose thread is strictly less urgent than `p`. */
  function Position(list: seq<Tid>, p: nat, prio: Priorities, from: nat): (k: nat)
    requires from <= |list|
    ensures from <= k <= |list|
    ensures k < |list| ==> p < prio(list[k])
    ensures forall i :: from <= i < k ==> prio(list[i]) <= p
    decreases |list| - from
  {
    if from == |list| || p < prio(list[from]) then from else Position(list, p, prio, from + 1)
  }

  /** The list after `_ipc_list_suspend`. */
  function Enqueue(list: seq<Tid>, t: Tid, flag: Flag, prio: Priorities): seq<Tid> {
    InsertAt(list, if flag.Fifo? then |list| else Position(list, prio(t), prio, 0), t)
  }

  /** The insertion loop of `_ipc_list_suspend`. */
  method Suspend(list: seq<Tid>, t: Tid, flag: Flag, prio: Priorities) returns (r: seq<Tid>)
    ensures r == Enqueue(list, t, flag, prio)
  {
    match flag
    case Fifo =>
      r := list + [t];
    case Prio =>
      var n := 0;
      while n != |list|
        invariant n <= |list|
        invariant Position(list, prio(t), prio, 0) == Position(list, prio(t), prio, n)
        decreases |list| - n
      {
        if prio(t) < prio(list[n]) {
          return list[..n] + [t] + list[n..];
        }
        n := n + 1;
      }
      r := list + [t];
  }

  ghost predicate Sorted(list: seq<Tid>, prio: Priorities) {
    forall i, j :: 0 <= i < j < |list| ==> InOrder(list, prio, i, j)
  }

  ghost predicate InOrder(list: seq<Tid>, prio: Priorities, i: nat, j: nat)
    requires i < |list| && j < |list|
  {
    prio(list[i]) <= prio(list[j])
  }

  /** A priority list stays sorted. */
  lemma {:induction false} EnqueueSorted(list: seq<Tid>, t: Tid, prio: Priorities)
    requires Sorted(list, prio)
    ensures Sorted(Enqueue(list, t, Prio, prio), prio)
  {
    var k := Position(list, prio(t), prio, 0);
    var r := Enqueue(list, t, Prio, prio);
    forall i, j | 0 <= i < j < |r| ensures InOrder(r, prio, i, j) {
      if i != k && j != k { assert InOrder(list, prio, if i < k then i else i - 1, if j < k then j else j - 1); }
      if i == k && k < j - 1 { assert InOrder(list, prio, k, j - 1); }
    }
  }

  /** First come, first served among equals: the newcomer stands behind exactly the threads at least as
      urgent as itself, and nobody else moves relative to one another. */
  lemma {:induction false} EnqueueStable(list: seq<Tid>, t: Tid, prio: Priorities)
    requires Sorted(list, prio)
    ensures var k := Position(list, prio(t), prio, 0);
      && Enqueue(list, t, Prio, prio) == InsertAt(list, k, t)
      && forall i :: 0 <= i < |list| ==> (i < k <==> prio(list[i]) <= prio(t))
  {
    var k := Position(list, prio(t), prio, 0);
    forall i | k < i < |list| ensures prio(list[i]) > prio(t) { assert InOrder(list, prio, k, i); }
  }

  lemma {:induction false} EnqueueElements(list: seq<Tid>, t: Tid, flag: Flag, prio: Priorities)
    ensures |Enqueue(list, t, flag, prio)| == |list| + 1
    ensures multiset(Enqueue(list, t, flag, prio)) == multiset(list) + multiset{t}
    ensures forall x :: x in Enqueue(list, t, flag, prio) <==> x in list || x == t
    ensures NoDup(list) && t !in list ==> NoDup(Enqueue(list, t, flag, prio))
  {
    var k := if flag.Fifo? then |list| else Position(list, prio(t), prio, 0);
    InsertElements(list, k, t);
    if NoDup(list) && t !in list { InsertNoDup(list, k, t); }
  }

  /** Whoever was suspended stands on the list once, and nobody else's order changes. */
  lemma {:induction false} EnqueueUndone(list: seq<Tid>, t: Tid, flag: Flag, prio: Priorities)
    requires t !in list
    ensures t in Enqueue(list, t, flag, prio) && Without(Enqueue(list, t, flag, prio), t) == list
  {
    EnqueueElements(list, t, flag, prio);
    var k := if flag.Fifo? then |list| else Position(list, prio(t), prio, 0);
    var r := InsertAt(list, k, t);
    assert forall i :: 0 <= i < k ==> r[i] == list[i];
    WithoutAt(r, t, k);
    assert r[..k] + r[k + 1..] == list;
  }

  lemma {:induction false} SortedTail(list: seq<Tid>, prio: Priorities)
    requires Sorted(list, prio) && list != []
    ensures Sorted(list[1..], prio) && forall x :: x in list[1..] ==> prio(list[0]) <= prio(x)
  {
    var r := list[1..];
    forall i, j | 0 <= i < j < |r| ensures InOrder(r, prio, i, j) { assert InOrder(list, prio, i + 1, j + 1); }
    forall x | x in r ensures prio(list[0]) <= prio(x) {
      var j :| 0 <= j < |r| && r[j] == x;
      assert InOrder(list, prio, 0, j + 1);
    }
  }

  lemma {:induction false} WithoutSorted(list: seq<Tid>, t: Tid, prio: Priorities)
    requires Sorted(list, prio)
    ensures Sorted(Without(list, t), prio)
  {
    if list != [] {
      SortedTail(list, prio);
      if list[0] != t {
        WithoutSorted(list[1..], t, prio);
        var r := Without(list[1..], t);
        forall i, j | 0 <= i < j < |r| + 1 ensures InOrder([list[0]] + r, prio, i, j) {
          if i > 0 { assert InOrder(r, prio, i - 1, j - 1); } else { assert r[j - 1] in r; }
        }
      }
    }
  }

  /** Threads blocked on one condition: those still suspended, in list order, and those that were
      resumed successfully but have not yet run to re-test the condition. */
  datatype Gate = Gate(waiting: seq<Tid>, woken: set<Tid>)

  ghost predicate Formed(g: Gate) {
    NoDup(g.waiting) && forall t :: t in g.waiting ==> t !in g.woken
  }

  ghost predicate At(g: Gate, t: Tid) {
    t in g.waiting || t in g.woken
  }

  /** No lost wake-up: while somebody is still suspended, every available unit is already matched by
      a thread that was woken and has not run yet. */
  ghost predicate NoLostWakeup(g: Gate, units: int) {
    Formed(g) && (g.waiting != [] ==> |g.woken| >= units)
  }

  /** A thread runs: if it had been woken it is no longer pending. */
  function Run(g: Gate, t: Tid): Gate {
    g.(woken := g.woken - {t})
  }

  function Block(g: Gate, t: Tid, flag: Flag, prio: Priorities): Gate {
    g.(waiting := Enqueue(g.waiting, t, flag, prio))
  }

  /** `if (!rt_list_isempty(list)) _ipc_list_resume(list)`. */
  function Wake(g: Gate): Gate {
    if g.waiting == [] then g else Gate(g.waiting[1..], g.woken + {g.waiting[0]})
  }

  /** The thread timer expires while `t` is suspended: it leaves with an error. */
  function TimeOut(g: Gate, t: Tid): Gate {
    g.(waiting := Without(g.waiting, t))
  }

  /** `_ipc_list_resume_all`: everybody leaves with an error. */
  function Flush(g: Gate): Gate {
    g.(waiting := [])
  }

  /** A woken thread, or a third one that never waited, takes a unit. */
  lemma {:induction false} TakeUnit(g: Gate, t: Tid, units: int)
    requires NoLostWakeup(g, units) && t !in g.waiting
    ensures NoLostWakeup(Run(g, t), units - 1)
  {
    assert |g.woken| <= |g.woken - {t}| + 1 by {
      if t in g.woken { assert g.woken == (g.woken - {t}) + {t}; } else { assert g.woken == g.woken - {t}; }
    }
  }

  /** A thread that finds no unit may run, whether it suspends again or gives up. */
  lemma {:induction false} FindNothing(g: Gate, t: Tid, flag: Flag, prio: Priorities)
    requires NoLostWakeup(g, 0) && t !in g.waiting
    ensures NoLostWakeup(Run(g, t), 0)
    ensures NoLostWakeup(Block(Run(g, t), t, flag, prio), 0)
  {
    EnqueueElements(g.waiting, t, flag, prio);
  }

  /** One new unit, one resumed thread. */
  lemma {:induction false} AddUnit(g: Gate, units: int)
    requires NoLostWakeup(g, units)
    ensures NoLostWakeup(Wake(g), units + 1)
  {
    if g.waiting != [] { NoDupTail(g.waiting); }
  }

  lemma {:induction false} LoseWaiters(g: Gate, t: Tid, units: int)
    requires NoLostWakeup(g, units)
    ensures NoLostWakeup(TimeOut(g, t), units) && t !in TimeOut(g, t).waiting
    ensures NoLostWakeup(Flush(g), units)
  {
    WithoutNoDup(g.waiting, t);
  }

  /** Fewer units need fewer pending threads. */
  lemma {:induction false} FewerUnits(g: Gate, units: int, fewer: int)
    requires NoLostWakeup(g, units) && fewer <= units
    ensures NoLostWakeup(g, fewer)
  {
  }

  /** One waiter, if there is any, was resumed, and nobody else moved. */
  ghost predicate Resumed(g: Gate, n: Gate) {
    if g.waiting == [] then n == g
    else exists u :: u in g.waiting && n == Gate(Without(g.waiting, u), g.woken + {u}) && u !in g.woken
  }

  /** `t` was suspended on the gate. */
  ghost predicate Joined(g: Gate, n: Gate, t: Tid) {
    t in n.waiting && Without(n.waiting, t) == g.waiting && n.woken == g.woken - {t}
  }

  lemma {:induction false} WakeResumes(g: Gate)
    requires Formed(g)
    ensures Resumed(g, Wake(g))
  {
    if g.waiting != [] {
      var u := g.waiting[0];
      assert Without(g.waiting, u) == g.waiting[1..] && u in g.waiting;
    }
  }

  lemma {:induction false} BlockJoins(g: Gate, t: Tid, flag: Flag, prio: Priorities)
    requires t !in g.waiting
    ensures Joined(g, Block(Run(g, t), t, flag, prio), t)
  {
    EnqueueUndone(g.waiting, t, flag, prio);
  }

  /** A timeout takes out its thread, a flush everybody. */
  lemma {:induction false} LeavingMeans(g: Gate, t: Tid)
    requires Formed(g) && t in g.waiting
    ensures var n := TimeOut(g, t);
      t !in n.waiting && multiset(n.waiting) == multiset(g.waiting) - multiset{t} && n.woken == g.woken
    ensures Flush(g).waiting == [] && Flush(g).woken == g.woken
  {
    WithoutNoDup(g.waiting, t);
    WithoutElements(g.waiting, t);
  }

  /** Blocking, waking and running move threads only within one gate. */
  lemma {:induction false} GateMembers(g: Gate, t: Tid, flag: Flag, prio: Priorities)
    ensures forall x: Tid :: At(Run(g, t), x) ==> At(g, x)
    ensures forall x: Tid :: At(Block(g, t, flag, prio), x) ==> At(g, x) || x == t
    ensures forall x: Tid :: At(Wake(g), x) ==> At(g, x)
    ensures forall x: Tid :: At(TimeOut(g, t), x) ==> At(g, x)
    ensures forall x: Tid :: At(Flush(g), x) ==> At(g, x)
  {
    EnqueueElements(g.waiting, t, flag, prio);
    forall x | At(Wake(g), x) ensures At(g, x) {
      if g.waiting != [] && x in g.waiting[1..] { assert x in g.waiting; }
    }
  }
}
