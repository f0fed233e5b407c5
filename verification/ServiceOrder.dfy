/** The order in which suspended threads are served (`_ipc_list_suspend` and `_ipc_list_resume` in
    `rt-thread/src/ipc.c`): the more urgent first under `RT_IPC_FLAG_PRIO`, and among equals, as under
    `RT_IPC_FLAG_FIFO`, whoever was suspended first. */
module ServiceOrder {
  import opened Lists
  import opened WaitList

  ghost predicate InTurn(ws: seq<Tid>, p: Priorities, at: map<Tid, nat>, i: nat, j: nat)
    requires i < |ws| && j < |ws|
  {
    && ws[i] in at && ws[j] in at
    && (p(ws[i]) < p(ws[j]) || (p(ws[i]) == p(ws[j]) && at[ws[i]] < at[ws[j]]))
  }

  /** The more urgent first, and among equals whoever was suspended first. */
  ghost predicate Turns(ws: seq<Tid>, p: Priorities, at: map<Tid, nat>, now: nat) {
    && (forall t :: t in ws ==> t in at && at[t] < now)
    && forall i, j :: 0 <= i < j < |ws| ==> InTurn(ws, p, at, i, j)
  }

  lemma {:induction false} TurnsFrame(
    ws: seq<Tid>, p: Priorities, at: map<Tid, nat>, now: nat, q: Priorities, after: map<Tid, nat>)
    requires Turns(ws, p, at, now)
    requires forall t :: t in ws ==> q(t) == p(t) && t in after && t in at && after[t] == at[t]
    ensures Turns(ws, q, after, now + 1)
  {
    forall i, j | 0 <= i < j < |ws| ensures InTurn(ws, q, after, i, j) {
      assert InTurn(ws, p, at, i, j) && ws[i] in ws && ws[j] in ws;
    }
  }

  lemma {:induction false} TurnsInsert(ws: seq<Tid>, p: Priorities, at: map<Tid, nat>, now: nat, t: Tid)
    requires Turns(ws, p, at, now) && t !in ws
    ensures Turns(Enqueue(ws, t, Prio, p), p, at[t := now], now + 1)
  {
    var k, n, after := Position(ws, p(t), p, 0), Enqueue(ws, t, Prio, p), at[t := now];
    assert n == InsertAt(ws, k, t);
    EnqueueElements(ws, t, Prio, p);
    forall i, j | 0 <= i < j < |n| ensures InTurn(n, p, after, i, j) {
      if i != k && j != k {
        var a, b := if i < k then i else i - 1, if j < k then j else j - 1;
        assert InTurn(ws, p, at, a, b) && n[i] == ws[a] && n[j] == ws[b] && ws[a] in ws && ws[b] in ws;
      } else if j == k {
        assert n[i] == ws[i] && ws[i] in ws && p(ws[i]) <= p(t);
      } else {
        assert n[j] == ws[j - 1] && ws[j - 1] in ws && ws[k] in ws;
        if k < j - 1 { assert InTurn(ws, p, at, k, j - 1); }
      }
    }
  }

  lemma {:induction false} TurnsTail(ws: seq<Tid>, p: Priorities, at: map<Tid, nat>, now: nat)
    requires Turns(ws, p, at, now) && ws != []
    ensures Turns(ws[1..], p, at, now)
    ensures forall t :: t in ws[1..] ==> p(ws[0]) < p(t) || (p(ws[0]) == p(t) && at[ws[0]] < at[t])
  {
    var r := ws[1..];
    forall i, j | 0 <= i < j < |r| ensures InTurn(r, p, at, i, j) { assert InTurn(ws, p, at, i + 1, j + 1); }
    forall t | t in r ensures p(ws[0]) < p(t) || (p(ws[0]) == p(t) && at[ws[0]] < at[t]) {
      var j :| 0 <= j < |r| && r[j] == t;
      assert InTurn(ws, p, at, 0, j + 1);
    }
  }

  lemma {:induction false} TurnsWithout(ws: seq<Tid>, p: Priorities, at: map<Tid, nat>, now: nat, t: Tid)
    requires Turns(ws, p, at, now)
    ensures Turns(Without(ws, t), p, at, now)
  {
    if ws != [] {
      TurnsTail(ws, p, at, now);
      if ws[0] != t {
        TurnsWithout(ws[1..], p, at, now, t);
        var r := Without(ws[1..], t);
        forall i, j | 0 <= i < j < |r| + 1 ensures InTurn([ws[0]] + r, p, at, i, j) {
          if i > 0 {
            assert InTurn(r, p, at, i - 1, j - 1);
          } else {
            assert r[j - 1] in r && r[j - 1] in ws[1..] && ws[0] in ws;
          }
        }
      }
    }
  }

  lemma {:induction false} TurnsSame(ws: seq<Tid>, p: Priorities, at: map<Tid, nat>, now: nat, q: Priorities)
    requires Turns(ws, p, at, now) && forall t :: t in ws ==> q(t) == p(t)
    ensures Turns(ws, q, at, now)
  {
    forall i, j | 0 <= i < j < |ws| ensures InTurn(ws, q, at, i, j) {
      assert InTurn(ws, p, at, i, j) && ws[i] in ws && ws[j] in ws;
    }
  }

  /** The key that decides: under `RT_IPC_FLAG_FIFO` all threads are equal. */
  function Key(flag: Flag, prio: Priorities): Priorities {
    if flag.Fifo? then (t => 0) else prio
  }

  /** No other waiter comes before `w`. */
  ghost predicate Foremost(ws: seq<Tid>, w: Tid, key: Priorities, at: map<Tid, nat>) {
    && w in ws && (forall x :: x in ws ==> x in at)
    && forall x :: x in ws && x != w ==> key(w) < key(x) || (key(w) == key(x) && at[w] < at[x])
  }

  /** What one step may do to a wait list: suspend `t`, serve the head, take `t` out, flush it, or leave it. */
  ghost predicate ListStep(ws: seq<Tid>, ns: seq<Tid>, t: Tid, flag: Flag, prio: Priorities) {
    || ns == ws || ns == [] || (ws != [] && ns == ws[1..]) || ns == Without(ws, t)
    || (t !in ws && ns == Enqueue(ws, t, flag, prio))
  }

  /** The number of the step at which each waiter was suspended: `now` for one that has just come. */
  ghost function Stamp(ws: seq<Tid>, ns: seq<Tid>, t: Tid, at: map<Tid, nat>, now: nat): map<Tid, nat> {
    if t !in ws && t in ns then at[t := now] else at
  }

  lemma {:induction false} KeyEnqueue(ws: seq<Tid>, t: Tid, flag: Flag, prio: Priorities)
    ensures Enqueue(ws, t, flag, prio) == Enqueue(ws, t, Prio, Key(flag, prio))
  {
    if flag.Fifo? && Position(ws, 0, Key(flag, prio), 0) < |ws| { assert false; }
  }

  lemma {:induction false} StepTurns(
    ws: seq<Tid>, ns: seq<Tid>, t: Tid, flag: Flag, prio: Priorities, at: map<Tid, nat>, now: nat)
    requires Turns(ws, Key(flag, prio), at, now) && ListStep(ws, ns, t, flag, prio)
    ensures Turns(ns, Key(flag, prio), Stamp(ws, ns, t, at, now), now + 1)
  {
    hide InTurn, Enqueue, Key;
    var key := Key(flag, prio);
    TurnsFrame(ws, key, at, now, key, at);
    if t !in ws && t in ns {
      KeyEnqueue(ws, t, flag, prio);
      TurnsInsert(ws, key, at, now, t);
    } else if t !in ws && ns == Enqueue(ws, t, flag, prio) {
      EnqueueElements(ws, t, flag, prio);
    } else if ns == Without(ws, t) {
      TurnsWithout(ws, key, at, now + 1, t);
    } else if ws != [] && ns == ws[1..] {
      TurnsTail(ws, key, at, now + 1);
    }
  }

  lemma {:induction false} NoTurns(key: Priorities)
    ensures Turns([], key, map[], 0)
  {
  }

  lemma {:induction false} HeadForemost(ws: seq<Tid>, key: Priorities, at: map<Tid, nat>, now: nat)
    requires Turns(ws, key, at, now) && ws != []
    ensures Foremost(ws, ws[0], key, at)
  {
    TurnsTail(ws, key, at, now);
    assert ws == [ws[0]] + ws[1..];
  }
}
