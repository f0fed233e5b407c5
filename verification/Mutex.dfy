/** Mutexes with priority inheritance (`rt_mutex_*` in `rt-thread/src/ipc.c`), over all threads and all
    mutexes of the system. */
module Mutex {
  import opened KernelTypes
  import opened Lists
  import opened WaitList
  import opened ServiceOrder

  type Mid = nat

  /** `RT_MUTEX_HOLD_MAX`, `RT_MUTEX_VALUE_MAX`, and the `original_priority` of a free mutex. */
  const HOLD_MAX: nat := 255
  const VALUE_MAX: nat := 65535
  const NO_PRIORITY: nat := 255

  datatype Mtx = Mtx(value: nat, hold: nat, owner: Option<Tid>, original: nat, waiters: seq<Tid>)

  const FREE: Mtx := Mtx(1, 0, None, NO_PRIORITY, [])

  /** `base` is the priority each thread was given, `cur` its `current_priority`. */
  datatype Sys = Sys(base: map<Tid, nat>, cur: map<Tid, nat>, mutexes: map<Mid, Mtx>)

  /** Priorities as the insertion loop reads them. */
  function Now(cur: map<Tid, nat>): Priorities {
    t => if t in cur then cur[t] else 0
  }

  datatype Result = Ok | Full | TimedOut | Suspended | NotOwner

  /** `rt_mutex_take` up to the point where the caller returns or is suspended. */
  function Take(s: Sys, t: Tid, m: Mid, timeout: int): (Sys, Result)
    requires t in s.cur && m in s.mutexes
  {
    var x := s.mutexes[m];
    if x.owner == Some(t) then
      if x.hold < HOLD_MAX then (s.(mutexes := s.mutexes[m := x.(hold := x.hold + 1)]), Ok) else (s, Full)
    else if x.value > 0 then
      var y := x.(value := x.value - 1, owner := Some(t), original := s.cur[t]);
      if x.hold < HOLD_MAX then (s.(mutexes := s.mutexes[m := y.(hold := x.hold + 1)]), Ok)
      else (s.(mutexes := s.mutexes[m := y]), Full)
    else if timeout == 0 then (s, TimedOut)
    else
      var cur := if x.owner.Some? && x.owner.value in s.cur && s.cur[t] < s.cur[x.owner.value]
                 then s.cur[x.owner.value := s.cur[t]] else s.cur;
      (s.(cur := cur, mutexes := s.mutexes[m := x.(waiters := Enqueue(x.waiters, t, Prio, Now(cur)))]), Suspended)
  }

  /** `mutex->hold --` on an 8-bit counter. */
  function Lowered(hold: nat): nat {
    if hold == 0 then HOLD_MAX else hold - 1
  }

  /** `rt_mutex_release`. */
  function Release(s: Sys, t: Tid, m: Mid): (Sys, Result)
    requires t in s.cur && m in s.mutexes
  {
    var x := s.mutexes[m];
    if x.owner != Some(t) then (s, NotOwner)
    else if Lowered(x.hold) != 0 then (s.(mutexes := s.mutexes[m := x.(hold := Lowered(x.hold))]), Ok)
    else
      var cur := s.cur[t := x.original];
      if x.waiters != [] then
        var u := x.waiters[0];
        var p := if u in cur then cur[u] else 0;
        (s.(cur := cur, mutexes := s.mutexes[m := x.(owner := Some(u), original := p, hold := 1,
          waiters := x.waiters[1..])]), Ok)
      else if x.value < VALUE_MAX then
        (s.(cur := cur, mutexes := s.mutexes[m := x.(owner := None, original := NO_PRIORITY, hold := 0,
          value := x.value + 1)]), Ok)
      else
        (s.(cur := cur, mutexes := s.mutexes[m := x.(hold := 0)]), Full)
  }

  /** The thread timer of a waiter expires. */
  function Expire(s: Sys, t: Tid, m: Mid): Sys
    requires m in s.mutexes
  {
    s.(mutexes := s.mutexes[m := s.mutexes[m].(waiters := Without(s.mutexes[m].waiters, t))])
  }

  datatype Event = DoTake(t: Tid, m: Mid, timeout: int) | DoRelease(t: Tid, m: Mid) | DoExpire(t: Tid, m: Mid)

  ghost predicate Owns(s: Sys, t: Tid, m: Mid) {
    m in s.mutexes && s.mutexes[m].owner == Some(t)
  }

  ghost predicate WaitsOn(s: Sys, t: Tid, m: Mid) {
    m in s.mutexes && t in s.mutexes[m].waiters
  }

  /** A thread acts only while it is not suspended. */
  ghost predicate Enabled(s: Sys, e: Event) {
    && e.t in s.cur && e.m in s.mutexes
    && match e
       case DoTake(t, m, _) => forall n: Mid :: !WaitsOn(s, t, n)
       case DoRelease(t, m) => forall n: Mid :: !WaitsOn(s, t, n)
       case DoExpire(t, m) => WaitsOn(s, t, m)
  }

  /** The discipline under which inheritance is sound: a thread that owns a mutex takes no other one
      (taking the same one again is fine). */
  ghost predicate Unnested(s: Sys, e: Event) {
    e.DoTake? ==> forall n: Mid :: Owns(s, e.t, n) ==> n == e.m
  }

  function Apply(s: Sys, e: Event): Sys
    requires Enabled(s, e)
  {
    match e
    case DoTake(t, m, timeout) => Take(s, t, m, timeout).0
    case DoRelease(t, m) => Release(s, t, m).0
    case DoExpire(t, m) => Expire(s, t, m)
  }

  /** One mutex: value, hold and owner agree; waiters are in priority order; the owner is at least as urgent
      as every waiter and remembers its own priority. */
  ghost predicate MtxOk(s: Sys, x: Mtx) {
    && s.base.Keys == s.cur.Keys
    && x.value <= 1 && x.hold <= HOLD_MAX
    && (x.value == 1 <==> x.owner == None) && (x.hold == 0 <==> x.owner == None)
    && NoDup(x.waiters) && Sorted(x.waiters, Now(s.cur))
    && (forall w :: w in x.waiters ==> w in s.cur && s.cur[w] == s.base[w])
    && (x.owner.None? ==> x.waiters == [] && x.original == NO_PRIORITY)
    && (x.owner.Some? ==>
          && x.owner.value in s.cur && x.owner.value !in x.waiters
          && x.original == s.base[x.owner.value] && s.cur[x.owner.value] <= x.original
          && forall w :: w in x.waiters ==> s.cur[x.owner.value] <= s.cur[w])
  }

  ghost predicate Inv(s: Sys) {
    && s.base.Keys == s.cur.Keys
    && (forall m: Mid :: m in s.mutexes ==> MtxOk(s, s.mutexes[m]))
    && (forall t: Tid, m: Mid, n: Mid :: Owns(s, t, m) && Owns(s, t, n) ==> m == n)
    && (forall t: Tid, m: Mid, n: Mid :: WaitsOn(s, t, m) && WaitsOn(s, t, n) ==> m == n)
    && (forall t: Tid, m: Mid, n: Mid :: !(Owns(s, t, m) && WaitsOn(s, t, n)))
    && (forall t: Tid :: t in s.cur && (forall m: Mid :: !Owns(s, t, m)) ==> s.cur[t] == s.base[t])
  }

  /** A mutex none of whose threads changed priority stays as it was. */
  lemma {:induction false} MtxFrame(s: Sys, n: Sys, x: Mtx)
    requires MtxOk(s, x) && n.base == s.base && n.cur.Keys == s.cur.Keys
    requires forall w :: w in x.waiters ==> n.cur[w] == s.cur[w]
    requires x.owner.Some? ==> n.cur[x.owner.value] == s.cur[x.owner.value]
    ensures MtxOk(n, x)
  {
    forall i, j | 0 <= i < j < |x.waiters| ensures InOrder(x.waiters, Now(n.cur), i, j) {
      assert x.waiters[i] in x.waiters && x.waiters[j] in x.waiters;
      assert InOrder(x.waiters, Now(s.cur), i, j);
    }
  }

  /** Replacing mutex `m` changes who owns and waits only there. */
  lemma {:induction false} Elsewhere(s: Sys, n: Sys, m: Mid, x: Mtx)
    requires m in s.mutexes && n.mutexes == s.mutexes[m := x]
    ensures forall t: Tid, k: Mid :: k != m ==>
      (Owns(n, t, k) <==> Owns(s, t, k)) && (WaitsOn(n, t, k) <==> WaitsOn(s, t, k))
    ensures forall t: Tid :: Owns(n, t, m) <==> x.owner == Some(t)
    ensures forall t: Tid :: WaitsOn(n, t, m) <==> t in x.waiters
  {
  }

  lemma {:induction false} TakeOwnKeeps(s: Sys, t: Tid, m: Mid, timeout: int)
    requires Inv(s) && t in s.cur && Owns(s, t, m)
    ensures Inv(Take(s, t, m, timeout).0)
  {
    var n := Take(s, t, m, timeout).0;
    Elsewhere(s, n, m, n.mutexes[m]);
    forall k | k in n.mutexes ensures MtxOk(n, n.mutexes[k]) { MtxFrame(s, n, s.mutexes[k]); }
    assert forall u: Tid :: Owns(n, u, m) <==> Owns(s, u, m);
    assert forall u: Tid :: WaitsOn(n, u, m) <==> WaitsOn(s, u, m);
  }

  lemma {:induction false} TakeFreeKeeps(s: Sys, t: Tid, m: Mid, timeout: int)
    requires Inv(s) && t in s.cur && m in s.mutexes && s.mutexes[m].value > 0
    requires (forall n: Mid :: !Owns(s, t, n)) && (forall n: Mid :: !WaitsOn(s, t, n))
    ensures Inv(Take(s, t, m, timeout).0) && Owns(Take(s, t, m, timeout).0, t, m)
  {
    var n := Take(s, t, m, timeout).0;
    Elsewhere(s, n, m, n.mutexes[m]);
    forall k | k in n.mutexes && k != m ensures MtxOk(n, n.mutexes[k]) { MtxFrame(s, n, s.mutexes[k]); }
    assert MtxOk(s, s.mutexes[m]);
    assert forall u: Tid :: u != t ==> (Owns(n, u, m) <==> Owns(s, u, m));
  }

  /** Blocking: the owner inherits the newcomer's priority when that is more urgent. */
  lemma {:induction false} BlockedOwner(s: Sys, t: Tid, m: Mid, timeout: int, n: Sys)
    requires Inv(s) && t in s.cur && m in s.mutexes && s.mutexes[m].value == 0 && timeout != 0
    requires (forall k: Mid :: !Owns(s, t, k)) && (forall k: Mid :: !WaitsOn(s, t, k))
    requires n == Take(s, t, m, timeout).0
    ensures s.mutexes[m].owner.Some? && Owns(s, s.mutexes[m].owner.value, m) && s.mutexes[m].owner.value != t
    ensures var o := s.mutexes[m].owner.value;
      && n.base == s.base && n.cur == s.cur[o := Min(s.cur[o], s.cur[t])] && n.cur.Keys == s.cur.Keys
      && n.mutexes == s.mutexes[m := s.mutexes[m].(waiters := Enqueue(s.mutexes[m].waiters, t, Prio, Now(n.cur)))]
  {
    assert MtxOk(s, s.mutexes[m]);
    var o := s.mutexes[m].owner.value;
    assert Owns(s, o, m);
    assert s.cur == s.cur[o := s.cur[o]];
  }

  lemma {:induction false} BlockKeepsMutex(s: Sys, t: Tid, m: Mid, timeout: int)
    requires Inv(s) && t in s.cur && m in s.mutexes && s.mutexes[m].value == 0 && timeout != 0
    requires (forall n: Mid :: !Owns(s, t, n)) && (forall n: Mid :: !WaitsOn(s, t, n))
    ensures var n := Take(s, t, m, timeout).0; MtxOk(n, n.mutexes[m])
  {
    var n := Take(s, t, m, timeout).0;
    BlockedOwner(s, t, m, timeout, n);
    var x, o := s.mutexes[m], s.mutexes[m].owner.value;
    assert MtxOk(s, x) && !WaitsOn(s, t, m) && !WaitsOn(s, o, m);
    EnqueueElements(x.waiters, t, Prio, Now(n.cur));
    forall i, j | 0 <= i < j < |x.waiters| ensures InOrder(x.waiters, Now(n.cur), i, j) {
      assert x.waiters[i] in x.waiters && x.waiters[j] in x.waiters;
      assert InOrder(x.waiters, Now(s.cur), i, j);
    }
    EnqueueSorted(x.waiters, t, Now(n.cur));
  }

  lemma {:induction false} BlockKeeps(s: Sys, t: Tid, m: Mid, timeout: int)
    requires Inv(s) && t in s.cur && m in s.mutexes && s.mutexes[m].value == 0 && timeout != 0
    requires (forall n: Mid :: !Owns(s, t, n)) && (forall n: Mid :: !WaitsOn(s, t, n))
    ensures Inv(Take(s, t, m, timeout).0)
  {
    var n := Take(s, t, m, timeout).0;
    BlockedOwner(s, t, m, timeout, n);
    BlockKeepsMutex(s, t, m, timeout);
    EnqueueElements(s.mutexes[m].waiters, t, Prio, Now(n.cur));
    NewWaiterKeeps(s, n, t, m, s.mutexes[m].owner.value, n.mutexes[m]);
  }

  /** One thread more waits on `m`, and the owner `o` may have changed priority. */
  lemma {:induction false} NewWaiterKeeps(s: Sys, n: Sys, t: Tid, m: Mid, o: Tid, x: Mtx)
    requires Inv(s) && t in s.cur && Owns(s, o, m) && o != t && o in s.cur
    requires (forall k: Mid :: !Owns(s, t, k)) && (forall k: Mid :: !WaitsOn(s, t, k))
    requires n.base == s.base && n.cur.Keys == s.cur.Keys
    requires forall u: Tid :: u in s.cur && u != o ==> n.cur[u] == s.cur[u]
    requires n.mutexes == s.mutexes[m := x] && MtxOk(n, x) && x.owner == Some(o)
    requires forall u :: u in x.waiters <==> u in s.mutexes[m].waiters || u == t
    ensures Inv(n)
  {
    Elsewhere(s, n, m, x);
    forall k: Mid | k in n.mutexes && k != m ensures MtxOk(n, n.mutexes[k]) {
      assert !WaitsOn(s, o, k) && !Owns(s, o, k);
      MtxFrame(s, n, s.mutexes[k]);
    }
    assert forall u: Tid :: Owns(n, u, m) <==> Owns(s, u, m);
    assert forall u: Tid :: WaitsOn(n, u, m) <==> WaitsOn(s, u, m) || u == t;
    assert Owns(n, o, m);
    forall u: Tid | u in n.cur && forall k: Mid :: !Owns(n, u, k) ensures n.cur[u] == n.base[u] {
      assert u != o;
      assert forall k: Mid :: Owns(s, u, k) ==> Owns(n, u, k);
    }
  }

  /** Waiting ends without ownership: the owner keeps the priority it inherited until it releases. */
  lemma {:induction false} ExpireKeeps(s: Sys, t: Tid, m: Mid)
    requires Inv(s) && WaitsOn(s, t, m)
    ensures Inv(Expire(s, t, m))
  {
    var n, x := Expire(s, t, m), s.mutexes[m];
    Elsewhere(s, n, m, n.mutexes[m]);
    WithoutNoDup(x.waiters, t);
    WithoutSorted(x.waiters, t, Now(s.cur));
    forall k: Mid | k in n.mutexes && k != m ensures MtxOk(n, n.mutexes[k]) { MtxFrame(s, n, s.mutexes[k]); }
    assert MtxOk(s, x);
    assert forall u: Tid :: Owns(n, u, m) <==> Owns(s, u, m);
    assert forall u: Tid :: WaitsOn(n, u, m) ==> WaitsOn(s, u, m);
  }

  lemma {:induction false} PartialReleaseKeeps(s: Sys, t: Tid, m: Mid)
    requires Inv(s) && t in s.cur && Owns(s, t, m) && s.mutexes[m].hold > 1
    ensures Inv(Release(s, t, m).0)
  {
    var n := Release(s, t, m).0;
    Elsewhere(s, n, m, n.mutexes[m]);
    forall k: Mid | k in n.mutexes ensures MtxOk(n, n.mutexes[k]) { MtxFrame(s, n, s.mutexes[k]); }
    assert forall u: Tid :: Owns(n, u, m) <==> Owns(s, u, m);
    assert forall u: Tid :: WaitsOn(n, u, m) <==> WaitsOn(s, u, m);
  }

  lemma {:induction false} LastReleaseMutex(s: Sys, t: Tid, m: Mid)
    requires Inv(s) && t in s.cur && Owns(s, t, m) && s.mutexes[m].hold == 1
    ensures var n, x := Release(s, t, m).0, s.mutexes[m];
      && n.base == s.base && n.cur == s.cur[t := s.base[t]] && n.cur.Keys == s.cur.Keys
      && MtxOk(n, n.mutexes[m]) && n.mutexes == s.mutexes[m := n.mutexes[m]]
      && n.mutexes[m].owner == (if x.waiters == [] then None else Some(x.waiters[0]))
      && n.mutexes[m].waiters == (if x.waiters == [] then [] else x.waiters[1..])
  {
    var n, x := Release(s, t, m).0, s.mutexes[m];
    assert MtxOk(s, x) && !WaitsOn(s, t, m);
    if x.waiters != [] {
      var u, rest := x.waiters[0], x.waiters[1..];
      assert u in x.waiters && u != t;
      NoDupTail(x.waiters);
      forall w | w in rest ensures w in x.waiters && w != u && s.cur[u] <= s.cur[w] {
        var i :| 0 <= i < |rest| && rest[i] == w;
        assert x.waiters[i + 1] == w;
        assert InOrder(x.waiters, Now(s.cur), 0, i + 1);
      }
      forall i, j | 0 <= i < j < |rest| ensures InOrder(rest, Now(n.cur), i, j) {
        assert rest[i] in x.waiters && rest[j] in x.waiters;
        assert InOrder(x.waiters, Now(s.cur), i + 1, j + 1);
      }
    }
  }

  lemma {:induction false} LastReleaseKeeps(s: Sys, t: Tid, m: Mid)
    requires Inv(s) && t in s.cur && Owns(s, t, m) && s.mutexes[m].hold == 1
    ensures Inv(Release(s, t, m).0)
  {
    var n, x := Release(s, t, m).0, s.mutexes[m];
    LastReleaseMutex(s, t, m);
    Elsewhere(s, n, m, n.mutexes[m]);
    forall k: Mid | k in n.mutexes && k != m ensures MtxOk(n, n.mutexes[k]) {
      assert !WaitsOn(s, t, k) && !Owns(s, t, k);
      MtxFrame(s, n, s.mutexes[k]);
    }
    assert forall u: Tid :: WaitsOn(n, u, m) ==> WaitsOn(s, u, m);
    if x.waiters != [] {
      var u := x.waiters[0];
      assert WaitsOn(s, u, m) && u !in x.waiters[1..];
    }
    assert forall u: Tid :: Owns(n, u, m) ==> WaitsOn(s, u, m) && !WaitsOn(n, u, m);
    forall u: Tid | u in n.cur && forall k: Mid :: !Owns(n, u, k) ensures n.cur[u] == n.base[u] {
      if u != t {
        assert forall k: Mid :: Owns(s, u, k) ==> k != m && Owns(n, u, k);
      }
    }
  }

  lemma {:induction false} StepKeeps(s: Sys, e: Event)
    requires Inv(s) && Enabled(s, e) && Unnested(s, e)
    ensures Inv(Apply(s, e))
  {
    assert MtxOk(s, s.mutexes[e.m]);
    match e
    case DoTake(t, m, timeout) =>
      if s.mutexes[m].owner == Some(t) {
        assert Owns(s, t, m);
        TakeOwnKeeps(s, t, m, timeout);
      } else {
        assert forall n: Mid :: !Owns(s, t, n);
        if s.mutexes[m].value > 0 { TakeFreeKeeps(s, t, m, timeout); }
        else if timeout != 0 { BlockKeeps(s, t, m, timeout); }
      }
    case DoRelease(t, m) =>
      if s.mutexes[m].owner == Some(t) {
        assert Owns(s, t, m);
        if s.mutexes[m].hold > 1 { PartialReleaseKeeps(s, t, m); } else { LastReleaseKeeps(s, t, m); }
      }
    case DoExpire(t, m) => ExpireKeeps(s, t, m);
  }

  ghost predicate CanRun(s: Sys, es: seq<Event>)
    decreases |es|
  {
    es == [] || (Enabled(s, es[0]) && CanRun(Apply(s, es[0]), es[1..]))
  }

  ghost predicate UnnestedRun(s: Sys, es: seq<Event>)
    requires CanRun(s, es)
    decreases |es|
  {
    es == [] || (Unnested(s, es[0]) && UnnestedRun(Apply(s, es[0]), es[1..]))
  }

  ghost function After(s: Sys, es: seq<Event>): Sys
    requires CanRun(s, es)
    decreases |es|
  {
    if es == [] then s else After(Apply(s, es[0]), es[1..])
  }

  /** Priority inheritance over every run of unnested takes, releases and timeouts. */
  lemma {:induction false} RunKeeps(s: Sys, es: seq<Event>)
    requires Inv(s) && CanRun(s, es) && UnnestedRun(s, es)
    ensures Inv(After(s, es))
    decreases |es|
  {
    if es != [] {
      StepKeeps(s, es[0]);
      RunKeeps(Apply(s, es[0]), es[1..]);
    }
  }

  /** The owner of `n` is at least as urgent as everybody waiting on it. */
  ghost predicate Inherits(s: Sys, n: Mid) {
    n in s.mutexes && s.mutexes[n].owner.Some? ==>
      forall w :: w in s.mutexes[n].waiters ==> Now(s.cur)(s.mutexes[n].owner.value) <= Now(s.cur)(w)
  }

  /** The last release hands the mutex to the head waiter, which nobody left behind outranks, and puts the
      releasing thread back at its own priority. */
  lemma {:induction false} HandsToHead(s: Sys, t: Tid, m: Mid)
    requires Inv(s) && t in s.cur && Owns(s, t, m) && s.mutexes[m].hold == 1 && s.mutexes[m].waiters != []
    ensures var n, x := Release(s, t, m).0, s.mutexes[m];
      && Owns(n, x.waiters[0], m) && n.cur[t] == s.base[t]
      && n.mutexes[m].hold == 1 && n.mutexes[m].value == 0
      && forall w :: w in n.mutexes[m].waiters ==> w in s.cur && n.cur[x.waiters[0]] <= n.cur[w]
  {
    LastReleaseMutex(s, t, m);
    assert MtxOk(s, s.mutexes[m]);
  }

  /** Outside the unnested discipline: releasing `m` while still owning `n` keeps inheritance on `n` exactly
      when the priority saved by `m` is at least as urgent as every waiter of `n`. */
  lemma {:induction false} NestedRelease(s: Sys, t: Tid, m: Mid, n: Mid)
    requires t in s.cur && Owns(s, t, m) && Owns(s, t, n) && m != n
    requires s.mutexes[m].hold == 1 && t !in s.mutexes[n].waiters
    ensures Inherits(Release(s, t, m).0, n) <==>
      forall w :: w in s.mutexes[n].waiters ==> s.mutexes[m].original <= Now(s.cur)(w)
  {
    var r := Release(s, t, m).0;
    assert r.mutexes[n] == s.mutexes[n] && Now(r.cur)(t) == s.mutexes[m].original;
    forall w | w in s.mutexes[n].waiters ensures Now(r.cur)(w) == Now(s.cur)(w) { assert w != t; }
  }

  /** Thread `t` blocks on `m`, whose owner `o` itself waits for `n`, at place `k`. The boost of `o` goes no further: on
      `n` inheritance survives exactly if the owner of `n` is already as urgent as `t`, and the waiters of `n` stay in
      order exactly if nobody in front of `o` is less urgent than `t`. */
  lemma {:induction false} NestedTake(s: Sys, t: Tid, m: Mid, timeout: int, o: Tid, n: Mid, k: nat)
    requires t in s.cur && m in s.mutexes && s.mutexes[m].value == 0 && timeout != 0
    requires Owns(s, o, m) && o != t && o in s.cur && s.cur[t] < s.cur[o]
    requires n in s.mutexes && n != m && s.mutexes[n].owner.Some? && s.mutexes[n].owner != Some(o)
    requires k < |s.mutexes[n].waiters| && s.mutexes[n].waiters[k] == o && t !in s.mutexes[n].waiters
    requires NoDup(s.mutexes[n].waiters)
    ensures var r, ws, p := Take(s, t, m, timeout).0, s.mutexes[n].waiters, Now(s.cur);
      && r.cur[o] == s.cur[t] && n in r.mutexes
      && (Inherits(s, n) ==> (Inherits(r, n) <==> p(s.mutexes[n].owner.value) <= p(t)))
      && (Sorted(ws, p) ==> (Sorted(r.mutexes[n].waiters, Now(r.cur)) <==> forall i :: 0 <= i < k ==> p(ws[i]) <= p(t)))
  {
    hide Enqueue;
    var r, ws, p := Take(s, t, m, timeout).0, s.mutexes[n].waiters, Now(s.cur);
    assert r.mutexes[n] == s.mutexes[n] && r.cur == s.cur[o := s.cur[t]];
    assert forall w :: w != o ==> Now(r.cur)(w) == p(w);
    assert o in ws && Now(r.cur)(o) == p(t);
    if Sorted(ws, p) { BoostedOrder(ws, p, Now(r.cur), k); }
  }

  /** Raising the priority of one waiter where it stands. */
  lemma {:induction false} BoostedOrder(ws: seq<Tid>, p: Priorities, q: Priorities, k: nat)
    requires NoDup(ws) && Sorted(ws, p) && k < |ws| && q(ws[k]) <= p(ws[k])
    requires forall w :: w != ws[k] ==> q(w) == p(w)
    ensures Sorted(ws, q) <==> forall i :: 0 <= i < k ==> p(ws[i]) <= q(ws[k])
  {
    forall i | 0 <= i < |ws| && i != k ensures ws[i] != ws[k] {
      assert Differ(ws, if i < k then i else k, if i < k then k else i);
    }
    if Sorted(ws, q) {
      forall i | 0 <= i < k ensures p(ws[i]) <= q(ws[k]) { assert InOrder(ws, q, i, k); }
    }
    if forall i :: 0 <= i < k ==> p(ws[i]) <= q(ws[k]) {
      forall i, j | 0 <= i < j < |ws| ensures InOrder(ws, q, i, j) { assert InOrder(ws, p, i, j); }
    }
  }

  /** The number of the step at which each thread was last suspended, the first step having number `now`. */
  ghost function Stamped(s: Sys, e: Event, at: map<Tid, nat>, now: nat): map<Tid, nat>
    requires Enabled(s, e)
  {
    if e.DoTake? && Take(s, e.t, e.m, e.timeout).1 == Suspended then at[e.t := now] else at
  }

  ghost function Stamps(s: Sys, es: seq<Event>, at: map<Tid, nat>, now: nat): map<Tid, nat>
    requires CanRun(s, es)
    decreases |es|
  {
    if es == [] then at else Stamps(Apply(s, es[0]), es[1..], Stamped(s, es[0], at, now), now + 1)
  }

  ghost predicate Served(s: Sys, at: map<Tid, nat>, now: nat) {
    forall m: Mid :: m in s.mutexes ==> Turns(s.mutexes[m].waiters, Now(s.cur), at, now)
  }

  /** A step changes no priority but that of the acting thread or of the owner, and neither is waiting. */
  lemma {:induction false} WaitersKeepPriority(s: Sys, e: Event, w: Tid, k: Mid)
    requires Inv(s) && Enabled(s, e) && WaitsOn(s, w, k)
    ensures Now(Apply(s, e).cur)(w) == Now(s.cur)(w)
    ensures !e.DoExpire? ==> w != e.t
  {
    hide Enqueue, Without;
    assert MtxOk(s, s.mutexes[e.m]);
    var x := s.mutexes[e.m];
    if x.owner.Some? { assert Owns(s, x.owner.value, e.m); }
  }

  lemma {:induction false} ServedStep(s: Sys, e: Event, at: map<Tid, nat>, now: nat)
    requires Inv(s) && Enabled(s, e) && Served(s, at, now)
    ensures Served(Apply(s, e), Stamped(s, e, at, now), now + 1)
  {
    var n, after := Apply(s, e), Stamped(s, e, at, now);
    forall m: Mid | m in n.mutexes ensures Turns(n.mutexes[m].waiters, Now(n.cur), after, now + 1) {
      if m == e.m { ServedHere(s, e, at, now); } else { ServedElsewhere(s, e, at, now, m); }
    }
  }

  lemma {:induction false} ServedElsewhere(s: Sys, e: Event, at: map<Tid, nat>, now: nat, m: Mid)
    requires Inv(s) && Enabled(s, e) && Served(s, at, now) && m in Apply(s, e).mutexes && m != e.m
    ensures Turns(Apply(s, e).mutexes[m].waiters, Now(Apply(s, e).cur), Stamped(s, e, at, now), now + 1)
  {
    assert m in s.mutexes && Apply(s, e).mutexes[m] == s.mutexes[m];
    var ws, n, after := s.mutexes[m].waiters, Apply(s, e), Stamped(s, e, at, now);
    assert Turns(ws, Now(s.cur), at, now);
    hide Inv, Apply, Take, Release, Now, InTurn, Enqueue;
    forall t | t in ws ensures Now(n.cur)(t) == Now(s.cur)(t) && t in after && t in at && after[t] == at[t] {
      assert WaitsOn(s, t, m);
      WaitersKeepPriority(s, e, t, m);
    }
    TurnsFrame(ws, Now(s.cur), at, now, Now(n.cur), after);
  }

  /** What becomes of the waiters of the mutex acted on. */
  lemma {:induction false} WaitersAfter(s: Sys, e: Event)
    requires Enabled(s, e)
    ensures var ws, n := s.mutexes[e.m].waiters, Apply(s, e);
      && e.m in n.mutexes
      && n.mutexes[e.m].waiters ==
        if e.DoTake? && Take(s, e.t, e.m, e.timeout).1 == Suspended then Enqueue(ws, e.t, Prio, Now(n.cur))
        else if e.DoExpire? then Without(ws, e.t)
        else if e.DoRelease? && s.mutexes[e.m].owner == Some(e.t) && Lowered(s.mutexes[e.m].hold) == 0 && ws != []
        then ws[1..]
        else ws
  {
    hide Enqueue, Without;
  }

  lemma {:induction false} ServedHere(s: Sys, e: Event, at: map<Tid, nat>, now: nat)
    requires Inv(s) && Enabled(s, e) && Served(s, at, now)
    ensures e.m in Apply(s, e).mutexes
    ensures Turns(Apply(s, e).mutexes[e.m].waiters, Now(Apply(s, e).cur), Stamped(s, e, at, now), now + 1)
  {
    WaitersAfter(s, e);
    var ws, n := s.mutexes[e.m].waiters, Apply(s, e);
    assert Turns(ws, Now(s.cur), at, now);
    assert e.DoTake? ==> !WaitsOn(s, e.t, e.m);
    hide Inv, Apply, Take, Release, Now, InTurn, Enqueue, Without, MtxOk;
    forall t | t in ws ensures Now(n.cur)(t) == Now(s.cur)(t) {
      assert WaitsOn(s, t, e.m);
      WaitersKeepPriority(s, e, t, e.m);
    }
    TurnsFrame(ws, Now(s.cur), at, now, Now(n.cur), at);
    TurnsSame(ws, Now(s.cur), at, now, Now(n.cur));
    if e.DoTake? && Take(s, e.t, e.m, e.timeout).1 == Suspended {
      TurnsInsert(ws, Now(n.cur), at, now, e.t);
    } else if e.DoExpire? {
      TurnsWithout(ws, Now(n.cur), at, now + 1, e.t);
    } else if ws != [] {
      TurnsTail(ws, Now(n.cur), at, now + 1);
    }
  }

  lemma {:induction false} ServedRun(s: Sys, es: seq<Event>, at: map<Tid, nat>, now: nat)
    requires Inv(s) && CanRun(s, es) && UnnestedRun(s, es) && Served(s, at, now)
    ensures Served(After(s, es), Stamps(s, es, at, now), now + |es|)
    decreases |es|
  {
    hide Inv, Served, Stamped, Apply, Enabled, Unnested;
    if es != [] {
      StepKeeps(s, es[0]);
      ServedStep(s, es[0], at, now);
      ServedRun(Apply(s, es[0]), es[1..], Stamped(s, es[0], at, now), now + 1);
    }
  }

  /** Over every unnested run from a state with nobody waiting: the waiter a mutex will be handed to is the most urgent,
      and among the equally urgent the one suspended first. */
  lemma {:induction false} HeadWaitedLongest(s: Sys, es: seq<Event>, m: Mid, w: Tid)
    requires Inv(s) && CanRun(s, es) && UnnestedRun(s, es)
    requires forall k: Mid :: k in s.mutexes ==> s.mutexes[k].waiters == []
    requires m in After(s, es).mutexes && w in After(s, es).mutexes[m].waiters
    ensures var n, at := After(s, es), Stamps(s, es, map[], 0); var head := n.mutexes[m].waiters[0];
      && head in n.cur && w in n.cur && head in at && w in at
      && (head == w || n.cur[head] < n.cur[w] || (n.cur[head] == n.cur[w] && at[head] < at[w]))
  {
    RunKeeps(s, es);
    ServedRun(s, es, map[], 0);
    var n, at := After(s, es), Stamps(s, es, map[], 0);
    var ws := n.mutexes[m].waiters;
    assert MtxOk(n, n.mutexes[m]) && Turns(ws, Now(n.cur), at, |es|) && ws[0] in ws;
    TurnsTail(ws, Now(n.cur), at, |es|);
  }

  /** Threads 0, 1, 2 at priorities 10, 5, 3, with thread 0 owning both mutexes, and then with one and two
      threads blocked. */
  const OWN: map<Tid, nat> := map[0 := 10, 1 := 5, 2 := 3]
  const HELD: Mtx := Mtx(0, 1, Some(0), 10, [])

  ghost function Nested(stage: nat): Sys {
    if stage == 0 then Sys(OWN, OWN, map[0 := FREE, 1 := FREE])
    else if stage == 1 then Sys(OWN, OWN, map[0 := HELD, 1 := FREE])
    else if stage == 2 then Sys(OWN, OWN, map[0 := HELD, 1 := HELD])
    else if stage == 3 then Sys(OWN, map[0 := 5, 1 := 5, 2 := 3], map[0 := HELD.(waiters := [1]), 1 := HELD])
    else Sys(OWN, map[0 := 3, 1 := 5, 2 := 3], map[0 := HELD.(waiters := [1]), 1 := HELD.(waiters := [2])])
  }

  lemma {:induction false} NestedStart()
    ensures Inv(Nested(0))
  {
    var s := Nested(0);
    assert MtxOk(s, FREE);
    assert forall t: Tid, m: Mid :: !Owns(s, t, m) && !WaitsOn(s, t, m);
  }

  lemma {:induction false} NestedStages()
    ensures Enabled(Nested(0), DoTake(0, 0, 0)) && Apply(Nested(0), DoTake(0, 0, 0)) == Nested(1)
    ensures Enabled(Nested(1), DoTake(0, 1, 0)) && Apply(Nested(1), DoTake(0, 1, 0)) == Nested(2)
  {
    assert Nested(0).mutexes[0 := HELD] == Nested(1).mutexes;
    assert Nested(1).mutexes[1 := HELD] == Nested(2).mutexes;
  }

  lemma {:induction false} FirstBlocks()
    ensures Enabled(Nested(2), DoTake(1, 0, -1)) && Apply(Nested(2), DoTake(1, 0, -1)) == Nested(3)
  {
    var s, r := Nested(2), Nested(3);
    assert s.cur[0 := 5] == r.cur;
    assert Enqueue([], 1, Prio, Now(r.cur)) == [1];
    assert s.mutexes[0 := HELD.(waiters := [1])] == r.mutexes;
    assert forall n: Mid :: !WaitsOn(s, 1, n);
  }

  lemma {:induction false} SecondBlocks()
    ensures Enabled(Nested(3), DoTake(2, 1, -1)) && Apply(Nested(3), DoTake(2, 1, -1)) == Nested(4)
  {
    var r := Nested(3);
    assert r.cur[0 := 3] == Nested(4).cur;
    assert Enqueue([], 2, Prio, Now(Nested(4).cur)) == [2];
    assert r.mutexes[1 := HELD.(waiters := [2])] == Nested(4).mutexes;
    assert forall n: Mid :: !WaitsOn(r, 2, n);
  }

  /** A run of five enabled steps in which thread 0 takes mutex 1 while owning mutex 0 loses inheritance:
      thread 0 ends at priority 10 while thread 1, at priority 5, waits for mutex 0, which thread 0 owns. */
  lemma {:induction false} NestingBreaksInheritance()
    ensures Inv(Nested(0)) && Nested(4) == Apply4(Nested(0))
    ensures Enabled(Nested(4), DoRelease(0, 1)) && !Inherits(Apply(Nested(4), DoRelease(0, 1)), 0)
  {
    hide *;
    NestedStart();
    NestedRun();
    NestedEnd();
  }

  lemma {:induction false} NestedRun()
    ensures Nested(4) == Apply4(Nested(0))
  {
    hide Nested, Apply, Enabled;
    NestedStages();
    FirstBlocks();
    SecondBlocks();
  }

  lemma {:induction false} NestedEnd()
    ensures Enabled(Nested(4), DoRelease(0, 1)) && !Inherits(Apply(Nested(4), DoRelease(0, 1)), 0)
  {
    var s := Nested(4);
    assert forall n: Mid :: !WaitsOn(s, 0, n);
    var r := Apply(s, DoRelease(0, 1));
    assert r.mutexes[0] == HELD.(waiters := [1]) && 1 in r.mutexes[0].waiters;
    assert Now(r.cur)(0) == 10 && Now(r.cur)(1) == 5;
  }

  /** The first four steps of that run. */
  ghost function Apply4(s: Sys): Sys {
    var es := [DoTake(0, 0, 0), DoTake(0, 1, 0), DoTake(1, 0, -1), DoTake(2, 1, -1)];
    TryApply(TryApply(TryApply(TryApply(s, es[0]), es[1]), es[2]), es[3])
  }

  ghost function TryApply(s: Sys, e: Event): Sys {
    if Enabled(s, e) then Apply(s, e) else s
  }

  ghost function Created(s: Sys, m: Mid): Sys {
    s.(mutexes := s.mutexes[m := FREE])
  }

  lemma {:induction false} CreateKeeps(s: Sys, m: Mid)
    requires m !in s.mutexes
    ensures Inv(s) ==> Inv(Created(s, m))
    ensures Plain(s) ==> Plain(Created(s, m))
  {
    hide MtxOk, Enqueue;
    var n := Created(s, m);
    assert forall t: Tid, k: Mid :: Owns(n, t, k) <==> Owns(s, t, k);
    assert forall t: Tid, k: Mid :: WaitsOn(n, t, k) <==> WaitsOn(s, t, k);
    if Inv(s) {
      forall k: Mid | k in n.mutexes ensures MtxOk(n, n.mutexes[k]) {
        if k == m { FreshOk(n); } else { SameMtx(s, n, s.mutexes[k]); }
      }
    }
    assert forall k: Mid :: k in n.mutexes && k != m ==> n.mutexes[k] == s.mutexes[k];
  }

  lemma {:induction false} FreshOk(s: Sys)
    requires s.base.Keys == s.cur.Keys
    ensures MtxOk(s, FREE)
  {
  }

  lemma {:induction false} SameMtx(s: Sys, n: Sys, x: Mtx)
    requires MtxOk(s, x) && n.base == s.base && n.cur == s.cur
    ensures MtxOk(n, x)
  {
    MtxFrame(s, n, x);
  }

  /** What one mutex keeps even when threads nest takes of several mutexes. */
  ghost predicate PlainMtx(s: Sys, x: Mtx) {
    && x.value <= 1 && x.hold <= HOLD_MAX
    && (x.value == 1 <==> x.owner == None) && (x.hold == 0 <==> x.owner == None)
    && (x.owner.Some? ==> x.owner.value in s.cur) && forall w :: w in x.waiters ==> w in s.cur
  }

  ghost predicate Plain(s: Sys) {
    s.base.Keys == s.cur.Keys && forall m: Mid :: m in s.mutexes ==> PlainMtx(s, s.mutexes[m])
  }

  lemma {:induction false} InvPlain(s: Sys)
    requires Inv(s)
    ensures Plain(s)
  {
    forall m: Mid | m in s.mutexes ensures PlainMtx(s, s.mutexes[m]) { assert MtxOk(s, s.mutexes[m]); }
  }

  /** A mutex is free exactly when nobody holds it, after any step, nested or not; a release by a thread that does
      not own the mutex changes nothing. */
  lemma {:induction false} PlainKept(s: Sys, e: Event)
    requires Plain(s) && Enabled(s, e)
    ensures Plain(Apply(s, e))
    ensures e.DoRelease? && !Owns(s, e.t, e.m) ==> Apply(s, e) == s && Release(s, e.t, e.m).1 == NotOwner
  {
    hide Enqueue, Now, PlainMtx, Take, Release;
    assert PlainMtx(s, s.mutexes[e.m]);
    match e
    case DoTake(t, m, timeout) => TakePlain(s, t, m, timeout); PlainFrom(s, Apply(s, e), m);
    case DoRelease(t, m) => ReleasePlain(s, t, m); PlainFrom(s, Apply(s, e), m);
    case DoExpire(t, m) => ExpirePlain(s, t, m); PlainFrom(s, Apply(s, e), m);
  }

  lemma {:induction false} PlainFrom(s: Sys, n: Sys, m: Mid)
    requires Plain(s) && m in s.mutexes && m in n.mutexes && n.base == s.base && n.cur.Keys == s.cur.Keys
    requires PlainMtx(s, n.mutexes[m]) && n.mutexes == s.mutexes[m := n.mutexes[m]]
    ensures Plain(n)
  {
    assert forall k: Mid :: k in n.mutexes && k != m ==> n.mutexes[k] == s.mutexes[k];
    assert forall t: Tid :: t in n.cur.Keys <==> t in s.cur.Keys;
  }

  lemma {:induction false} TakePlain(s: Sys, t: Tid, m: Mid, timeout: int)
    requires t in s.cur && m in s.mutexes && PlainMtx(s, s.mutexes[m])
    ensures var n := Take(s, t, m, timeout).0;
      && n.base == s.base && n.cur.Keys == s.cur.Keys
      && m in n.mutexes && n.mutexes == s.mutexes[m := n.mutexes[m]] && PlainMtx(s, n.mutexes[m])
  {
    var n, x := Take(s, t, m, timeout).0, s.mutexes[m];
    EnqueueElements(x.waiters, t, Prio, Now(n.cur));
    assert s.mutexes == s.mutexes[m := x];
  }

  lemma {:induction false} ReleasePlain(s: Sys, t: Tid, m: Mid)
    requires t in s.cur && m in s.mutexes && PlainMtx(s, s.mutexes[m])
    ensures var n := Release(s, t, m).0;
      && n.base == s.base && n.cur.Keys == s.cur.Keys
      && m in n.mutexes && n.mutexes == s.mutexes[m := n.mutexes[m]] && PlainMtx(s, n.mutexes[m])
    ensures s.mutexes[m].owner != Some(t) ==> Release(s, t, m) == (s, NotOwner)
  {
    var x := s.mutexes[m];
    assert x.waiters != [] ==> x.waiters[0] in x.waiters;
    assert s.mutexes == s.mutexes[m := x];
  }

  lemma {:induction false} ExpirePlain(s: Sys, t: Tid, m: Mid)
    requires m in s.mutexes && PlainMtx(s, s.mutexes[m])
    ensures var n := Expire(s, t, m);
      && n.base == s.base && n.cur == s.cur
      && m in n.mutexes && n.mutexes == s.mutexes[m := n.mutexes[m]] && PlainMtx(s, n.mutexes[m])
  {
  }

  /** Only mutex `m` may differ, and only the priorities of the threads in `who`. */
  ghost predicate OnlyAt(s: Sys, n: Sys, m: Mid, who: set<Tid>) {
    && n.base == s.base && n.cur.Keys == s.cur.Keys && n.mutexes.Keys == s.mutexes.Keys
    && (forall k: Mid :: k in s.mutexes && k != m ==> n.mutexes[k] == s.mutexes[k])
    && forall t: Tid :: t in s.cur && t !in who ==> n.cur[t] == s.cur[t]
  }

  /** What the result of a take means, nested or not. Success: the caller owns the mutex, with one hold more, and it
      was its own or free. Timed out: another thread owns it and the time is zero. Suspended: another thread owns it
      and the time is not zero. Full: the caller's own mutex at the hold limit. Nothing changes without success or
      suspension. */
  lemma {:induction false} TakeMeans(s: Sys, t: Tid, m: Mid, timeout: int)
    requires Plain(s) && Enabled(s, DoTake(t, m, timeout))
    ensures var (n, r) := Take(s, t, m, timeout); var x := s.mutexes[m];
      && m in n.mutexes
      && var y := n.mutexes[m]; var other := x.owner.Some? && x.owner != Some(t);
      && (r == Ok <==> !other && x.hold < HOLD_MAX)
      && (r == Ok ==> n.cur == s.cur && OnlyAt(s, n, m, {}) && Owns(n, t, m) && y.hold == x.hold + 1
                      && y.waiters == x.waiters && y.value == 0
                      && y.original == if Owns(s, t, m) then x.original else s.cur[t])
      && (r == Full <==> !other && x.hold == HOLD_MAX)
      && (r == TimedOut <==> other && timeout == 0) && (r == Suspended <==> other && timeout != 0)
      && (r == Full || r == TimedOut ==> n == s)
  {
    hide Enqueue, Now;
    assert PlainMtx(s, s.mutexes[m]);
  }

  /** A thread is suspended exactly if it then waits for the mutex; the others wait as before, and the owner is at
      least as urgent as the newcomer. */
  lemma {:induction false} TakeSuspends(s: Sys, t: Tid, m: Mid, timeout: int)
    requires Plain(s) && Enabled(s, DoTake(t, m, timeout))
    ensures var (n, r) := Take(s, t, m, timeout); var x := s.mutexes[m];
      && m in n.mutexes
      && (r == Suspended <==> t in n.mutexes[m].waiters)
      && (r == Suspended ==>
            && x.owner.Some? && x.owner.value in s.cur && OnlyAt(s, n, m, {x.owner.value})
            && n.mutexes[m] == x.(waiters := n.mutexes[m].waiters) && Without(n.mutexes[m].waiters, t) == x.waiters
            && n.cur[x.owner.value] == Min(s.cur[x.owner.value], s.cur[t]))
  {
    hide Enqueue, Without, Now;
    var x := s.mutexes[m];
    assert PlainMtx(s, x) && !WaitsOn(s, t, m);
    EnqueueUndone(x.waiters, t, Prio, Now(Take(s, t, m, timeout).0.cur));
  }

  /** What the result of a release means. It succeeds exactly for the owner, who gives up one hold; with the last one it
      gets its own priority back, and the mutex goes to the first waiter, once held, or is free if nobody waits. */
  lemma {:induction false} ReleaseMeans(s: Sys, t: Tid, m: Mid)
    requires Plain(s) && Enabled(s, DoRelease(t, m))
    ensures var (n, r) := Release(s, t, m); var x := s.mutexes[m];
      && m in n.mutexes
      && var y := n.mutexes[m];
      && (r == Ok <==> Owns(s, t, m)) && (r == NotOwner <==> !Owns(s, t, m)) && (r == NotOwner ==> n == s)
      && (r == Ok && x.hold > 1 ==> n.cur == s.cur && OnlyAt(s, n, m, {}) && y == x.(hold := x.hold - 1))
      && (r == Ok && x.hold == 1 ==> OnlyAt(s, n, m, {t}) && n.cur[t] == x.original)
      && (r == Ok && x.hold == 1 && x.waiters == [] ==> y == FREE)
      && (r == Ok && x.hold == 1 && x.waiters != [] ==>
            && var u := x.waiters[0];
            && Owns(n, u, m) && y.hold == 1 && y.value == 0 && x.waiters == [u] + y.waiters && y.original == n.cur[u])
  {
    assert PlainMtx(s, s.mutexes[m]);
    var x := s.mutexes[m];
    assert x.waiters != [] ==> x.waiters[0] in x.waiters;
  }

  /** A timeout takes its thread off the wait list and does nothing else. */
  lemma {:induction false} ExpireMeans(s: Sys, t: Tid, m: Mid)
    requires Inv(s) && WaitsOn(s, t, m)
    ensures var n := Expire(s, t, m);
      && n.cur == s.cur && OnlyAt(s, n, m, {}) && n.mutexes[m] == s.mutexes[m].(waiters := n.mutexes[m].waiters)
      && !WaitsOn(n, t, m) && multiset(n.mutexes[m].waiters) == multiset(s.mutexes[m].waiters) - multiset{t}
  {
    assert MtxOk(s, s.mutexes[m]);
    WithoutNoDup(s.mutexes[m].waiters, t);
    WithoutElements(s.mutexes[m].waiters, t);
  }

  /** All mutexes of the system and the priorities of all threads, updated in place. */
  class MutexTable {
    ghost const base: map<Tid, nat>
    var cur: map<Tid, nat>
    var mutexes: map<Mid, Mtx>

    ghost function View(): Sys
      reads this
    {
      Sys(base, cur, mutexes)
    }

    constructor (priorities: map<Tid, nat>)
      ensures View() == Sys(priorities, priorities, map[]) && Inv(View())
    {
      base, cur, mutexes := priorities, priorities, map[];
    }

    /** `rt_mutex_init` of a new mutex. */
    method Create(m: Mid)
      requires m !in mutexes
      modifies `mutexes
      ensures View() == Created(old(View()), m)
    {
      mutexes := mutexes[m := Mtx(1, 0, None, NO_PRIORITY, [])];
    }

    /** `RT_THREAD_CTRL_CHANGE_PRIORITY`, as far as the priority itself goes. */
    method ChangePriority(t: Tid, p: nat)
      modifies `cur
      ensures cur == old(cur)[t := p]
    {
      cur := cur[t := p];
    }

    /** `rt_mutex_take` by thread `t`, up to return or suspension. */
    method TakePass(t: Tid, m: Mid, timeout: int) returns (r: Result)
      requires Plain(View()) && t in cur && m in mutexes
      modifies this
      ensures (View(), r) == Take(old(View()), t, m, timeout)
    {
      ghost var s := View();
      assert PlainMtx(s, s.mutexes[m]);
      var x := mutexes[m];
      if x.owner == Some(t) {
        if x.hold < HOLD_MAX {
          mutexes := mutexes[m := x.(hold := x.hold + 1)];
        } else {
          return Full;
        }
      } else if x.value > 0 {
        x := x.(value := x.value - 1);
        x := x.(owner := Some(t), original := cur[t]);
        if x.hold < HOLD_MAX {
          mutexes := mutexes[m := x.(hold := x.hold + 1)];
        } else {
          assert false;  // a free mutex has no holds, so this overflow return is unreachable
        }
      } else {
        if timeout == 0 {
          return TimedOut;
        }
        var o := x.owner.value;
        if cur[t] < cur[o] {
          ChangePriority(o, cur[t]);
        }
        var ws := Suspend(x.waiters, t, Prio, Now(cur));
        mutexes := mutexes[m := x.(waiters := ws)];
        return Suspended;
      }
      return Ok;
    }

    /** `rt_mutex_release` by thread `t`. */
    method ReleasePass(t: Tid, m: Mid) returns (r: Result)
      requires Plain(View()) && t in cur && m in mutexes
      modifies this
      ensures (View(), r) == Release(old(View()), t, m)
    {
      ghost var s := View();
      assert PlainMtx(s, s.mutexes[m]);
      var x := mutexes[m];
      if x.owner != Some(t) {
        return NotOwner;
      }
      x := x.(hold := if x.hold == 0 then HOLD_MAX else x.hold - 1);
      if x.hold == 0 {
        if x.original != cur[t] {
          ChangePriority(t, x.original);
        }
        assert cur == s.cur[t := x.original];
        if x.waiters != [] {
          var u := x.waiters[0];
          assert u in x.waiters;
          x := x.(owner := Some(u), original := cur[u]);
          if x.hold < HOLD_MAX {
            x := x.(hold := x.hold + 1);
          } else {
            assert false;  // the hold count was just brought to zero
          }
          x := x.(waiters := x.waiters[1..]);
        } else {
          if x.value < VALUE_MAX {
            x := x.(value := x.value + 1);
          } else {
            assert false;  // an owned mutex has value zero
          }
          x := x.(owner := None, original := NO_PRIORITY);
        }
      }
      mutexes := mutexes[m := x];
      return Ok;
    }
  }
}
