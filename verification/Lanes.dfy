/** A queue with urgent entries (`rt_mb_urgent` and `rt_mq_urgent` in `rt-thread/src/ipc.c`) over whole runs: a deque
    behaves as a stack of urgent entries in front of a queue of ordinary ones. */
module Lanes {

  /** What happens to the deque: an entry goes to its end, to its front, or the front one is taken. */
  datatype Move<T> = Push(x: T) | Urge(x: T) | Pull

  datatype Lane<T> = Lane(urgent: seq<T>, ordinary: seq<T>)

  /** The deque after the moves. */
  ghost function Deque<T>(q: seq<T>, ms: seq<Move<T>>): seq<T>
    decreases |ms|
  {
    if ms == [] then q
    else
      match ms[0]
      case Push(x) => Deque(q + [x], ms[1..])
      case Urge(x) => Deque([x] + q, ms[1..])
      case Pull => Deque(if q == [] then q else q[1..], ms[1..])
  }

  /** What is taken from it, in order. */
  ghost function Out<T>(q: seq<T>, ms: seq<Move<T>>): seq<T>
    decreases |ms|
  {
    if ms == [] then []
    else
      match ms[0]
      case Push(x) => Out(q + [x], ms[1..])
      case Urge(x) => Out([x] + q, ms[1..])
      case Pull => if q == [] then Out(q, ms[1..]) else [q[0]] + Out(q[1..], ms[1..])
  }

  ghost function Pushed<T>(ms: seq<Move<T>>): seq<T> {
    if ms == [] then [] else if ms[0].Push? then [ms[0].x] + Pushed(ms[1..]) else Pushed(ms[1..])
  }

  ghost function Urged<T>(ms: seq<Move<T>>): seq<T> {
    if ms == [] then [] else if ms[0].Urge? then [ms[0].x] + Urged(ms[1..]) else Urged(ms[1..])
  }

  /** The same with two lanes: nothing ordinary is taken while something urgent is left. */
  ghost function Step<T>(l: Lane<T>, m: Move<T>): Lane<T> {
    match m
    case Push(x) => l.(ordinary := l.ordinary + [x])
    case Urge(x) => l.(urgent := [x] + l.urgent)
    case Pull =>
      if l.urgent != [] then l.(urgent := l.urgent[1..])
      else if l.ordinary != [] then l.(ordinary := l.ordinary[1..])
      else l
  }

  ghost function Flow<T>(l: Lane<T>, ms: seq<Move<T>>): Lane<T>
    decreases |ms|
  {
    if ms == [] then l else Flow(Step(l, ms[0]), ms[1..])
  }

  ghost function UrgentOut<T>(l: Lane<T>, ms: seq<Move<T>>): seq<T>
    decreases |ms|
  {
    if ms == [] then []
    else if ms[0].Pull? && l.urgent != [] then [l.urgent[0]] + UrgentOut(Step(l, ms[0]), ms[1..])
    else UrgentOut(Step(l, ms[0]), ms[1..])
  }

  ghost function OrdinaryOut<T>(l: Lane<T>, ms: seq<Move<T>>): seq<T>
    decreases |ms|
  {
    if ms == [] then []
    else if ms[0].Pull? && l.urgent == [] && l.ordinary != [] then
      [l.ordinary[0]] + OrdinaryOut(Step(l, ms[0]), ms[1..])
    else OrdinaryOut(Step(l, ms[0]), ms[1..])
  }

  /** `s` runs through `a` and `b`, each in its order. */
  ghost predicate Interleaved<T>(s: seq<T>, a: seq<T>, b: seq<T>)
    decreases |s|
  {
    if s == [] then
      a == [] && b == []
    else (
      || (a != [] && a[0] == s[0] && Interleaved(s[1..], a[1..], b))
      || (b != [] && b[0] == s[0] && Interleaved(s[1..], a, b[1..]))
    )
  }

  /** The deque is the urgent lane in front of the ordinary one, and what is taken runs through what the two lanes give,
      each in its order. */
  lemma {:induction false} DequeIsLanes<T>(l: Lane<T>, ms: seq<Move<T>>)
    ensures Deque(l.urgent + l.ordinary, ms) == Flow(l, ms).urgent + Flow(l, ms).ordinary
    ensures Interleaved(Out(l.urgent + l.ordinary, ms), UrgentOut(l, ms), OrdinaryOut(l, ms))
    decreases |ms|
  {
    if ms != [] {
      var q, n := l.urgent + l.ordinary, Step(l, ms[0]);
      DequeIsLanes(n, ms[1..]);
      match ms[0]
      case Push(x) => assert q + [x] == n.urgent + n.ordinary;
      case Urge(x) => assert [x] + q == n.urgent + n.ordinary;
      case Pull =>
        if q != [] {
          assert q[1..] == n.urgent + n.ordinary;
          var s, a, b := Out(q, ms), UrgentOut(l, ms), OrdinaryOut(l, ms);
          assert s[0] == q[0] && s[1..] == Out(q[1..], ms[1..]);
          if l.urgent != [] {
            assert a[0] == q[0] && a[1..] == UrgentOut(n, ms[1..]) && b == OrdinaryOut(n, ms[1..]);
          } else {
            assert b[0] == q[0] && b[1..] == OrdinaryOut(n, ms[1..]) && a == UrgentOut(n, ms[1..]);
          }
        }
    }
  }

  /** Ordinary entries leave in the order in which they came, whatever urgent ones do. */
  lemma {:induction false} OrdinaryInOrder<T>(l: Lane<T>, ms: seq<Move<T>>)
    ensures OrdinaryOut(l, ms) + Flow(l, ms).ordinary == l.ordinary + Pushed(ms)
    decreases |ms|
  {
    if ms != [] {
      var n, rest := Step(l, ms[0]), ms[1..];
      OrdinaryInOrder(n, rest);
      match ms[0]
      case Push(x) => assert l.ordinary + [x] + Pushed(rest) == l.ordinary + Pushed(ms);
      case Urge(x) => assert n.ordinary == l.ordinary;
      case Pull =>
        if l.urgent == [] && l.ordinary != [] {
          assert [l.ordinary[0]] + (OrdinaryOut(n, rest) + Flow(n, rest).ordinary) == l.ordinary + Pushed(rest);
        }
    }
  }

  /** No urgent entry is lost, invented or duplicated. */
  lemma {:induction false} UrgentConserved<T>(l: Lane<T>, ms: seq<Move<T>>)
    ensures multiset(UrgentOut(l, ms)) + multiset(Flow(l, ms).urgent) == multiset(l.urgent) + multiset(Urged(ms))
    decreases |ms|
  {
    if ms != [] {
      var n, rest := Step(l, ms[0]), ms[1..];
      UrgentConserved(n, rest);
      UrgentMove(l, ms[0]);
      UrgentSum(l, ms);
      Shifted(multiset(TookUrgent(l, ms[0])), multiset(UrgentOut(n, rest)), multiset(Flow(n, rest).urgent),
        multiset(n.urgent), multiset(Urged(rest)), multiset(l.urgent), multiset(PutUrgent(ms[0])));
    }
  }

  lemma {:induction false} Shifted<T>(
    took: multiset<T>, out: multiset<T>, left: multiset<T>, n: multiset<T>, later: multiset<T>, l: multiset<T>,
    put: multiset<T>)
    requires out + left == n + later && took + n == l + put
    ensures (took + out) + left == l + (put + later)
  {
    assert (took + out) + left == took + (out + left) == (took + n) + later;
  }

  /** What one move does to the urgent lane. */
  lemma {:induction false} UrgentMove<T>(l: Lane<T>, m: Move<T>)
    ensures multiset(TookUrgent(l, m)) + multiset(Step(l, m).urgent) == multiset(l.urgent) + multiset(PutUrgent(m))
  {
    if m.Pull? && l.urgent != [] { assert l.urgent == [l.urgent[0]] + l.urgent[1..]; }
  }

  ghost function TookUrgent<T>(l: Lane<T>, m: Move<T>): seq<T> {
    if m.Pull? && l.urgent != [] then [l.urgent[0]] else []
  }

  ghost function PutUrgent<T>(m: Move<T>): seq<T> {
    if m.Urge? then [m.x] else []
  }

  lemma {:induction false} UrgentSum<T>(l: Lane<T>, ms: seq<Move<T>>)
    requires ms != []
    ensures multiset(UrgentOut(l, ms)) == multiset(TookUrgent(l, ms[0])) + multiset(UrgentOut(Step(l, ms[0]), ms[1..]))
    ensures multiset(Urged(ms)) == multiset(PutUrgent(ms[0])) + multiset(Urged(ms[1..]))
  {
    hide Step;
  }

  /** No prefix of the moves takes more than `d` plus what was urged before. */
  ghost predicate Covered<T>(d: nat, ms: seq<Move<T>>)
    decreases |ms|
  {
    if ms == [] then true
    else if ms[0].Push? then Covered(d, ms[1..])
    else if ms[0].Urge? then Covered(d + 1, ms[1..])
    else d > 0 && Covered(d - 1, ms[1..])
  }

  ghost function Taken<T>(ms: seq<Move<T>>): nat {
    if ms == [] then 0 else (if ms[0].Pull? then 1 else 0) + Taken(ms[1..])
  }

  lemma {:induction false} BelowStays<T>(l: Lane<T>, v: seq<T>, ms: seq<Move<T>>)
    requires Covered(|l.urgent|, ms)
    ensures Flow(l.(urgent := l.urgent + v), ms) == Flow(l, ms).(urgent := Flow(l, ms).urgent + v)
    ensures |Flow(l, ms).urgent| == |l.urgent| + |Urged(ms)| - Taken(ms)
    decreases |ms|
  {
    if ms != [] {
      var n, deep := Step(l, ms[0]), l.(urgent := l.urgent + v);
      assert Step(deep, ms[0]) == n.(urgent := n.urgent + v) by {
        match ms[0]
        case Push(x) =>
        case Urge(x) => assert [x] + (l.urgent + v) == [x] + l.urgent + v;
        case Pull => assert (l.urgent + v)[1..] == l.urgent[1..] + v;
      }
      BelowStays(n, v, ms[1..]);
    }
  }

  /** Urgent entries leave newest first: once those urged after `x` have been taken, `x` is at the front again, with the
      older ones behind it, and the ordinary ones only gained what was pushed. */
  lemma {:induction false} NewestUrgentFirst<T>(x: T, older: seq<T>, ordinary: seq<T>, ms: seq<Move<T>>)
    requires Covered(0, ms) && Taken(ms) == |Urged(ms)|
    ensures Deque([x] + older + ordinary, ms) == [x] + older + ordinary + Pushed(ms)
  {
    var l := Lane([], ordinary);
    BelowStays(l, [x] + older, ms);
    OrdinaryWaits(l, ms);
    var deep := Lane([x] + older, ordinary);
    assert l.(urgent := l.urgent + ([x] + older)) == deep;
    DequeIsLanes(deep, ms);
    assert Flow(l, ms).urgent == [];
    assert [x] + older + ordinary + Pushed(ms) == [x] + older + (ordinary + Pushed(ms));
  }

  lemma {:induction false} OrdinaryWaits<T>(l: Lane<T>, ms: seq<Move<T>>)
    requires Covered(|l.urgent|, ms)
    ensures Flow(l, ms).ordinary == l.ordinary + Pushed(ms)
    decreases |ms|
  {
    if ms != [] {
      OrdinaryWaits(Step(l, ms[0]), ms[1..]);
      if ms[0].Push? { assert l.ordinary + [ms[0].x] + Pushed(ms[1..]) == l.ordinary + Pushed(ms); }
    }
  }

  lemma {:induction false} InterleavedSum<T>(s: seq<T>, a: seq<T>, b: seq<T>)
    requires Interleaved(s, a, b)
    ensures multiset(s) == multiset(a) + multiset(b)
    decreases |s|
  {
    if s != [] {
      assert s == [s[0]] + s[1..];
      if a != [] && a[0] == s[0] && Interleaved(s[1..], a[1..], b) {
        InterleavedSum(s[1..], a[1..], b);
        assert a == [a[0]] + a[1..];
      } else {
        InterleavedSum(s[1..], a, b[1..]);
        assert b == [b[0]] + b[1..];
      }
    }
  }

  lemma {:induction false} OneLane<T>(s: seq<T>, b: seq<T>)
    requires Interleaved(s, [], b)
    ensures s == b
    decreases |s|
  {
    if s != [] { OneLane(s[1..], b[1..]); }
  }

  /** All of it for a queue that starts with ordinary entries. */
  ghost predicate InLanes<T>(
    q: seq<T>, ms: seq<Move<T>>, out: seq<T>, left: seq<T>, pushed: seq<T>, urged: seq<T>)
  {
    var l := Lane([], q);
    && left == Flow(l, ms).urgent + Flow(l, ms).ordinary
    && Interleaved(out, UrgentOut(l, ms), OrdinaryOut(l, ms))
    && OrdinaryOut(l, ms) + Flow(l, ms).ordinary == q + pushed
    && multiset(UrgentOut(l, ms)) + multiset(Flow(l, ms).urgent) == multiset(urged)
  }

  lemma {:induction false} RunsInLanes<T>(q: seq<T>, ms: seq<Move<T>>)
    ensures InLanes(q, ms, Out(q, ms), Deque(q, ms), Pushed(ms), Urged(ms))
    ensures Urged(ms) == [] ==> Out(q, ms) + Deque(q, ms) == q + Pushed(ms)
  {
    var l := Lane([], q);
    assert [] + q == q;
    DequeIsLanes(l, ms);
    OrdinaryInOrder(l, ms);
    UrgentConserved(l, ms);
    if Urged(ms) == [] {
      assert |multiset(UrgentOut(l, ms)) + multiset(Flow(l, ms).urgent)| == 0;
      assert UrgentOut(l, ms) == [] && Flow(l, ms).urgent == [];
      OneLane(Out(q, ms), OrdinaryOut(l, ms));
    }
  }

  /** A run one move at a time. */
  lemma {:induction false} FirstMove<T>(q: seq<T>, a: seq<Move<T>>, rest: seq<Move<T>>)
    requires |a| <= 1
    ensures Deque(q, a + rest) == Deque(Deque(q, a), rest) && Out(q, a + rest) == Out(q, a) + Out(Deque(q, a), rest)
    ensures Pushed(a + rest) == Pushed(a) + Pushed(rest) && Urged(a + rest) == Urged(a) + Urged(rest)
  {
    if a == [] {
      assert a + rest == rest;
    } else {
      assert (a + rest)[0] == a[0] && (a + rest)[1..] == rest && a[1..] == [];
    }
  }
}
