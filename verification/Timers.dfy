/** Timers (`rt-thread/src/timer.c`): starting, stopping and dispatching on top of the skip list. */
module Timers {
  import opened KernelTypes
  import opened Lists
  import opened WaitList
  import opened SkipList

  /** The rows of the list, the dispatcher's temporary list, the timer control blocks, the height counter and
      the tick. */
  datatype Wheel = Wheel(rows: seq<seq<Timer>>, temp: seq<Timer>, timeout: map<Timer, Word>, init: map<Timer, Word>,
                         periodic: set<Timer>, active: set<Timer>, nr: Word, tick: Word)

  function Bottom(w: Wheel): seq<Timer>
    requires w.rows != []
  {
    w.rows[|w.rows| - 1]
  }

  /** The search condition: stop before the first timer that expires later, by wrapped subtraction. */
  predicate Later(timeout: map<Timer, Word>, x: Timer, t: Timer) {
    x in timeout && t in timeout && 0 < Minus(timeout[x], timeout[t]) < HALF
  }

  /** The inner search loop on one row, from position `from`. */
  function Scan(row: seq<Timer>, timeout: map<Timer, Word>, t: Timer, from: nat): (k: nat)
    requires from <= |row|
    ensures from <= k <= |row|
    decreases |row| - from
  {
    if from == |row| || Later(timeout, row[from], t) then from else Scan(row, timeout, t, from + 1)
  }

  function IndexIn(row: seq<Timer>, x: Timer): (k: nat)
    ensures k <= |row|
    ensures k < |row| ==> row[k] == x
    ensures x in row ==> k < |row|
  {
    if row == [] || row[0] == x then 0 else 1 + IndexIn(row[1..], x)
  }

  /** Where the search enters a row: just behind the timer it stopped behind in the row above. */
  function Entry(above: seq<Timer>, p: nat, row: seq<Timer>): (k: nat)
    requires p <= |above|
    ensures k <= |row|
  {
    if p == 0 then 0 else if IndexIn(row, above[p - 1]) == |row| then |row| else IndexIn(row, above[p - 1]) + 1
  }

  /** `row_head[l]` as the nested loops compute it. */
  function Cursor(rows: seq<seq<Timer>>, timeout: map<Timer, Word>, t: Timer, l: nat): (k: nat)
    requires l < |rows|
    ensures k <= |rows[l]|
  {
    if l == 0 then Scan(rows[0], timeout, t, 0)
    else Scan(rows[l], timeout, t, Entry(rows[l - 1], Cursor(rows, timeout, t, l - 1), rows[l]))
  }

  /** The lowest `h` rows with `t` inserted at the cursors. */
  ghost function Placed(rows: seq<seq<Timer>>, timeout: map<Timer, Word>, t: Timer, h: nat): seq<seq<Timer>> {
    seq(|rows|, i requires 0 <= i < |rows| =>
      if i + h >= |rows| then InsertAt(rows[i], Cursor(rows, timeout, t, i), t) else rows[i])
  }

  /** `_timer_remove` unlinks a timer from every list it is on. */
  ghost function Unlink(w: Wheel, t: Timer): Wheel {
    w.(rows := Remove(w.rows, t), temp := Without(w.temp, t))
  }

  /** `rt_timer_start`. */
  ghost function Start(w: Wheel, t: Timer): Wheel
    requires w.rows != [] && t in w.init
  {
    var timeout := w.timeout[t := Plus(w.tick, w.init[t])];
    var nr := Plus(w.nr, 1);
    Unlink(w, t).(rows := Placed(Remove(w.rows, t), timeout, t, Height(|w.rows|, nr)),
                  timeout := timeout, nr := nr, active := w.active + {t})
  }

  /** `rt_timer_stop`; an inactive timer is left alone. */
  ghost function Stop(w: Wheel, t: Timer): Wheel {
    if t in w.active then Unlink(w, t).(active := w.active - {t}) else w
  }

  /** Expiries that lie within one half range of `base`. */
  ghost predicate Within(list: seq<Timer>, timeout: map<Timer, Word>, base: Word) {
    forall x :: x in list ==> x in timeout && Remaining(timeout, base)(x) < HALF
  }

  ghost predicate OnTime(w: Wheel, base: Word) {
    Rows(w.rows, Remaining(w.timeout, base)) && Within(Bottom(w), w.timeout, base) && w.init.Keys == w.timeout.Keys
  }

  lemma {:induction false} LaterIsOrder(timeout: map<Timer, Word>, x: Timer, t: Timer, base: Word)
    requires Within([x, t], timeout, base)
    ensures Later(timeout, x, t) <==> Remaining(timeout, base)(t) < Remaining(timeout, base)(x)
  {
    assert x in [x, t] && t in [x, t];
    WrapOrder(timeout[x], timeout[t], base);
  }

  /** Within the window the wrapped scan is the search for the stable insertion position. */
  lemma {:induction false} ScanIsPosition(row: seq<Timer>, timeout: map<Timer, Word>, t: Timer, base: Word, from: nat)
    requires from <= |row| && Within(row, timeout, base) && Within([t], timeout, base)
    ensures var prio := Remaining(timeout, base); Scan(row, timeout, t, from) == Position(row, prio(t), prio, from)
    decreases |row| - from
  {
    if from < |row| {
      assert row[from] in row && t in [t];
      LaterIsOrder(timeout, row[from], t, base);
      ScanIsPosition(row, timeout, t, base, from + 1);
    }
  }

  /** Entering a row behind a timer that expires no later skips nothing. */
  lemma {:induction false} EntrySkips(above: seq<Timer>, row: seq<Timer>, c: nat, p: nat, prio: Priorities)
    requires Thinned(above, row) && Sorted(row, prio) && c <= |above|
    requires forall i :: 0 <= i < c ==> prio(above[i]) <= p
    ensures forall i :: 0 <= i < Entry(above, c, row) ==> prio(row[i]) <= p
  {
    if c > 0 {
      FilterElems(row, Elems(above));
      assert above[c - 1] in above;
      var e := Entry(above, c, row);
      forall i | 0 <= i < e ensures prio(row[i]) <= p {
        if i < e - 1 { assert InOrder(row, prio, i, e - 1); }
      }
    }
  }

  /** So every cursor is that position in its row, wherever the search entered it. */
  lemma {:induction false} CursorIsPosition(rows: seq<seq<Timer>>, timeout: map<Timer, Word>, t: Timer, base: Word,
      l: nat)
    requires Rows(rows, Remaining(timeout, base)) && l < |rows|
    requires Within(rows[|rows| - 1], timeout, base) && Within([t], timeout, base)
    ensures var prio := Remaining(timeout, base); Cursor(rows, timeout, t, l) == Position(rows[l], prio(t), prio, 0)
  {
    var prio := Remaining(timeout, base);
    RowBelow(rows, prio, l);
    assert RowSorted(rows, l, prio);
    if l == 0 {
      ScanIsPosition(rows[0], timeout, t, base, 0);
    } else {
      CursorIsPosition(rows, timeout, t, base, l - 1);
      var c := Cursor(rows, timeout, t, l - 1);
      var e := Entry(rows[l - 1], c, rows[l]);
      ScanIsPosition(rows[l], timeout, t, base, e);
      assert RowThinned(rows, l - 1);
      EntrySkips(rows[l - 1], rows[l], c, prio(t), prio);
      PositionSkip(rows[l], prio(t), prio, e);
    }
  }

  /** The cursors put the timer where stable insertion into each row would. */
  lemma {:induction false} PlacedIsInsert(rows: seq<seq<Timer>>, timeout: map<Timer, Word>, t: Timer, base: Word,
      h: nat)
    requires Rows(rows, Remaining(timeout, base))
    requires Within(rows[|rows| - 1], timeout, base) && Within([t], timeout, base)
    ensures Placed(rows, timeout, t, h) == Insert(rows, t, h, Remaining(timeout, base))
  {
    forall i | 0 <= i < |rows|
      ensures Placed(rows, timeout, t, h)[i] == Insert(rows, t, h, Remaining(timeout, base))[i]
    {
      CursorIsPosition(rows, timeout, t, base, i);
    }
  }

  /** Times remaining may differ on timers that are not listed. */
  lemma {:induction false} RowsFrame(rows: seq<seq<Timer>>, prio: Priorities, after: Priorities)
    requires Rows(rows, prio) && forall x :: x in rows[|rows| - 1] ==> after(x) == prio(x)
    ensures Rows(rows, after)
  {
    forall i | 0 <= i < |rows| ensures RowSorted(rows, i, after) {
      RowBelow(rows, prio, i);
      assert RowSorted(rows, i, prio);
      SortedFrame(rows[i], prio, after);
    }
  }

  lemma {:induction false} SortedFrame(row: seq<Timer>, prio: Priorities, after: Priorities)
    requires Sorted(row, prio) && forall x :: x in row ==> after(x) == prio(x)
    ensures Sorted(row, after)
  {
    forall j, k | 0 <= j < k < |row| ensures InOrder(row, after, j, k) {
      assert row[j] in row && row[k] in row && InOrder(row, prio, j, k);
    }
  }

  lemma {:induction false} ClearedWithin(row: seq<Timer>, timeout: map<Timer, Word>, t: Timer, expiry: Word, base: Word)
    requires NoDup(row) && Within(row, timeout, base)
    ensures forall x :: x in Without(row, t) ==> x in row && x != t
    ensures Within(Without(row, t), timeout[t := expiry], base)
  {
    WithoutNoDup(row, t);
  }

  /** What starting leaves to insert into: the rows without the timer, sorted under the new expiries. */
  lemma {:induction false} Cleared(rows: seq<seq<Timer>>, timeout: map<Timer, Word>, t: Timer, expiry: Word, base: Word)
    requires Rows(rows, Remaining(timeout, base)) && Within(rows[|rows| - 1], timeout, base)
    ensures Rows(Remove(rows, t), Remaining(timeout[t := expiry], base))
    ensures Without(rows[|rows| - 1], t) == Remove(rows, t)[|rows| - 1] && t !in Remove(rows, t)[|rows| - 1]
    ensures Within(Remove(rows, t)[|rows| - 1], timeout[t := expiry], base)
  {
    RemoveRows(rows, t, Remaining(timeout, base));
    ClearedWithin(rows[|rows| - 1], timeout, t, expiry, base);
    RowsFrame(Remove(rows, t), Remaining(timeout, base), Remaining(timeout[t := expiry], base));
  }

  /** The cursors leave a skip list whose bottom row is the stable insertion. */
  lemma {:induction false} PlacedSorted(rows: seq<seq<Timer>>, timeout: map<Timer, Word>, t: Timer, base: Word, h: nat)
    requires Rows(rows, Remaining(timeout, base)) && 1 <= h <= |rows|
    requires Within(rows[|rows| - 1], timeout, base) && Within([t], timeout, base) && t !in rows[|rows| - 1]
    ensures |Placed(rows, timeout, t, h)| == |rows| && Rows(Placed(rows, timeout, t, h), Remaining(timeout, base))
    ensures Placed(rows, timeout, t, h)[|rows| - 1] == Enqueue(rows[|rows| - 1], t, Prio, Remaining(timeout, base))
  {
    PlacedIsInsert(rows, timeout, t, base, h);
    InsertRows(rows, t, h, Remaining(timeout, base));
  }

  /** Starting a timer inside the window: whatever the number of rows and the height counter, the rows stay a
      skip list and the bottom row is the old one without the timer, with the timer inserted behind every
      timer that expires no later. */
  lemma {:induction false} StartSorted(w: Wheel, t: Timer, base: Word)
    requires OnTime(w, base) && t in w.init && Minus(Plus(w.tick, w.init[t]), base) < HALF
    ensures Start(w, t).rows != [] && Rows(Start(w, t).rows, Remaining(Start(w, t).timeout, base))
    ensures Remaining(Start(w, t).timeout, base)(t) == Minus(Plus(w.tick, w.init[t]), base)
    ensures Bottom(Start(w, t)) == Enqueue(Without(Bottom(w), t), t, Prio, Remaining(Start(w, t).timeout, base))
  {
    hide Rows, Placed, Within, Enqueue, Without, Height, NoDup;
    BottomNoDup(w.rows, Remaining(w.timeout, base));
    var n := Start(w, t);
    Cleared(w.rows, w.timeout, t, Plus(w.tick, w.init[t]), base);
    PlacedSorted(Remove(w.rows, t), n.timeout, t, base, Height(|w.rows|, n.nr));
  }

  lemma {:induction false} BottomNoDup(rows: seq<seq<Timer>>, prio: Priorities)
    requires Rows(rows, prio)
    ensures rows != [] && NoDup(rows[|rows| - 1])
  {
  }

  /** Which rows a started timer enters: the bottom one always, and the row `k` above it on every 4^k-th start. */
  lemma {:induction false} StartEnters(w: Wheel, t: Timer, base: Word, k: nat)
    requires OnTime(w, base) && t in w.init && k < |w.rows|
    ensures |Start(w, t).rows| == |w.rows| && Start(w, t).nr == Plus(w.nr, 1)
    ensures t in Start(w, t).rows[|w.rows| - 1 - k] <==> Plus(w.nr, 1) % Pow4(k) == 0
  {
    hide Within, Remaining;
    var i, nr := |w.rows| - 1 - k, Plus(w.nr, 1);
    HeightAtLeast(|w.rows|, nr, k + 1);
    RemoveRows(w.rows, t, Remaining(w.timeout, base));
    RowBelow(Remove(w.rows, t), Remaining(w.timeout, base), i);
    assert t !in Remove(w.rows, t)[i];
    InsertElements(Remove(w.rows, t)[i], Cursor(Remove(w.rows, t), w.timeout[t := Plus(w.tick, w.init[t])], t, i), t);
  }

  /** The timer is added to the members; nothing else changes. */
  lemma {:induction false} StartKeeps(w: Wheel, t: Timer, base: Word)
    requires OnTime(w, base) && t in w.init && Minus(Plus(w.tick, w.init[t]), base) < HALF
    ensures OnTime(Start(w, t), base)
    ensures forall x :: x in Bottom(Start(w, t)) <==> x in Bottom(w) || x == t
  {
    hide Rows, Placed, Remove, Enqueue, Within, NoDup, Without, Height, Minus, Plus;
    BottomNoDup(w.rows, Remaining(w.timeout, base));
    var n, prio := Start(w, t), Remaining(Start(w, t).timeout, base);
    StartSorted(w, t, base);
    ClearedWithin(Bottom(w), w.timeout, t, Plus(w.tick, w.init[t]), base);
    EnqueueElements(Without(Bottom(w), t), t, Prio, prio);
    WithinAdded(Without(Bottom(w), t), Bottom(n), n.timeout, t, base);
  }

  lemma {:induction false} WithinAdded(list: seq<Timer>, longer: seq<Timer>, timeout: map<Timer, Word>, t: Timer,
      base: Word)
    requires Within(list, timeout, base) && t in timeout && Minus(timeout[t], base) < HALF
    requires forall x :: x in longer ==> x in list || x == t
    ensures Within(longer, timeout, base)
  {
  }

  lemma {:induction false} Removed(rows: seq<seq<Timer>>, timeout: map<Timer, Word>, t: Timer, base: Word)
    requires Rows(rows, Remaining(timeout, base)) && Within(rows[|rows| - 1], timeout, base)
    ensures Rows(Remove(rows, t), Remaining(timeout, base))
    ensures Without(rows[|rows| - 1], t) == Remove(rows, t)[|rows| - 1] && t !in Remove(rows, t)[|rows| - 1]
    ensures Within(Remove(rows, t)[|rows| - 1], timeout, base)
  {
    RemoveRows(rows, t, Remaining(timeout, base));
  }

  lemma {:induction false} UnlinkKeeps(w: Wheel, t: Timer, base: Word)
    requires OnTime(w, base)
    ensures OnTime(Unlink(w, t), base)
    ensures Bottom(Unlink(w, t)) == Without(Bottom(w), t) && t !in Bottom(Unlink(w, t))
  {
    Removed(w.rows, w.timeout, t, base);
  }

  /** Stopping removes exactly the timer. */
  lemma {:induction false} StopKeeps(w: Wheel, t: Timer, base: Word)
    requires OnTime(w, base)
    ensures OnTime(Stop(w, t), base)
    ensures t in w.active ==> t !in Bottom(Stop(w, t)) && Bottom(Stop(w, t)) == Without(Bottom(w), t)
  {
    hide OnTime;
    UnlinkKeeps(w, t, base);
    if t in w.active { OnTimeFrame(Unlink(w, t), Stop(w, t), base); }
  }

  /** Flags, counters and the tick play no part in the order of the rows. */
  lemma {:induction false} OnTimeFrame(w: Wheel, n: Wheel, base: Word)
    requires OnTime(w, base) && n.rows == w.rows && n.timeout == w.timeout && n.init.Keys == w.init.Keys
    ensures OnTime(n, base)
  {
  }
}
