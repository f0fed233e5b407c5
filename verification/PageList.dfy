/** The page allocator under the slab heap (`rt_slab_page_alloc` and `rt_slab_page_free` in
    `rt-thread/src/slab.c`): a list of runs of free pages, threaded through the pages themselves. */
module PageList {
  import opened KernelTypes

  /** Pages `start` up to but not including `start + len` are free. */
  datatype Run = Run(start: nat, len: nat) {
    function End(): nat {
      start + len
    }
  }

  /** Runs are non-empty, in address order, and a page that is not free lies between any two. */
  ghost predicate Canonical(runs: seq<Run>) {
    && (forall i :: 0 <= i < |runs| ==> runs[i].len > 0)
    && forall i, j :: 0 <= i < j < |runs| ==> Ordered(runs, i, j)
  }

  ghost predicate Ordered(runs: seq<Run>, i: nat, j: nat)
    requires i < |runs| && j < |runs|
  {
    runs[i].End() < runs[j].start
  }

  ghost predicate Free(runs: seq<Run>, p: nat) {
    exists i :: 0 <= i < |runs| && runs[i].start <= p < runs[i].End()
  }

  /** The first run of at least `n` pages. */
  function FitAt(runs: seq<Run>, n: nat, from: nat): (k: nat)
    requires from <= |runs|
    ensures from <= k <= |runs| && (k < |runs| ==> runs[k].len >= n)
    ensures forall i :: from <= i < k ==> runs[i].len < n
    decreases |runs| - from
  {
    if from == |runs| || runs[from].len >= n then from else FitAt(runs, n, from + 1)
  }

  /** `rt_slab_page_alloc`: the address, and the list left. */
  function Alloc(runs: seq<Run>, n: nat): (Option<nat>, seq<Run>) {
    var k := FitAt(runs, n, 0);
    if n == 0 || k == |runs| then (None, runs)
    else if runs[k].len > n then (Some(runs[k].start), runs[k := Run(runs[k].start + n, runs[k].len - n)])
    else (Some(runs[k].start), runs[..k] + runs[k + 1..])
  }

  /** Where the search of `rt_slab_page_free` stops: at a run that ends where the freed pages begin, or at the
      first run not before them. */
  function StopAt(runs: seq<Run>, a: nat, n: nat, from: nat): (k: nat)
    requires from <= |runs|
    ensures from <= k <= |runs| && (k < |runs| ==> runs[k].End() == a || runs[k].start >= a + n)
    ensures forall i :: from <= i < k ==> runs[i].End() != a && runs[i].start < a + n
    decreases |runs| - from
  {
    if from == |runs| || runs[from].End() == a || runs[from].start >= a + n then from
    else StopAt(runs, a, n, from + 1)
  }

  /** `rt_slab_page_free`. */
  function Give(runs: seq<Run>, a: nat, n: nat): seq<Run> {
    var k := StopAt(runs, a, n, 0);
    if k == |runs| then runs + [Run(a, n)]
    else if runs[k].End() == a then
      if k + 1 < |runs| && runs[k].End() + n == runs[k + 1].start
      then runs[..k] + [Run(runs[k].start, runs[k].len + n + runs[k + 1].len)] + runs[k + 2..]
      else runs[k := Run(runs[k].start, runs[k].len + n)]
    else if runs[k].start == a + n then runs[k := Run(a, n + runs[k].len)]
    else runs[..k] + [Run(a, n)] + runs[k..]
  }

  /** The pages of `[a, a + n)` are all free, and all taken. */
  ghost predicate AllFree(runs: seq<Run>, a: nat, n: nat) {
    forall p :: a <= p < a + n ==> Free(runs, p)
  }

  ghost predicate NoneFree(runs: seq<Run>, a: nat, n: nat) {
    forall p :: a <= p < a + n ==> !Free(runs, p)
  }

  lemma {:induction false} FreeIn(runs: seq<Run>, i: nat, p: nat)
    requires i < |runs| && runs[i].start <= p < runs[i].End()
    ensures Free(runs, p)
  {
  }

  /** Free pages in a row lie in one run. */
  lemma {:induction false} InOneRun(runs: seq<Run>, a: nat, n: nat) returns (i: nat)
    requires Canonical(runs) && n > 0 && AllFree(runs, a, n)
    ensures i < |runs| && runs[i].start <= a && a + n <= runs[i].End()
    decreases n
  {
    if n == 1 {
      assert Free(runs, a);
      i :| 0 <= i < |runs| && runs[i].start <= a < runs[i].End();
    } else {
      i := InOneRun(runs, a, n - 1);
      assert Free(runs, a + n - 1);
      var j :| 0 <= j < |runs| && runs[j].start <= a + n - 1 < runs[j].End();
      if i < j { RunsOrdered(runs, i, j); } else if j < i { RunsOrdered(runs, j, i); }
    }
  }

  lemma {:induction false} RunsOrdered(runs: seq<Run>, i: nat, j: nat)
    requires Canonical(runs) && i < j < |runs|
    ensures runs[i].End() < runs[j].start
  {
    assert Ordered(runs, i, j);
  }

  /** The page list is a function of the set of free pages: two canonical lists of the same pages are equal. */
  lemma {:induction false} CanonicalUnique(r: seq<Run>, s: seq<Run>)
    requires Canonical(r) && Canonical(s) && forall p: nat :: Free(r, p) <==> Free(s, p)
    ensures r == s
    decreases |r|
  {
    if r == [] {
      if s != [] { FreeIn(s, 0, s[0].start); }
    } else {
      FreeIn(r, 0, r[0].start);
      FirstRun(r, s);
      FirstRun(s, r);
      TailFree(r);
      TailFree(s);
      assert r[0] == s[0];
      CanonicalUnique(r[1..], s[1..]);
      assert r == [r[0]] + r[1..] && s == [s[0]] + s[1..];
    }
  }

  /** The first run of one list starts no earlier and, starting alike, ends no later than the other's. */
  lemma {:induction false} FirstRun(r: seq<Run>, s: seq<Run>)
    requires Canonical(r) && Canonical(s) && r != [] && forall p: nat :: Free(r, p) <==> Free(s, p)
    ensures s != [] && s[0].start <= r[0].start && (s[0].start == r[0].start ==> r[0].End() <= s[0].End())
  {
    FreeIn(r, 0, r[0].start);
    assert Free(s, r[0].start);
    forall p | r[0].start <= p < r[0].start + r[0].len ensures Free(s, p) { FreeIn(r, 0, p); }
    var i := InOneRun(s, r[0].start, r[0].len);
    if i > 0 { assert Ordered(s, 0, i); }
  }

  lemma {:induction false} TailFree(r: seq<Run>)
    requires Canonical(r) && r != []
    ensures Canonical(r[1..])
    ensures forall p: nat :: Free(r[1..], p) <==> Free(r, p) && p >= r[0].End()
  {
    forall i, j | 0 <= i < j < |r| - 1 ensures Ordered(r[1..], i, j) { assert Ordered(r, i + 1, j + 1); }
    forall p: nat ensures Free(r[1..], p) <==> Free(r, p) && p >= r[0].End() {
      if Free(r[1..], p) {
        var i :| 0 <= i < |r| - 1 && r[1..][i].start <= p < r[1..][i].End();
        assert r[i + 1] == r[1..][i] && Ordered(r, 0, i + 1);
      }
      if Free(r, p) && p >= r[0].End() {
        var i :| 0 <= i < |r| && r[i].start <= p < r[i].End();
        assert r[1..][i - 1] == r[i];
      }
    }
  }

  /** Allocation keeps the list canonical and takes exactly the pages it returns. */
  lemma {:induction false} AllocKeeps(runs: seq<Run>, n: nat)
    requires Canonical(runs) && Alloc(runs, n).0.Some?
    ensures Canonical(Alloc(runs, n).1) && AllFree(runs, Alloc(runs, n).0.value, n)
    ensures forall p: nat :: Free(Alloc(runs, n).1, p) <==>
      Free(runs, p) && !(Alloc(runs, n).0.value <= p < Alloc(runs, n).0.value + n)
  {
    var k, a, s := FitAt(runs, n, 0), Alloc(runs, n).0.value, Alloc(runs, n).1;
    forall p | a <= p < a + n ensures Free(runs, p) { FreeIn(runs, k, p); }
    CutCanonical(runs, k, n);
    if runs[k].len > n {
      forall p: nat ensures Free(s, p) <==> Free(runs, p) && !(a <= p < a + n) { SplitFree(runs, k, n, p); }
    } else {
      forall p: nat ensures Free(s, p) <==> Free(runs, p) && !(a <= p < a + n) { DropFree(runs, k, p); }
    }
  }

  /** Shortening a run from the front, or dropping it, keeps the order. */
  lemma {:induction false} CutCanonical(runs: seq<Run>, k: nat, n: nat)
    requires Canonical(runs) && k < |runs|
    ensures n < runs[k].len ==> Canonical(runs[k := Run(runs[k].start + n, runs[k].len - n)])
    ensures Canonical(runs[..k] + runs[k + 1..])
  {
    var d := runs[..k] + runs[k + 1..];
    forall i, j | 0 <= i < j < |d| ensures Ordered(d, i, j) {
      assert Ordered(runs, if i < k then i else i + 1, if j < k then j else j + 1);
    }
    if n < runs[k].len {
      var s := runs[k := Run(runs[k].start + n, runs[k].len - n)];
      forall i, j | 0 <= i < j < |s| ensures Ordered(s, i, j) { assert Ordered(runs, i, j); }
    }
  }

  lemma {:induction false} SplitFree(runs: seq<Run>, k: nat, n: nat, p: nat)
    requires Canonical(runs) && k < |runs| && 0 < n < runs[k].len
    ensures Free(runs[k := Run(runs[k].start + n, runs[k].len - n)], p) <==>
      Free(runs, p) && !(runs[k].start <= p < runs[k].start + n)
  {
    var s := runs[k := Run(runs[k].start + n, runs[k].len - n)];
    if Free(s, p) {
      var i :| 0 <= i < |s| && s[i].start <= p < s[i].End();
      FreeIn(runs, i, p);
      if i < k { assert Ordered(runs, i, k); } else if i > k { assert Ordered(runs, k, i); }
    }
    if Free(runs, p) && !(runs[k].start <= p < runs[k].start + n) {
      var i :| 0 <= i < |runs| && runs[i].start <= p < runs[i].End();
      FreeIn(s, i, p);
    }
  }

  lemma {:induction false} DropFree(runs: seq<Run>, k: nat, p: nat)
    requires Canonical(runs) && k < |runs|
    ensures Free(runs[..k] + runs[k + 1..], p) <==> Free(runs, p) && !(runs[k].start <= p < runs[k].End())
  {
    var s := runs[..k] + runs[k + 1..];
    if Free(s, p) { DropOnly(runs, k, p); }
    if Free(runs, p) && !(runs[k].start <= p < runs[k].End()) {
      var j :| 0 <= j < |runs| && runs[j].start <= p < runs[j].End();
      var i := if j < k then j else j - 1;
      assert s[i] == runs[j];
      FreeIn(s, i, p);
    }
  }

  lemma {:induction false} DropOnly(runs: seq<Run>, k: nat, p: nat)
    requires Canonical(runs) && k < |runs| && Free(runs[..k] + runs[k + 1..], p)
    ensures Free(runs, p) && !(runs[k].start <= p < runs[k].End())
  {
    var s := runs[..k] + runs[k + 1..];
    var i :| 0 <= i < |s| && s[i].start <= p < s[i].End();
    var j := if i < k then i else i + 1;
    assert s[i] == runs[j];
    FreeIn(runs, j, p);
    if j < k { assert Ordered(runs, j, k); } else { assert Ordered(runs, k, j); }
  }

  /** First fit by address: allocation succeeds exactly if enough free pages lie in a row, and then returns the
      lowest address at which they do. */
  lemma {:induction false} AllocLowest(runs: seq<Run>, n: nat)
    requires Canonical(runs) && n > 0
    ensures Alloc(runs, n).0.Some? <==> exists a: nat :: AllFree(runs, a, n)
    ensures Alloc(runs, n).0.Some? ==> forall a: nat :: AllFree(runs, a, n) ==> Alloc(runs, n).0.value <= a
  {
    var k := FitAt(runs, n, 0);
    if k < |runs| {
      forall p | runs[k].start <= p < runs[k].start + n ensures Free(runs, p) { FreeIn(runs, k, p); }
      assert AllFree(runs, runs[k].start, n);
    }
    forall a: nat | AllFree(runs, a, n) ensures k < |runs| && runs[k].start <= a {
      var i := InOneRun(runs, a, n);
      if k < i { assert Ordered(runs, k, i); }
    }
  }

  ghost predicate In(r: Run, p: nat) {
    r.start <= p < r.End()
  }

  /** `runs` with the stretch from `lo` to `hi` replaced by one run. */
  function Replaced(runs: seq<Run>, lo: nat, hi: nat, r: Run): seq<Run>
    requires lo <= hi <= |runs|
  {
    runs[..lo] + [r] + runs[hi..]
  }

  /** The runs on either side of `[a, a + n)`. */
  ghost predicate Apart(runs: seq<Run>, lo: nat, hi: nat, r: Run)
    requires lo <= hi <= |runs|
  {
    && r.len > 0
    && (forall i :: 0 <= i < lo ==> runs[i].End() < r.start)
    && (forall i :: hi <= i < |runs| ==> r.End() < runs[i].start)
  }

  lemma {:induction false} ReplacedCanonical(runs: seq<Run>, lo: nat, hi: nat, r: Run)
    requires Canonical(runs) && lo <= hi <= |runs| && Apart(runs, lo, hi, r)
    ensures Canonical(Replaced(runs, lo, hi, r))
  {
    var s := Replaced(runs, lo, hi, r);
    forall i, j | 0 <= i < j < |s| ensures Ordered(s, i, j) {
      if i != lo && j != lo {
        assert Ordered(runs, if i < lo then i else i - lo - 1 + hi, if j < lo then j else j - lo - 1 + hi);
      }
      assert s[i] == if i < lo then runs[i] else if i == lo then r else runs[i - lo - 1 + hi];
      assert s[j] == if j < lo then runs[j] else if j == lo then r else runs[j - lo - 1 + hi];
    }
  }

  lemma {:induction false} ReplacedFree(runs: seq<Run>, lo: nat, hi: nat, r: Run, p: nat)
    requires lo <= hi <= |runs|
    ensures Free(Replaced(runs, lo, hi, r), p) <==> In(r, p) || Free(runs[..lo], p) || Free(runs[hi..], p)
  {
    var s := Replaced(runs, lo, hi, r);
    if Free(s, p) {
      var i :| 0 <= i < |s| && s[i].start <= p < s[i].End();
      if i < lo { FreeIn(runs[..lo], i, p); }
      if i > lo { assert s[i] == runs[hi..][i - lo - 1]; FreeIn(runs[hi..], i - lo - 1, p); }
    }
    if In(r, p) { assert s[lo] == r; FreeIn(s, lo, p); }
    if Free(runs[..lo], p) {
      var i :| 0 <= i < lo && runs[..lo][i].start <= p < runs[..lo][i].End();
      assert s[i] == runs[i];
      FreeIn(s, i, p);
    }
    if Free(runs[hi..], p) {
      var i :| 0 <= i < |runs| - hi && runs[hi..][i].start <= p < runs[hi..][i].End();
      assert s[lo + 1 + i] == runs[hi..][i];
      FreeIn(s, lo + 1 + i, p);
    }
  }

  lemma {:induction false} SlicesFree(runs: seq<Run>, lo: nat, hi: nat, p: nat)
    requires lo <= hi <= |runs|
    ensures Free(runs, p) <==> Free(runs[..lo], p) || Free(runs[hi..], p) || exists i :: lo <= i < hi && In(runs[i], p)
  {
    if Free(runs, p) {
      var i :| 0 <= i < |runs| && runs[i].start <= p < runs[i].End();
      if i < lo { FreeIn(runs[..lo], i, p); }
      if i >= hi { FreeIn(runs[hi..], i - hi, p); } else if i >= lo { assert In(runs[i], p); }
    }
    if Free(runs[..lo], p) {
      var i :| 0 <= i < lo && runs[..lo][i].start <= p < runs[..lo][i].End();
      FreeIn(runs, i, p);
    }
    if Free(runs[hi..], p) {
      var i :| 0 <= i < |runs| - hi && runs[hi..][i].start <= p < runs[hi..][i].End();
      FreeIn(runs, hi + i, p);
    }
    if i :| lo <= i < hi && In(runs[i], p) { FreeIn(runs, i, p); }
  }

  /** The stretch `Give` replaces, and the run it puts there. */
  function Stretch(runs: seq<Run>, a: nat, n: nat): (r: (nat, nat, Run))
    ensures r.0 <= r.1 <= |runs|
  {
    var k := StopAt(runs, a, n, 0);
    if k == |runs| then (k, k, Run(a, n))
    else if runs[k].End() == a then
      if k + 1 < |runs| && runs[k].End() + n == runs[k + 1].start
      then (k, k + 2, Run(runs[k].start, runs[k].len + n + runs[k + 1].len))
      else (k, k + 1, Run(runs[k].start, runs[k].len + n))
    else if runs[k].start == a + n then (k, k + 1, Run(a, n + runs[k].len))
    else (k, k, Run(a, n))
  }

  lemma {:induction false} GiveReplaces(runs: seq<Run>, a: nat, n: nat)
    ensures var r := Stretch(runs, a, n); Give(runs, a, n) == Replaced(runs, r.0, r.1, r.2)
  {
  }

  /** Every run lies wholly before or wholly after pages that are not free. */
  lemma {:induction false} Beside(runs: seq<Run>, a: nat, n: nat, i: nat)
    requires Canonical(runs) && n > 0 && NoneFree(runs, a, n) && i < |runs|
    ensures runs[i].End() <= a || a + n <= runs[i].start
  {
    if runs[i].End() > a && a + n > runs[i].start {
      FreeIn(runs, i, Max(a, runs[i].start));
    }
  }

  lemma {:induction false} StretchApart(runs: seq<Run>, a: nat, n: nat)
    requires Canonical(runs) && n > 0 && NoneFree(runs, a, n)
    ensures var r := Stretch(runs, a, n); Apart(runs, r.0, r.1, r.2)
    ensures var r := Stretch(runs, a, n);
      forall p: nat :: In(r.2, p) <==> a <= p < a + n || exists i :: r.0 <= i < r.1 && In(runs[i], p)
  {
    var r, k := Stretch(runs, a, n), StopAt(runs, a, n, 0);
    forall i | 0 <= i < k ensures runs[i].End() < r.2.start {
      Beside(runs, a, n, i);
      if k < |runs| { assert Ordered(runs, i, k); }
    }
    if k < |runs| {
      forall i | r.1 <= i < |runs| ensures r.2.End() < runs[i].start {
        Beside(runs, a, n, i);
        assert runs[i].len > 0 && runs[k].len > 0;
        if i > k { assert Ordered(runs, k, i); }
        if i > k + 1 {
          Beside(runs, a, n, k + 1);
          assert Ordered(runs, k, k + 1) && runs[k + 1].len > 0 && Ordered(runs, k + 1, i);
        }
      }
    }
    forall p: nat ensures In(r.2, p) <==> a <= p < a + n || exists i :: r.0 <= i < r.1 && In(runs[i], p) {
      if r.1 > k && In(runs[k], p) { assert In(runs[k], p); }
      if r.1 > k + 1 && In(runs[k + 1], p) { assert In(runs[k + 1], p); }
    }
  }

  /** The new header lies in a page that was free or is being freed. */
  lemma {:induction false} StretchStart(runs: seq<Run>, a: nat, n: nat)
    requires Canonical(runs) && n > 0
    ensures var r := Stretch(runs, a, n); Free(runs, r.2.start) || r.2.start == a
  {
    var k := StopAt(runs, a, n, 0);
    if k < |runs| { FreeIn(runs, k, runs[k].start); }
  }

  /** Freeing pages that are not free keeps the list canonical and adds exactly those pages. */
  lemma {:induction false} GiveKeeps(runs: seq<Run>, a: nat, n: nat)
    requires Canonical(runs) && n > 0 && NoneFree(runs, a, n)
    ensures Canonical(Give(runs, a, n))
    ensures forall p: nat :: Free(Give(runs, a, n), p) <==> Free(runs, p) || a <= p < a + n
  {
    var r := Stretch(runs, a, n);
    GiveReplaces(runs, a, n);
    StretchApart(runs, a, n);
    ReplacedCanonical(runs, r.0, r.1, r.2);
    forall p: nat ensures Free(Give(runs, a, n), p) <==> Free(runs, p) || a <= p < a + n {
      ReplacedFree(runs, r.0, r.1, r.2, p);
      SlicesFree(runs, r.0, r.1, p);
    }
  }

  /** Freeing undoes allocating, whatever was allocated and freed in between: if `later` is any list reached
      since, whose free pages are those left by the allocation plus `more` minus `fewer`, then freeing the
      allocated pages gives the very list that the original pages plus `more` minus `fewer` form. */
  lemma {:induction false} GiveUndoesAlloc(runs: seq<Run>, n: nat, later: seq<Run>, more: set<nat>, fewer: set<nat>,
      s: seq<Run>)
    requires Canonical(runs) && Canonical(later) && Canonical(s) && Alloc(runs, n).0.Some?
    requires forall p: nat :: Free(later, p) <==> (Free(Alloc(runs, n).1, p) || p in more) && p !in fewer
    requires forall p: nat :: Free(s, p) <==> (Free(runs, p) || p in more) && p !in fewer
    requires var a := Alloc(runs, n).0.value; forall p :: a <= p < a + n ==> p !in more && p !in fewer
    ensures Give(later, Alloc(runs, n).0.value, n) == s
  {
    var a := Alloc(runs, n).0.value;
    AllocKeeps(runs, n);
    assert NoneFree(later, a, n);
    GiveKeeps(later, a, n);
    CanonicalUnique(Give(later, a, n), s);
  }

  /** In particular, freeing at once restores the list. */
  lemma {:induction false} GiveRestores(runs: seq<Run>, n: nat)
    requires Canonical(runs) && Alloc(runs, n).0.Some?
    ensures Give(Alloc(runs, n).1, Alloc(runs, n).0.value, n) == runs
  {
    AllocKeeps(runs, n);
    GiveUndoesAlloc(runs, n, Alloc(runs, n).1, {}, {}, runs);
  }

  const NULL := -1

  /** The page heading run `i`, as links name it. */
  function At(runs: seq<Run>, i: nat): int {
    if i < |runs| then runs[i].start else NULL
  }

  /** The page that links to run `i`; `NULL` stands for the list head. */
  function Before(runs: seq<Run>, i: nat): int
    requires i <= |runs|
  {
    if i == 0 then NULL else runs[i - 1].start
  }

  ghost predicate Header(next: seq<int>, page: seq<nat>, runs: seq<Run>, i: nat)
    requires |next| == |page| && i < |runs|
  {
    && 0 < runs[i].len && runs[i].End() <= |next|
    && next[runs[i].start] == At(runs, i + 1) && page[runs[i].start] == runs[i].len
  }

  /** The list in memory: every run's first page holds the next run's page and its own length. */
  ghost predicate InBand(head: int, next: seq<int>, page: seq<nat>, runs: seq<Run>) {
    && |next| == |page| && Canonical(runs) && head == At(runs, 0)
    && forall i :: 0 <= i < |runs| ==> Header(next, page, runs, i)
  }

  function Linked(next: seq<int>, prev: int, n: int): seq<int>
    requires prev < |next|
  {
    if prev < 0 then next else next[prev := n]
  }

  function Spliced(runs: seq<Run>, lo: nat, hi: nat, middle: Option<Run>): seq<Run>
    requires lo <= hi <= |runs|
  {
    runs[..lo] + (if middle.Some? then [middle.value] else []) + runs[hi..]
  }

  function First(runs: seq<Run>, hi: nat, middle: Option<Run>): int {
    if middle.Some? then middle.value.start else At(runs, hi)
  }

  /** Only the link before the stretch and the new header, if any, differ. */
  ghost predicate Rewritten(next: seq<int>, page: seq<nat>, next': seq<int>, page': seq<nat>,
                            runs: seq<Run>, lo: nat, hi: nat, middle: Option<Run>)
    requires |next'| == |page'| == |next| == |page| && lo <= hi <= |runs|
  {
    && (lo > 0 ==> runs[lo - 1].start < |next| && next'[runs[lo - 1].start] == First(runs, hi, middle))
    && (middle.Some? ==>
          (middle.value.start < |next|
           && next'[middle.value.start] == At(runs, hi) && page'[middle.value.start] == middle.value.len))
    && forall p :: 0 <= p < |next| && !(middle.Some? && p == middle.value.start) ==>
        (page'[p] == page[p] && (p != Before(runs, lo) ==> next'[p] == next[p]))
  }

  /** Relinking around one stretch of the list, with at most one new header written. */
  lemma {:induction false} SpliceInBand(head: int, next: seq<int>, page: seq<nat>, runs: seq<Run>, lo: nat, hi: nat,
      middle: Option<Run>, next': seq<int>, page': seq<nat>, head': int)
    requires InBand(head, next, page, runs) && lo <= hi <= |runs| && |next'| == |page'| == |next|
    requires Canonical(Spliced(runs, lo, hi, middle)) && (middle.Some? ==> middle.value.End() <= |next|)
    requires head' == (if lo == 0 then First(runs, hi, middle) else head)
    requires Rewritten(next, page, next', page', runs, lo, hi, middle)
    ensures InBand(head', next', page', Spliced(runs, lo, hi, middle))
  {
    var s := Spliced(runs, lo, hi, middle);
    var d := if middle.Some? then 1 else 0;
    forall i | 0 <= i < |s| ensures Header(next', page', s, i) {
      assert s[i].len > 0;
      if i < lo {
        SpliceBefore(next, page, runs, lo, hi, middle, i);
      } else if i >= lo + d {
        assert s[i] == runs[i - lo - d + hi] && Header(next, page, runs, i - lo - d + hi);
        if lo > 0 { assert Ordered(s, lo - 1, i); }
        if d == 1 { assert Ordered(s, lo, i); }
      }
    }
  }

  lemma {:induction false} SpliceBefore(next: seq<int>, page: seq<nat>, runs: seq<Run>, lo: nat, hi: nat,
      middle: Option<Run>, i: nat)
    requires |next| == |page| && lo <= hi <= |runs| && i < lo && Header(next, page, runs, i)
    requires Canonical(Spliced(runs, lo, hi, middle))
    ensures var s := Spliced(runs, lo, hi, middle);
      && s[i] == runs[i] && (i == lo - 1 ==> At(s, i + 1) == First(runs, hi, middle))
      && (i < lo - 1 ==> At(s, i + 1) == At(runs, i + 1) && s[i].start != runs[lo - 1].start)
      && (middle.Some? ==> s[i].start != middle.value.start)
  {
    var s := Spliced(runs, lo, hi, middle);
    if i < lo - 1 { assert Ordered(s, i, lo - 1); }
    if middle.Some? { assert Ordered(s, i, lo); }
  }

  lemma {:induction false} HeaderOf(head: int, next: seq<int>, page: seq<nat>, runs: seq<Run>, i: nat)
    requires InBand(head, next, page, runs) && i < |runs|
    ensures |next| == |page| && 0 < runs[i].len && runs[i].End() <= |next|
    ensures next[runs[i].start] == At(runs, i + 1) && page[runs[i].start] == runs[i].len
    ensures i > 0 ==> runs[i - 1].start < runs[i - 1].End() < runs[i].start
    ensures i + 1 < |runs| ==> runs[i].End() < runs[i + 1].start < runs[i + 1].End() <= |next|
  {
    assert Header(next, page, runs, i);
    if i > 0 { assert Header(next, page, runs, i - 1) && Ordered(runs, i - 1, i); }
    if i + 1 < |runs| { assert Header(next, page, runs, i + 1) && Ordered(runs, i, i + 1); }
  }

  /** No header is written in a page that was not free and is not among `[a, a + n)`. */
  ghost predicate Untouched(next: seq<int>, page: seq<nat>, next': seq<int>, page': seq<nat>, runs: seq<Run>, a: nat,
      n: nat)
    requires |next'| == |page'| == |next| == |page|
  {
    forall p :: 0 <= p < |next| && !Free(runs, p) && !(a <= p < a + n) ==> next'[p] == next[p] && page'[p] == page[p]
  }

  lemma {:induction false} RewrittenUntouched(next: seq<int>, page: seq<nat>, next': seq<int>, page': seq<nat>,
                           runs: seq<Run>, lo: nat, hi: nat, middle: Option<Run>, a: nat, n: nat)
    requires |next'| == |page'| == |next| == |page| && lo <= hi <= |runs| && Canonical(runs)
    requires Rewritten(next, page, next', page', runs, lo, hi, middle)
    requires middle.Some? ==> Free(runs, middle.value.start) || a <= middle.value.start < a + n
    ensures Untouched(next, page, next', page', runs, a, n)
  {
    if lo > 0 { FreeIn(runs, lo - 1, runs[lo - 1].start); }
  }

  /** The memory left holds the list `Alloc` leaves, and only headers of free pages were written. */
  ghost predicate Allocated(next: seq<int>, page: seq<nat>, runs: seq<Run>, n: nat, head': int, next': seq<int>,
      page': seq<nat>) {
    && |next'| == |page'| == |next| == |page|
    && InBand(head', next', page', Alloc(runs, n).1) && Untouched(next, page, next', page', runs, 0, 0)
  }

  lemma {:induction false} AllocatedMeans(next: seq<int>, page: seq<nat>, runs: seq<Run>, n: nat, head': int,
      next': seq<int>, page': seq<nat>)
    requires Allocated(next, page, runs, n, head', next', page')
    ensures |next'| == |page'| == |next| == |page|
    ensures InBand(head', next', page', Alloc(runs, n).1) && Untouched(next, page, next', page', runs, 0, 0)
  {
  }

  lemma {:induction false} BandCanonical(head: int, next: seq<int>, page: seq<nat>, runs: seq<Run>)
    requires InBand(head, next, page, runs)
    ensures Canonical(runs)
  {
  }

  /** A longer run keeps its tail: a header is written behind the allocated pages and linked in. */
  lemma {:induction false} SplitLinks(head: int, next: seq<int>, page: seq<nat>, runs: seq<Run>, n: nat, i: nat, b: nat)
    requires InBand(head, next, page, runs) && n > 0 && i == FitAt(runs, n, 0) && i < |runs| && b == runs[i].start
    requires runs[i].len > n
    ensures b + n < |next| == |page| && Before(runs, i) < |next|
    ensures Allocated(next, page, runs, n, if i == 0 then b + n else head,
                      Linked(next[b + n := next[b]], Before(runs, i), b + n), page[b + n := runs[i].len - n])
  {
    hide InBand, Canonical, Free, Untouched;
    var middle := Run(b + n, runs[i].len - n);
    BandCanonical(head, next, page, runs);
    HeaderOf(head, next, page, runs, i);
    if i > 0 { HeaderOf(head, next, page, runs, i - 1); }
    AllocKeeps(runs, n);
    FreeIn(runs, i, b + n);
    assert Alloc(runs, n).1 == Spliced(runs, i, i + 1, Some(middle));
    var next', page' := Linked(next[b + n := next[b]], Before(runs, i), b + n), page[b + n := runs[i].len - n];
    SpliceInBand(head, next, page, runs, i, i + 1, Some(middle), next', page', if i == 0 then b + n else head);
    RewrittenUntouched(next, page, next', page', runs, i, i + 1, Some(middle), 0, 0);
  }

  /** A run of exactly the right length is unlinked. */
  lemma {:induction false} DropLinks(head: int, next: seq<int>, page: seq<nat>, runs: seq<Run>, n: nat, i: nat, b: nat)
    requires InBand(head, next, page, runs) && n > 0 && i == FitAt(runs, n, 0) && i < |runs| && b == runs[i].start
    requires runs[i].len == n
    ensures b < |next| == |page| && Before(runs, i) < |next|
    ensures Allocated(next, page, runs, n, if i == 0 then next[b] else head,
      Linked(next, Before(runs, i), next[b]), page)
  {
    HeaderOf(head, next, page, runs, i);
    if i > 0 { HeaderOf(head, next, page, runs, i - 1); }
    AllocKeeps(runs, n);
    assert Alloc(runs, n).1 == Spliced(runs, i, i + 1, None);
    hide InBand, Canonical, Free, Untouched;
    var next' := Linked(next, Before(runs, i), next[b]);
    SpliceInBand(head, next, page, runs, i, i + 1, None, next', page, if i == 0 then next[b] else head);
    RewrittenUntouched(next, page, next', page, runs, i, i + 1, None, 0, 0);
  }

  lemma {:induction false} PlaceLinks(head: int, next: seq<int>, page: seq<nat>, runs: seq<Run>, lo: nat, hi: nat,
      r: Run, a: nat, n: nat)
    requires InBand(head, next, page, runs) && lo <= hi <= |runs| && r.End() <= |next|
    requires Canonical(Replaced(runs, lo, hi, r)) && (Free(runs, r.start) || r.start == a) && n > 0
    ensures var prev := Before(runs, lo);
      && |page| == |next| && prev < |next| && r.start < |next|
      && var next', page' := Linked(next[r.start := At(runs, hi)], prev, r.start), page[r.start := r.len];
      && InBand(if lo == 0 then r.start else head, next', page', Replaced(runs, lo, hi, r))
      && Untouched(next, page, next', page', runs, a, n)
  {
    assert Replaced(runs, lo, hi, r) == Spliced(runs, lo, hi, Some(r));
    assert Canonical(Replaced(runs, lo, hi, r)) && Replaced(runs, lo, hi, r)[lo] == r;
    if lo > 0 {
      HeaderOf(head, next, page, runs, lo - 1);
      assert Replaced(runs, lo, hi, r)[lo - 1] == runs[lo - 1] && Ordered(Replaced(runs, lo, hi, r), lo - 1, lo);
    }
    var prev := Before(runs, lo);
    assert prev != r.start;
    hide InBand, Canonical, Free, Untouched;
    var next', page' := Linked(next[r.start := At(runs, hi)], prev, r.start), page[r.start := r.len];
    SpliceInBand(head, next, page, runs, lo, hi, Some(r), next', page', if lo == 0 then r.start else head);
    RewrittenUntouched(next, page, next', page', runs, lo, hi, Some(r), a, n);
  }

  /** The memory left is a list of the pages with `[a, a + n)` freed, and no other page was written. */
  ghost predicate Freed(next: seq<int>, page: seq<nat>, runs: seq<Run>, a: nat, n: nat,
                        head': int, next': seq<int>, page': seq<nat>) {
    && |next'| == |page'| == |next| == |page|
    && InBand(head', next', page', Give(runs, a, n)) && Untouched(next, page, next', page', runs, a, n)
  }

  lemma {:induction false} FreedMeans(next: seq<int>, page: seq<nat>, runs: seq<Run>, a: nat, n: nat,
                   head': int, next': seq<int>, page': seq<nat>)
    requires Freed(next, page, runs, a, n, head', next', page')
    ensures |next'| == |page'| == |next| == |page|
    ensures InBand(head', next', page', Give(runs, a, n)) && Untouched(next, page, next', page', runs, a, n)
  {
  }

  ghost predicate MayFree(head: int, next: seq<int>, page: seq<nat>, runs: seq<Run>, a: nat, n: nat) {
    InBand(head, next, page, runs) && n > 0 && a + n <= |next| && NoneFree(runs, a, n)
  }

  lemma {:induction false} MayFreeBand(head: int, next: seq<int>, page: seq<nat>, runs: seq<Run>, a: nat, n: nat)
    requires MayFree(head, next, page, runs, a, n)
    ensures InBand(head, next, page, runs) && n > 0
  {
  }

  lemma {:induction false} FreeLinks(head: int, next: seq<int>, page: seq<nat>, runs: seq<Run>, a: nat, n: nat)
    requires MayFree(head, next, page, runs, a, n)
    ensures var st := Stretch(runs, a, n); var prev := Before(runs, st.0);
      && |page| == |next| && prev < |next| && st.2.start < |next|
      && Freed(next, page, runs, a, n, if st.0 == 0 then st.2.start else head,
               Linked(next[st.2.start := At(runs, st.1)], prev, st.2.start), page[st.2.start := st.2.len])
  {
    var st := Stretch(runs, a, n);
    GiveKeeps(runs, a, n);
    GiveReplaces(runs, a, n);
    StretchStart(runs, a, n);
    if st.0 < |runs| { HeaderOf(head, next, page, runs, st.0); }
    hide InBand, Canonical, Free, Untouched, NoneFree;
    PlaceLinks(head, next, page, runs, st.0, st.1, st.2, a, n);
  }

  /** The freed pages follow a run that they do not join to the next: its header grows. */
  lemma {:induction false} GrowLinks(head: int, next: seq<int>, page: seq<nat>, runs: seq<Run>, a: nat, n: nat, i: nat,
      b: nat)
    requires MayFree(head, next, page, runs, a, n) && i == StopAt(runs, a, n, 0) && i < |runs| && runs[i].End() == a
    requires b == runs[i].start && At(runs, i + 1) != a + n
    ensures b < |next| == |page|
    ensures Freed(next, page, runs, a, n, head, next, page[b := page[b] + n])
  {
    hide *;
    MayFreeBand(head, next, page, runs, a, n);
    var st, prev := Stretch(runs, a, n), Before(runs, i);
    GrowFacts(head, next, page, runs, a, n, i);
    FreeLinks(head, next, page, runs, a, n);
    HeaderOf(head, next, page, runs, i);
    SameLink(next, b, next[b], prev);
  }

  /** They join it to the next: the next run's length and link are taken over. */
  lemma {:induction false} JoinLinks(head: int, next: seq<int>, page: seq<nat>, runs: seq<Run>, a: nat, n: nat, i: nat,
      b: nat)
    requires MayFree(head, next, page, runs, a, n) && i == StopAt(runs, a, n, 0) && i < |runs| && runs[i].End() == a
    requires b == runs[i].start && At(runs, i + 1) == a + n
    ensures b < |next| == |page| && 0 <= next[b] < |next|
    ensures Freed(next, page, runs, a, n, head, next[b := next[next[b]]], page[b := page[b] + n + page[next[b]]])
  {
    hide *;
    MayFreeBand(head, next, page, runs, a, n);
    var st, prev := Stretch(runs, a, n), Before(runs, i);
    GrowFacts(head, next, page, runs, a, n, i);
    FreeLinks(head, next, page, runs, a, n);
    HeaderOf(head, next, page, runs, i);
    SameLink(next, b, next[next[b]], prev);
  }

  lemma {:induction false} GrowFacts(head: int, next: seq<int>, page: seq<nat>, runs: seq<Run>, a: nat, n: nat, i: nat)
    requires InBand(head, next, page, runs) && i == StopAt(runs, a, n, 0) && i < |runs| && runs[i].End() == a && n > 0
    ensures var b, st, prev := runs[i].start, Stretch(runs, a, n), Before(runs, i);
      && st.0 == i && st.2.start == b < |next| == |page| && next[b] < |next| && b + page[b] == a
      && prev < |next| && prev != b && (prev >= 0 ==> next[prev] == b) && (i == 0 ==> head == b)
      && if b + page[b] + n == next[b]
         then At(runs, st.1) == next[next[b]] && st.2.len == page[b] + n + page[next[b]]
         else At(runs, st.1) == next[b] && st.2.len == page[b] + n
  {
    HeaderOf(head, next, page, runs, i);
    if i > 0 { HeaderOf(head, next, page, runs, i - 1); }
    if i + 1 < |runs| { HeaderOf(head, next, page, runs, i + 1); }
  }

  /** Writing a link that already holds the value changes nothing. */
  lemma {:induction false} SameLink(next: seq<int>, b: int, link: int, prev: int)
    requires 0 <= b < |next| && prev < |next| && prev != b && (prev >= 0 ==> next[prev] == b)
    ensures Linked(next[b := link], prev, b) == next[b := link]
    ensures next[b] == link ==> next[b := link] == next
  {
  }

  /** Otherwise a header is written at the freed pages and linked in. */
  lemma {:induction false} FrontLinks(head: int, next: seq<int>, page: seq<nat>, runs: seq<Run>, a: nat, n: nat, i: nat)
    requires MayFree(head, next, page, runs, a, n) && i == StopAt(runs, a, n, 0) && (i < |runs| ==> runs[i].End() != a)
    ensures var b, prev := At(runs, i), Before(runs, i); var head' := if prev == NULL then a else head;
      && a < |next| == |page| && prev < |next| && (b != NULL ==> 0 <= b < |next| && b + page[b] != a)
      && if b == a + n
         then Freed(next, page, runs, a, n, head', Linked(next[a := next[b]], prev, a), page[a := page[b] + n])
         else Freed(next, page, runs, a, n, head', Linked(next[a := b], prev, a), page[a := n])
  {
    hide InBand, Freed, MayFree, Untouched, NoneFree;
    MayFreeBand(head, next, page, runs, a, n);
    if i < |runs| { HeaderOf(head, next, page, runs, i); }
    FreeLinks(head, next, page, runs, a, n);
  }

  /** The list head and all page headers, as values. */
  datatype Links = Links(head: int, next: seq<int>, page: seq<nat>)

  predicate InRange(m: Links, prev: int, b: int, n: nat) {
    && n < |m.next| == |m.page| && NULL <= prev < |m.next|
    && (b != NULL ==> 0 <= b < |m.next| && m.next[b] < |m.next|)
  }

  /** What freeing writes once the search has stopped at `b`: the run there grows, and joins the next run if it now
      touches it; or a header is written at the freed pages and linked in. */
  function Released(m: Links, prev: int, b: int, n: nat, npages: nat): Links
    requires InRange(m, prev, b, n)
  {
    if b != NULL && b + m.page[b] == n then
      if n + npages == m.next[b]
      then Links(m.head, m.next[b := m.next[m.next[b]]], m.page[b := m.page[b] + npages + m.page[m.next[b]]])
      else Links(m.head, m.next, m.page[b := m.page[b] + npages])
    else
      var head := if prev == NULL then n else m.head;
      if b != NULL && b == n + npages
      then Links(head, Linked(m.next[n := m.next[b]], prev, n), m.page[n := m.page[b] + npages])
      else Links(head, Linked(m.next[n := b], prev, n), m.page[n := npages])
  }

  lemma {:induction false} StopInRange(m: Links, runs: seq<Run>, a: nat, n: nat, i: nat)
    requires MayFree(m.head, m.next, m.page, runs, a, n) && i <= |runs|
    ensures InRange(m, Before(runs, i), At(runs, i), a)
    ensures i < |runs| ==>
      runs[i].start + m.page[runs[i].start] == runs[i].End() && m.next[runs[i].start] == At(runs, i + 1)
  {
    if i < |runs| { HeaderOf(m.head, m.next, m.page, runs, i); }
    if i > 0 { HeaderOf(m.head, m.next, m.page, runs, i - 1); }
  }

  lemma {:induction false} ReleasedGrow(m: Links, runs: seq<Run>, a: nat, n: nat, i: nat, prev: int)
    requires MayFree(m.head, m.next, m.page, runs, a, n) && i == StopAt(runs, a, n, 0) && i < |runs|
    requires runs[i].End() == a
    requires InRange(m, prev, runs[i].start, a) && runs[i].start + m.page[runs[i].start] == a
    requires m.next[runs[i].start] == At(runs, i + 1)
    ensures var r := Released(m, prev, runs[i].start, a, n); Freed(m.next, m.page, runs, a, n, r.head, r.next, r.page)
  {
    hide MayFree, StopAt, At, Freed;
    if At(runs, i + 1) == a + n {
      JoinLinks(m.head, m.next, m.page, runs, a, n, i, runs[i].start);
    } else {
      GrowLinks(m.head, m.next, m.page, runs, a, n, i, runs[i].start);
    }
  }

  lemma {:induction false} ReleasedFreed(m: Links, runs: seq<Run>, a: nat, n: nat, i: nat)
    requires MayFree(m.head, m.next, m.page, runs, a, n) && i == StopAt(runs, a, n, 0)
    ensures InRange(m, Before(runs, i), At(runs, i), a)
    ensures var r := Released(m, Before(runs, i), At(runs, i), a, n);
      Freed(m.next, m.page, runs, a, n, r.head, r.next, r.page)
  {
    StopInRange(m, runs, a, n, i);
    hide MayFree, StopAt, Freed;
    if i < |runs| && runs[i].End() == a {
      ReleasedGrow(m, runs, a, n, i, Before(runs, i));
    } else {
      FrontLinks(m.head, m.next, m.page, runs, a, n, i);
    }
  }

  /** `slab->page_list` and the page headers. */
  class PageAllocator {
    var head: int
    const next: array<int>
    const page: array<nat>
    ghost var runs: seq<Run>

    ghost predicate Valid()
      reads this, next, page
    {
      next as object != page as object && InBand(head, next[..], page[..], runs)
    }

    /** `rt_slab_page_init`: all pages in one run. */
    constructor (pages: nat)
      requires pages > 0
      ensures Valid() && fresh(next) && fresh(page) && next.Length == pages && runs == [Run(0, pages)]
    {
      var nx, pg := new int[pages], new nat[pages];
      nx[0], pg[0] := NULL, pages;
      next, page, head, runs := nx, pg, 0, [Run(0, pages)];
    }

    /** `*prev = n`, where `prev` points at the head or at the link in a page. */
    method SetLink(prev: int, n: int)
      requires prev < next.Length && prev >= NULL
      modifies this`head, next
      ensures head == (if prev == NULL then n else old(head))
      ensures next[..] == Linked(old(next[..]), prev, n)
    {
      if prev == NULL { head := n; } else { next[prev] := n; }
    }

    /** `n->next = link; n->page = count`. */
    method WriteHeader(n: int, link: int, count: nat)
      requires 0 <= n < next.Length == page.Length && next as object != page as object
      modifies next, page
      ensures next[..] == old(next[..])[n := link] && page[..] == old(page[..])[n := count]
    {
      next[n], page[n] := link, count;
    }

    /** The search of `rt_slab_page_alloc`. */
    method FindFit(npages: nat) returns (prev: int, b: int, ghost i: nat)
      requires Valid()
      ensures i == FitAt(runs, npages, 0) && b == At(runs, i) && prev == Before(runs, i)
      ensures b == NULL <==> i == |runs|
    {
      prev, b, i := NULL, head, 0;
      while b != NULL
        invariant i <= |runs| && b == At(runs, i) && prev == Before(runs, i)
        invariant FitAt(runs, npages, 0) == FitAt(runs, npages, i)
        decreases |runs| - i
      {
        assert Header(next[..], page[..], runs, i);
        if page[b] >= npages { return; }
        prev := b;
        b := next[b];
        i := i + 1;
      }
    }

    /** `rt_slab_page_alloc`. Only headers of free pages are written. */
    method PageAlloc(npages: nat) returns (b: int)
      requires Valid()
      modifies this, next, page
      ensures Valid()
      ensures runs == Alloc(old(runs), npages).1
      ensures b == (match Alloc(old(runs), npages).0 case Some(a) => a case None => NULL)
      ensures Untouched(old(next[..]), old(page[..]), next[..], page[..], old(runs), 0, 0)
    {
      if npages == 0 { return NULL; }
      var prev;
      ghost var i;
      prev, b, i := FindFit(npages);
      if b == NULL { return; }
      ghost var r, next0, page0, head0 := runs, next[..], page[..], head;
      HeaderOf(head0, next0, page0, r, i);
      if r[i].len > npages {
        SplitLinks(head0, next0, page0, r, npages, i, b);
      } else {
        DropLinks(head0, next0, page0, r, npages, i, b);
      }
      hide InBand, Canonical, Free, Untouched, Allocated, At, Before, Linked, Alloc, FitAt;
      if page[b] > npages {
        var n := b + npages;
        WriteHeader(n, next[b], page[b] - npages);
        SetLink(prev, n);
      } else {
        SetLink(prev, next[b]);
      }
      runs := Alloc(r, npages).1;
      AllocatedMeans(next0, page0, r, npages, head, next[..], page[..]);
    }

    /** The search of `rt_slab_page_free`. */
    method FindStop(n: nat, npages: nat) returns (prev: int, b: int, ghost i: nat)
      requires Valid()
      ensures i == StopAt(runs, n, npages, 0) && b == At(runs, i) && prev == Before(runs, i)
      ensures b == NULL <==> i == |runs|
    {
      prev, b, i := NULL, head, 0;
      while b != NULL
        invariant i <= |runs| && b == At(runs, i) && prev == Before(runs, i)
        invariant StopAt(runs, n, npages, 0) == StopAt(runs, n, npages, i)
        decreases |runs| - i
      {
        HeaderOf(head, next[..], page[..], runs, i);
        if b + page[b] == n || b >= n + npages { return; }
        prev := b;
        b := next[b];
        i := i + 1;
      }
    }

    /** What `rt_slab_page_free` writes once its search has stopped at `b`: the run there grows, and joins the next
        run if it now touches it; or a header is written at the freed pages and linked in. */
    method Release(prev: int, b: int, n: nat, npages: nat)
      requires next as object != page as object && InRange(Links(head, next[..], page[..]), prev, b, n)
      modifies this`head, next, page
      ensures Links(head, next[..], page[..]) ==
        Released(Links(old(head), old(next[..]), old(page[..])), prev, b, n, npages)
    {
      if b != NULL && b + page[b] == n {
        page[b] := page[b] + npages;
        if b + page[b] == next[b] {
          page[b] := page[b] + page[next[b]];
          next[b] := next[next[b]];
        }
        return;
      }
      if b != NULL && b == n + npages {
        WriteHeader(n, next[b], page[b] + npages);
        SetLink(prev, n);
        return;
      }
      WriteHeader(n, b, npages);
      SetLink(prev, n);
    }

    /** `rt_slab_page_free`, for pages that are not free already. Only headers of free pages and of the freed
        ones are written. */
    method PageFree(n: nat, npages: nat)
      requires Valid() && npages > 0 && n + npages <= next.Length && NoneFree(runs, n, npages)
      modifies this, next, page
      ensures Valid()
      ensures runs == Give(old(runs), n, npages)
      ensures Untouched(old(next[..]), old(page[..]), next[..], page[..], old(runs), n, npages)
    {
      var prev, b;
      ghost var i;
      prev, b, i := FindStop(n, npages);
      ghost var r, m := runs, Links(head, next[..], page[..]);
      ReleasedFreed(m, r, n, npages, i);
      Release(prev, b, n, npages);
      runs := Give(r, n, npages);
      hide InBand, Untouched, StopAt, NoneFree, Freed, At, Before, Released, Give, Canonical, Free, Header, InRange;
      FreedMeans(m.next, m.page, r, n, npages, head, next[..], page[..]);
    }
  }
}
