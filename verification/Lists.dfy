/** Lists of numbers without repetition: insertion at a position, removal of an element. */
module Lists {
  ghost predicate NoDup(s: seq<nat>) {
    forall i, j :: 0 <= i < j < |s| ==> Differ(s, i, j)
  }

  ghost predicate Differ(s: seq<nat>, i: nat, j: nat)
    requires i < |s| && j < |s|
  {
    s[i] != s[j]
  }

  function InsertAt(list: seq<nat>, k: nat, t: nat): seq<nat>
    requires k <= |list|
  {
    list[..k] + [t] + list[k..]
  }

  lemma {:induction false} InsertElements(list: seq<nat>, k: nat, t: nat)
    requires k <= |list|
    ensures |InsertAt(list, k, t)| == |list| + 1
    ensures multiset(InsertAt(list, k, t)) == multiset(list) + multiset{t}
    ensures forall x :: x in InsertAt(list, k, t) <==> x in list || x == t
  {
    assert list == list[..k] + list[k..];
    var r := InsertAt(list, k, t);
    assert multiset(r) == multiset(list[..k]) + multiset{t} + multiset(list[k..]);
    forall x ensures x in r <==> x in list || x == t {
      assert x in r <==> x in multiset(r);
      assert x in list <==> x in multiset(list);
    }
  }

  lemma {:induction false} NoDupTail(s: seq<nat>)
    requires NoDup(s) && s != []
    ensures NoDup(s[1..]) && s[0] !in s[1..] && forall x :: x in s <==> x == s[0] || x in s[1..]
  {
    var t := s[1..];
    forall i, j | 0 <= i < j < |t| ensures Differ(t, i, j) { assert Differ(s, i + 1, j + 1); }
    forall j | 0 <= j < |t| ensures t[j] != s[0] { assert Differ(s, 0, j + 1); }
  }

  lemma {:induction false} NoDupTake(s: seq<nat>, k: nat)
    requires NoDup(s) && k <= |s|
    ensures NoDup(s[..k])
  {
    forall i, j | 0 <= i < j < k ensures Differ(s[..k], i, j) { assert Differ(s, i, j); }
  }

  lemma {:induction false} NoDupAppend(s: seq<nat>, r: seq<nat>)
    requires NoDup(s) && NoDup(r) && forall x :: x in s ==> x !in r
    ensures NoDup(s + r)
  {
    forall i, j | 0 <= i < j < |s| + |r| ensures Differ(s + r, i, j) {
      if j < |s| { assert Differ(s, i, j); }
      else if i >= |s| { assert Differ(r, i - |s|, j - |s|); }
      else { assert s[i] in s && r[j - |s|] in r; }
    }
  }

  lemma {:induction false} InsertNoDup(list: seq<nat>, k: nat, t: nat)
    requires k <= |list| && NoDup(list) && t !in list
    ensures NoDup(InsertAt(list, k, t))
  {
    var r := InsertAt(list, k, t);
    forall i, j | 0 <= i < j < |r| ensures Differ(r, i, j) {
      var a, b := if i < k then i else i - 1, if j < k then j else j - 1;
      if i != k && j != k { assert Differ(list, a, b); }
      else if i == k { assert list[b] in list; }
      else { assert list[a] in list; }
    }
  }

  /** Remove the first occurrence of `t`: `rt_list_remove(&thread->tlist)`. */
  function Without(list: seq<nat>, t: nat): (r: seq<nat>)
    ensures t !in list ==> r == list
    ensures forall x :: x in r ==> x in list
    ensures forall x :: x in list && x != t ==> x in r
  {
    if list == [] then []
    else if list[0] == t then
      assert forall x :: x in list ==> x == t || x in list[1..];
      list[1..]
    else
      var r := Without(list[1..], t);
      assert forall x :: x in list <==> x == list[0] || x in list[1..];
      [list[0]] + r
  }

  lemma {:induction false} WithoutNoDup(list: seq<nat>, t: nat)
    requires NoDup(list)
    ensures NoDup(Without(list, t)) && t !in Without(list, t)
  {
    if list != [] {
      NoDupTail(list);
      if list[0] != t {
        WithoutNoDup(list[1..], t);
        NoDupAppend([list[0]], Without(list[1..], t));
      }
    }
  }

  lemma {:induction false} WithoutElements(list: seq<nat>, t: nat)
    requires t in list
    ensures multiset(Without(list, t)) == multiset(list) - multiset{t}
    ensures |Without(list, t)| == |list| - 1
  {
    assert list == [list[0]] + list[1..];
    if list[0] != t { WithoutElements(list[1..], t); }
  }

  /** Removing the first occurrence of `z`, found at position `k`. */
  lemma {:induction false} WithoutAt(list: seq<nat>, z: nat, k: nat)
    requires k < |list| && list[k] == z && forall i :: 0 <= i < k ==> list[i] != z
    ensures Without(list, z) == list[..k] + list[k + 1..]
    decreases k
  {
    if k > 0 {
      WithoutAt(list[1..], z, k - 1);
      assert list[1..][..k - 1] == list[1..k] && list[1..][k..] == list[k + 1..];
      assert [list[0]] + list[1..k] == list[..k];
    }
  }
}
