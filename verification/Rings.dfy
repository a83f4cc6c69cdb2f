/**
  Circular doubly linked lists threaded through the elements themselves, as the
  name cache keeps its hash chains and LRU lists.

  Elements are the numbers 0..n; header l of the h lists is the number n + l.
  A list is closed through its header, an element that is on no list has both
  links NIL, and an element is on at most one list at a time.
 */
module Rings {

  const NIL := -1

  ghost predicate NoDup(s: seq<nat>) {
    forall i, j :: 0 <= i < j < |s| ==> s[i] != s[j]
  }

  /** Member i of the ring of a list; the header stands before and after the elements. */
  ghost function At(head: nat, s: seq<nat>, i: int): nat {
    if 0 <= i < |s| then s[i] else head
  }

  ghost predicate Linked(next: seq<int>, prev: seq<int>, head: nat, s: seq<nat>)
    requires |next| == |prev|
  {
    head < |next| && (forall i :: 0 <= i < |s| ==> s[i] < |next|) &&
    (forall i :: -1 <= i < |s| ==> next[At(head, s, i)] == At(head, s, i + 1)) &&
    (forall i :: 0 <= i <= |s| ==> prev[At(head, s, i)] == At(head, s, i - 1))
  }

  ghost function Insert(s: seq<nat>, k: nat, d: nat): (r: seq<nat>)
    requires k <= |s|
    ensures |r| == |s| + 1
    ensures forall i :: 0 <= i < |r| ==> r[i] == if i < k then s[i] else if i == k then d else s[i - 1]
  {
    seq(|s| + 1, i requires 0 <= i <= |s| => if i < k then s[i] else if i == k then d else s[i - 1])
  }

  ghost function Delete(s: seq<nat>, k: nat): (r: seq<nat>)
    requires k < |s|
    ensures |r| == |s| - 1 && forall i :: 0 <= i < |r| ==> r[i] == if i < k then s[i] else s[i + 1]
  {
    seq(|s| - 1, i requires 0 <= i < |s| - 1 => if i < k then s[i] else s[i + 1])
  }

  /** Positions -1 .. |s| - 1 of a ring hold distinct members, and so do 0 .. |s|. */
  lemma AtDistinct(head: nat, s: seq<nat>, i: int, j: int)
    requires NoDup(s) && head !in s
    requires (-1 <= i < |s| && -1 <= j < |s|) || (0 <= i <= |s| && 0 <= j <= |s|)
    ensures At(head, s, i) == At(head, s, j) ==> i == j
  {
  }

  /** Writing d between ring members k - 1 and k makes it list element k. */
  lemma LinkedInsert(next: seq<int>, prev: seq<int>, head: nat, s: seq<nat>, k: nat, d: nat)
    requires |next| == |prev| && Linked(next, prev, head, s) && NoDup(s) && head !in s
    requires k <= |s| && d < |next| && d != head && d !in s
    ensures var (p, q) := (At(head, s, k - 1), At(head, s, k));
            Linked(next[d := q][p := d], prev[d := p][q := d], head, Insert(s, k, d))
  {
    forall i | -1 <= i <= |s|
      ensures next[d := At(head, s, k)][At(head, s, k - 1) := d][At(head, Insert(s, k, d), i)] ==
              At(head, Insert(s, k, d), i + 1)
    {
      InsertNext(next, head, s, k, d, i);
    }
    forall i | 0 <= i <= |s| + 1
      ensures prev[d := At(head, s, k - 1)][At(head, s, k) := d][At(head, Insert(s, k, d), i)] ==
              At(head, Insert(s, k, d), i - 1)
    {
      InsertPrev(prev, head, s, k, d, i);
    }
  }

  lemma InsertNext(next: seq<int>, head: nat, s: seq<nat>, k: nat, d: nat, i: int)
    requires NoDup(s) && head !in s && k <= |s| && d < |next| && d != head && d !in s && -1 <= i <= |s| && head < |next|
    requires forall j :: 0 <= j < |s| ==> s[j] < |next|
    requires forall j :: -1 <= j < |s| ==> next[At(head, s, j)] == At(head, s, j + 1)
    ensures next[d := At(head, s, k)][At(head, s, k - 1) := d][At(head, Insert(s, k, d), i)] ==
            At(head, Insert(s, k, d), i + 1)
  {
    InsertAt(head, s, k, d, i);
    InsertAt(head, s, k, d, i + 1);
    if i != k { AtDistinct(head, s, if i < k then i else i - 1, k - 1); }
  }

  lemma InsertPrev(prev: seq<int>, head: nat, s: seq<nat>, k: nat, d: nat, i: int)
    requires NoDup(s) && head !in s && k <= |s| && d < |prev| && d != head
    requires d !in s && 0 <= i <= |s| + 1 && head < |prev|
    requires forall j :: 0 <= j < |s| ==> s[j] < |prev|
    requires forall j :: 0 <= j <= |s| ==> prev[At(head, s, j)] == At(head, s, j - 1)
    ensures prev[d := At(head, s, k - 1)][At(head, s, k) := d][At(head, Insert(s, k, d), i)] ==
            At(head, Insert(s, k, d), i - 1)
  {
    InsertAt(head, s, k, d, i);
    InsertAt(head, s, k, d, i - 1);
    if i != k { AtDistinct(head, s, if i < k then i else i - 1, k); }
  }

  lemma InsertAt(head: nat, s: seq<nat>, k: nat, d: nat, i: int)
    requires k <= |s| && -1 <= i <= |s| + 1 && head !in s && d !in s && d != head
    ensures At(head, Insert(s, k, d), i) == if i < k then At(head, s, i) else if i == k then d else At(head, s, i - 1)
    ensures i != k ==> At(head, Insert(s, k, d), i) != d
  {
  }

  lemma DeleteAt(head: nat, s: seq<nat>, k: nat, i: int)
    requires k < |s| && -1 <= i < |s|
    ensures At(head, Delete(s, k), i) == if i < k then At(head, s, i) else At(head, s, i + 1)
  {
  }

  /** Bypassing list element k leaves the ring of the others. */
  lemma LinkedDelete(next: seq<int>, prev: seq<int>, head: nat, s: seq<nat>, k: nat)
    requires |next| == |prev| && Linked(next, prev, head, s) && NoDup(s) && head !in s
    requires k < |s|
    ensures var (p, q) := (At(head, s, k - 1), At(head, s, k + 1));
            Linked(next[p := q][s[k] := NIL], prev[q := p][s[k] := NIL], head, Delete(s, k))
  {
    forall i | -1 <= i < |s| - 1
      ensures next[At(head, s, k - 1) := At(head, s, k + 1)][s[k] := NIL][At(head, Delete(s, k), i)] ==
              At(head, Delete(s, k), i + 1)
    {
      DeleteNext(next, head, s, k, i);
    }
    forall i | 0 <= i <= |s| - 1
      ensures prev[At(head, s, k + 1) := At(head, s, k - 1)][s[k] := NIL][At(head, Delete(s, k), i)] ==
              At(head, Delete(s, k), i - 1)
    {
      DeletePrev(prev, head, s, k, i);
    }
  }

  lemma DeleteNext(next: seq<int>, head: nat, s: seq<nat>, k: nat, i: int)
    requires NoDup(s) && head !in s && k < |s| && -1 <= i < |s| - 1 && head < |next|
    requires forall j :: 0 <= j < |s| ==> s[j] < |next|
    requires forall j :: -1 <= j < |s| ==> next[At(head, s, j)] == At(head, s, j + 1)
    ensures next[At(head, s, k - 1) := At(head, s, k + 1)][s[k] := NIL][At(head, Delete(s, k), i)] ==
            At(head, Delete(s, k), i + 1)
  {
    DeleteAt(head, s, k, i);
    DeleteAt(head, s, k, i + 1);
    var j := if i < k then i else i + 1;
    AtDistinct(head, s, j, k - 1);
    AtDistinct(head, s, j, k);
  }

  lemma DeletePrev(prev: seq<int>, head: nat, s: seq<nat>, k: nat, i: int)
    requires NoDup(s) && head !in s && k < |s| && 0 <= i <= |s| - 1 && head < |prev|
    requires forall j :: 0 <= j < |s| ==> s[j] < |prev|
    requires forall j :: 0 <= j <= |s| ==> prev[At(head, s, j)] == At(head, s, j - 1)
    ensures prev[At(head, s, k + 1) := At(head, s, k - 1)][s[k] := NIL][At(head, Delete(s, k), i)] ==
            At(head, Delete(s, k), i - 1)
  {
    DeleteAt(head, s, k, i);
    DeleteAt(head, s, k, i - 1);
    var j := if i < k then i else i + 1;
    AtDistinct(head, s, j, k + 1);
    AtDistinct(head, s, j, k);
  }

  /** A list whose members none of the written cells belongs to is untouched. */
  lemma LinkedFrame(next: seq<int>, prev: seq<int>, next': seq<int>, prev': seq<int>, head: nat, s: seq<nat>)
    requires |next| == |prev| == |next'| == |prev'| && Linked(next, prev, head, s)
    requires forall x :: x == head || x in s ==> x < |next| && next'[x] == next[x] && prev'[x] == prev[x]
    ensures Linked(next', prev', head, s)
  {
    forall i | -1 <= i <= |s| ensures At(head, s, i) == head || At(head, s, i) in s {
    }
  }

  /** The elements of list l are distinct and all have l as their home. */
  ghost predicate ListAt(n: nat, home: seq<int>, l: nat, s: seq<nat>)
    requires |home| == n
  {
    NoDup(s) && forall x :: x in s ==> x < n && home[x] == l
  }

  /** Which list every element is on: home[d] is a list number, or NIL. */
  ghost predicate Placed(n: nat, home: seq<int>, lists: seq<seq<nat>>) {
    |home| == n &&
    (forall l :: 0 <= l < |lists| ==> ListAt(n, home, l, lists[l])) &&
    (forall d :: 0 <= d < n ==> home[d] == NIL || (0 <= home[d] < |lists| && d in lists[home[d]]))
  }

  ghost predicate AllLinked(next: seq<int>, prev: seq<int>, n: nat, lists: seq<seq<nat>>)
    requires |next| == |prev|
  {
    forall l :: 0 <= l < |lists| ==> Linked(next, prev, n + l, lists[l])
  }

  ghost predicate Detached(next: seq<int>, prev: seq<int>, home: seq<int>)
    requires |home| <= |next| == |prev|
  {
    forall d :: 0 <= d < |home| && home[d] == NIL ==> next[d] == NIL && prev[d] == NIL
  }

  lemma InsertListAt(n: nat, home: seq<int>, l: nat, s: seq<nat>, k: nat, d: nat)
    requires |home| == n && ListAt(n, home, l, s) && k <= |s| && d < n && d !in s
    ensures ListAt(n, home[d := l], l, Insert(s, k, d))
    ensures forall x :: x in Insert(s, k, d) <==> x == d || x in s
  {
    var s' := Insert(s, k, d);
    assert s'[k] == d;
    forall x | x in s ensures x in s' {
      var i :| 0 <= i < |s| && s[i] == x;
      assert s'[if i < k then i else i + 1] == x;
    }
    forall i, j | 0 <= i < j < |s'| ensures s'[i] != s'[j] {
      assert forall x :: 0 <= x < |s| ==> s[x] in s;
    }
    forall x | x in s' ensures x == d || x in s {
      var i :| 0 <= i < |s'| && s'[i] == x;
      assert i != k ==> s[if i < k then i else i - 1] == x;
    }
  }

  lemma InsertPlaced(n: nat, home: seq<int>, lists: seq<seq<nat>>, l: nat, k: nat, d: nat)
    requires Placed(n, home, lists) && l < |lists| && k <= |lists[l]| && d < n && home[d] == NIL
    ensures Placed(n, home[d := l], lists[l := Insert(lists[l], k, d)])
  {
    var home', lists' := home[d := l], lists[l := Insert(lists[l], k, d)];
    InsertListAt(n, home, l, lists[l], k, d);
    forall m | 0 <= m < |lists| && m != l ensures ListAt(n, home', m, lists'[m]) {
      assert ListAt(n, home, m, lists[m]);
    }
    forall x | 0 <= x < n && home'[x] != NIL ensures 0 <= home'[x] < |lists'| && x in lists'[home'[x]] {
    }
  }

  lemma DeleteListAt(n: nat, home: seq<int>, l: nat, s: seq<nat>, k: nat)
    requires |home| == n && ListAt(n, home, l, s) && k < |s|
    ensures s[k] < n && ListAt(n, home[s[k] := NIL], l, Delete(s, k))
    ensures forall x :: x in Delete(s, k) <==> x in s && x != s[k]
  {
    var s' := Delete(s, k);
    assert s[k] in s;
    forall x | x in s && x != s[k] ensures x in s' {
      var i :| 0 <= i < |s| && s[i] == x;
      assert s'[if i < k then i else i - 1] == x;
    }
    assert NoDup(s');
    forall x | x in s' ensures x in s && x != s[k] {
      var i :| 0 <= i < |s'| && s'[i] == x;
      assert s[if i < k then i else i + 1] == x;
    }
  }

  lemma DeletePlaced(n: nat, home: seq<int>, lists: seq<seq<nat>>, l: nat, k: nat)
    requires Placed(n, home, lists) && l < |lists| && k < |lists[l]|
    ensures lists[l][k] < n && Placed(n, home[lists[l][k] := NIL], lists[l := Delete(lists[l], k)])
  {
    DeleteListAt(n, home, l, lists[l], k);
    var d := lists[l][k];
    var home', lists' := home[d := NIL], lists[l := Delete(lists[l], k)];
    assert d in lists[l];
    forall m | 0 <= m < |lists| && m != l ensures ListAt(n, home', m, lists'[m]) {
      assert ListAt(n, home, m, lists[m]);
    }
    forall x | 0 <= x < n && home'[x] != NIL ensures 0 <= home'[x] < |lists'| && x in lists'[home'[x]] {
    }
  }

  /** No list shares a cell with the ring of another list, nor with an element that is on no list. */
  lemma OthersApart(n: nat, home: seq<int>, lists: seq<seq<nat>>, l: nat, i: int, m: nat)
    requires Placed(n, home, lists) && l < |lists| && m < |lists| && m != l
    ensures At(n + l, lists[l], i) != n + m && At(n + l, lists[l], i) !in lists[m]
  {
    assert ListAt(n, home, l, lists[l]) && ListAt(n, home, m, lists[m]);
    if 0 <= i < |lists[l]| { assert lists[l][i] in lists[l]; }
  }

  lemma LinkedOther(next: seq<int>, prev: seq<int>, n: nat, home: seq<int>, lists: seq<seq<nat>>, l: nat, k: int,
                    d: nat, m: nat, next': seq<int>, prev': seq<int>)
    requires |next| == |prev| == |next'| == |prev'| && AllLinked(next, prev, n, lists) && Placed(n, home, lists)
    requires l < |lists| && m < |lists| && m != l
    requires (d < n && home[d] == NIL) || d == At(n + l, lists[l], k)
    requires forall x ::
               0 <= x < |next| &&
               x !in {At(n + l, lists[l], k - 1), d, At(n + l, lists[l], k), At(n + l, lists[l], k + 1)} ==>
                 next'[x] == next[x] && prev'[x] == prev[x]
    ensures Linked(next', prev', n + m, lists[m])
  {
    OthersApart(n, home, lists, l, k - 1, m);
    OthersApart(n, home, lists, l, k, m);
    OthersApart(n, home, lists, l, k + 1, m);
    assert ListAt(n, home, m, lists[m]) && Linked(next, prev, n + m, lists[m]);
    LinkedFrame(next, prev, next', prev', n + m, lists[m]);
  }

  /** One list replaced by another that is linked. */
  lemma AllBut(next: seq<int>, prev: seq<int>, n: nat, lists: seq<seq<nat>>, l: nat, s: seq<nat>)
    requires |next| == |prev| && l < |lists| && Linked(next, prev, n + l, s)
    requires forall m :: 0 <= m < |lists| && m != l ==> Linked(next, prev, n + m, lists[m])
    ensures AllLinked(next, prev, n, lists[l := s])
  {
  }

  lemma InsertAllLinked(next: seq<int>, prev: seq<int>, n: nat, home: seq<int>, lists: seq<seq<nat>>, l: nat, k: nat,
                        d: nat)
    requires |next| == |prev| && AllLinked(next, prev, n, lists) && Placed(n, home, lists)
    requires l < |lists| && k <= |lists[l]| && d < n <= |next| && home[d] == NIL
    ensures var (p, q) := (At(n + l, lists[l], k - 1), At(n + l, lists[l], k));
            p < |next| && q < |next| &&
            AllLinked(next[d := q][p := d], prev[d := p][q := d], n, lists[l := Insert(lists[l], k, d)])
  {
    var (p, q) := (At(n + l, lists[l], k - 1), At(n + l, lists[l], k));
    assert ListAt(n, home, l, lists[l]) && Linked(next, prev, n + l, lists[l]);
    var next', prev' := next[d := q][p := d], prev[d := p][q := d];
    assert Linked(next', prev', n + l, Insert(lists[l], k, d)) by { LinkedInsert(next, prev, n + l, lists[l], k, d); }
    forall m | 0 <= m < |lists| && m != l ensures Linked(next', prev', n + m, lists[m]) {
      LinkedOther(next, prev, n, home, lists, l, k, d, m, next', prev');
    }
    AllBut(next', prev', n, lists, l, Insert(lists[l], k, d));
  }

  lemma DeleteAllLinked(next: seq<int>, prev: seq<int>, n: nat, home: seq<int>, lists: seq<seq<nat>>, l: nat, k: nat)
    requires |next| == |prev| && AllLinked(next, prev, n, lists) && Placed(n, home, lists)
    requires l < |lists| && k < |lists[l]|
    ensures var (p, q, d) := (At(n + l, lists[l], k - 1), At(n + l, lists[l], k + 1), lists[l][k]);
            p < |next| && q < |next| && d < |next| &&
            AllLinked(next[p := q][d := NIL], prev[q := p][d := NIL], n, lists[l := Delete(lists[l], k)])
  {
    var (p, q, d) := (At(n + l, lists[l], k - 1), At(n + l, lists[l], k + 1), lists[l][k]);
    assert ListAt(n, home, l, lists[l]) && Linked(next, prev, n + l, lists[l]);
    var next', prev' := next[p := q][d := NIL], prev[q := p][d := NIL];
    assert Linked(next', prev', n + l, Delete(lists[l], k)) by { LinkedDelete(next, prev, n + l, lists[l], k); }
    forall m | 0 <= m < |lists| && m != l ensures Linked(next', prev', n + m, lists[m]) {
      LinkedOther(next, prev, n, home, lists, l, k, d, m, next', prev');
    }
    AllBut(next', prev', n, lists, l, Delete(lists[l], k));
  }

  lemma DeleteDetached(next: seq<int>, prev: seq<int>, n: nat, home: seq<int>, lists: seq<seq<nat>>, l: nat, k: nat)
    requires |next| == |prev| >= n && Placed(n, home, lists) && Detached(next, prev, home)
    requires AllLinked(next, prev, n, lists) && l < |lists| && k < |lists[l]|
    ensures var (p, q, d) := (At(n + l, lists[l], k - 1), At(n + l, lists[l], k + 1), lists[l][k]);
            p < |next| && q < |next| && d < n && prev[d] == p && next[d] == q &&
            Detached(next[p := q][d := NIL], prev[q := p][d := NIL], home[d := NIL])
  {
    assert ListAt(n, home, l, lists[l]) && Linked(next, prev, n + l, lists[l]);
    assert At(n + l, lists[l], k) == lists[l][k];
    assert forall i :: 0 <= i < |lists[l]| ==> lists[l][i] in lists[l];
  }

  lemma RemovedOk(next: seq<int>, prev: seq<int>, n: nat, home: seq<int>, lists: seq<seq<nat>>, l: nat, k: nat)
    requires |next| == |prev| >= n && Placed(n, home, lists) && Detached(next, prev, home)
    requires AllLinked(next, prev, n, lists) && l < |lists| && k < |lists[l]|
    ensures var d := lists[l][k];
            d < n && 0 <= prev[d] < |next| && 0 <= next[d] < |next| &&
            Placed(n, home[d := NIL], lists[l := Delete(lists[l], k)]) &&
            AllLinked(next[prev[d] := next[d]][d := NIL], prev[next[d] := prev[d]][d := NIL], n,
                lists[l := Delete(lists[l], k)]) &&
            Detached(next[prev[d] := next[d]][d := NIL], prev[next[d] := prev[d]][d := NIL], home[d := NIL])
  {
    DeletePlaced(n, home, lists, l, k);
    DeleteAllLinked(next, prev, n, home, lists, l, k);
    DeleteDetached(next, prev, n, home, lists, l, k);
  }

  class Lists {
    const n: nat
    const h: nat
    const next: array<int>
    const prev: array<int>
    ghost var lists: seq<seq<nat>>
    ghost var home: seq<int>

    ghost predicate Valid()
      reads this, next, prev
    {
      next != prev && next.Length == n + h && prev.Length == n + h &&
      |lists| == h && Placed(n, home, lists) &&
      AllLinked(next[..], prev[..], n, lists) && Detached(next[..], prev[..], home)
    }

    constructor (n: nat, h: nat)
      ensures Valid() && fresh(next) && fresh(prev)
      ensures this.n == n && this.h == h
      ensures lists == seq(h, _ => []) && home == seq(n, _ => NIL)
    {
      this.n := n;
      this.h := h;
      next := new int[n + h](i => if i < n then NIL else i);
      prev := new int[n + h](i => if i < n then NIL else i);
      lists := seq(h, _ => []);
      home := seq(n, _ => NIL);
    }

    /** NC_INSLRU_LOCKED and NC_INSHASH_LOCKED: link d just after ring member p. */
    method InsertAfter(p: nat, d: nat, ghost l: nat, ghost k: nat)
      requires Valid() && l < h && d < n && home[d] == NIL
      requires k <= |lists[l]| && p == At(n + l, lists[l], k - 1)
      modifies this, next, prev
      ensures Valid()
      ensures lists == old(lists)[l := Insert(old(lists)[l], k, d)] && home == old(home)[d := l]
    {
      InsertPlaced(n, home, lists, l, k, d);
      InsertAllLinked(next[..], prev[..], n, home, lists, l, k, d);
      assert Linked(next[..], prev[..], n + l, lists[l]);
      ghost var q0 := At(n + l, lists[l], k);
      var q := next[p];
      assert q == q0;
      next[d] := q;
      prev[d] := p;
      prev[q] := d;
      next[p] := d;
      assert next[..] == old(next[..])[d := q][p := d];
      assert prev[..] == old(prev[..])[d := p][q := d];
      lists := lists[l := Insert(lists[l], k, d)];
      home := home[d := l];
    }

    /** NC_RMLRU_LOCKED and NC_RMHASH_LOCKED: unlink d and clear its links. */
    method Remove(d: nat, ghost l: nat, ghost k: nat)
      requires Valid() && l < h && k < |lists[l]| && lists[l][k] == d
      modifies this, next, prev
      ensures Valid()
      ensures d < n && lists == old(lists)[l := Delete(old(lists)[l], k)] && home == old(home)[d := NIL]
    {
      RemovedOk(next[..], prev[..], n, home, lists, l, k);
      var p, q := prev[d], next[d];
      prev[q] := p;
      next[p] := q;
      next[d] := NIL;
      prev[d] := NIL;
      assert next[..] == old(next[..])[p := q][d := NIL];
      assert prev[..] == old(prev[..])[q := p][d := NIL];
      lists := lists[l := Delete(lists[l], k)];
      home := home[d := NIL];
    }

    /** Link d at the front of list l: insertion after the header. */
    method InsertFirst(l: nat, d: nat)
      requires Valid() && l < h && d < n && home[d] == NIL
      modifies this, next, prev
      ensures Valid()
      ensures lists == old(lists)[l := [d] + old(lists)[l]] && home == old(home)[d := l]
    {
      InsertAfter(n + l, d, l, 0);
      assert [d] + old(lists)[l] == Insert(old(lists)[l], 0, d);
    }

    /** Link d at the back of list l: insertion after the header's predecessor. */
    method InsertLast(l: nat, d: nat)
      requires Valid() && l < h && d < n && home[d] == NIL
      modifies this, next, prev
      ensures Valid()
      ensures lists == old(lists)[l := old(lists)[l] + [d]] && home == old(home)[d := l]
    {
      assert Linked(next[..], prev[..], n + l, lists[l]);
      assert At(n + l, lists[l], |lists[l]|) == n + l;
      var p := prev[n + l];
      assert p == At(n + l, lists[l], |lists[l]| - 1);
      InsertAfter(p, d, l, |lists[l]|);
      assert old(lists)[l] + [d] == Insert(old(lists)[l], |old(lists)[l]|, d);
    }

    /** Unlink d and link it again at the back of its list. */
    method MoveLast(d: nat, l: nat, ghost k: nat)
      requires Valid() && l < h && k < |lists[l]| && lists[l][k] == d
      modifies this, next, prev
      ensures Valid()
      ensures lists == old(lists)[l := Delete(old(lists)[l], k) + [d]] && home == old(home)
    {
      assert ListAt(n, home, l, lists[l]) && d in lists[l];
      Remove(d, l, k);
      InsertLast(l, d);
      assert home == old(home);
    }

    /** The first element of list l, or NIL when the header points at itself. */
    method First(l: nat) returns (d: int)
      requires Valid() && l < h
      ensures d == if lists[l] == [] then NIL else lists[l][0]
    {
      assert Linked(next[..], prev[..], n + l, lists[l]);
      assert next[At(n + l, lists[l], -1)] == At(n + l, lists[l], 0);
      assert ListAt(n, home, l, lists[l]) && (lists[l] != [] ==> lists[l][0] in lists[l]);
      d := next[n + l];
      if d == n + l { d := NIL; }
    }
  }
}
