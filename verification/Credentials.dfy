/**
  The credentials kept for cleartext lookups: one list per mnode, and a system-wide
  hash table through which equal credentials are shared.

  Each method is one stretch under a lock, or a loop of them.  `transit` counts the
  list nodes that a thread has in hand: not yet on a list, or taken off one and not yet
  freed.
 */
module Credentials {
  import opened Cleartext

  const HASHSZ: nat := 61

  /** mvfs_hash_cred depends on the identity alone. */
  function Bucket(hash: nat -> nat, c: Cred): nat { hash(c.who) % HASHSZ }

  // ---- Counting ----

  ghost function Times(s: seq<Cred>, c: Cred): nat {
    if s == [] then 0 else (if s[0] == c then 1 else 0) + Times(s[1..], c)
  }

  ghost function Total(ss: seq<seq<Cred>>, c: Cred): nat {
    if ss == [] then 0 else Times(ss[0], c) + Total(ss[1..], c)
  }

  /** Replacing one list changes the total by the difference. */
  lemma {:induction false} TotalUpdate(ss: seq<seq<Cred>>, i: nat, s: seq<Cred>, c: Cred)
    requires i < |ss|
    ensures Total(ss[i := s], c) == Total(ss, c) - Times(ss[i], c) + Times(s, c)
  {
    if i == 0 {
      assert ss[0 := s][1..] == ss[1..];
    } else {
      TotalUpdate(ss[1..], i - 1, s, c);
      assert ss[i := s][1..] == ss[1..][i - 1 := s];
    }
  }

  lemma {:induction false} TotalNone(ss: seq<seq<Cred>>, c: Cred)
    requires forall i :: 0 <= i < |ss| ==> ss[i] == []
    ensures Total(ss, c) == 0
  {
    if ss != [] { TotalNone(ss[1..], c); }
  }

  ghost function More(h: Cred -> int, c: Cred, n: int): Cred -> int { x => if x == c then h(x) + n else h(x) }

  /** Every hold on a credential is that of a list node carrying it. */
  ghost predicate Accounted(holds: Cred -> int, lists: seq<seq<Cred>>, sys: seq<seq<Cred>>, transit: Cred -> int) {
    forall c :: holds(c) == Total(lists, c) + Total(sys, c) + transit(c)
  }

  ghost predicate Distinct(s: seq<Cred>) { forall i, j :: 0 <= i < j < |s| ==> s[i].who != s[j].who }

  /** A bucket holds credentials of its own hash, no two of them equal. */
  ghost predicate BucketOk(hash: nat -> nat, s: seq<Cred>, b: nat) {
    Distinct(s) && forall i :: 0 <= i < |s| ==> Bucket(hash, s[i]) == b
  }

  ghost predicate BucketsOk(hash: nat -> nat, sys: seq<seq<Cred>>) {
    |sys| == HASHSZ && forall b :: 0 <= b < HASHSZ ==> BucketOk(hash, sys[b], b)
  }

  /** Equal credentials are in the table once. */
  lemma SharedOnce(hash: nat -> nat, sys: seq<seq<Cred>>, a: nat, i: nat, b: nat, j: nat)
    requires BucketsOk(hash, sys) && a < HASHSZ && b < HASHSZ && i < |sys[a]|
    requires j < |sys[b]| && sys[a][i].who == sys[b][j].who
    ensures a == b && i == j
  {
    assert BucketOk(hash, sys[a], a) && BucketOk(hash, sys[b], b);
  }

  class System {
    const hash: nat -> nat
    var lists: seq<seq<Cred>>   // by mnode
    var sys: seq<seq<Cred>>     // by bucket
    var spare: nat              // nodes on the free list
    ghost var holds: Cred -> int
    ghost var transit: Cred -> int

    ghost predicate Valid()
      reads this
    {
      Accounted(holds, lists, sys, transit) && BucketsOk(hash, sys)
    }

    constructor (mnodes: nat, hash: nat -> nat)
      ensures Valid() && this.hash == hash && |lists| == mnodes && (forall c :: holds(c) == 0 && transit(c) == 0)
    {
      this.hash := hash;
      lists, sys, spare := seq(mnodes, _ => []), seq(HASHSZ, _ => []), 0;
      holds, transit := _ => 0, _ => 0;
      new;
      forall c ensures Total(lists, c) + Total(sys, c) == 0 {
        TotalNone(lists, c);
        TotalNone(sys, c);
      }
    }

    /** mvfs_find_cred. */
    method Find(s: seq<Cred>, cred: Cred) returns (r: Option<Cred>)
      ensures r.Some? ==> r.value in s && r.value.who == cred.who
      ensures r.None? ==> forall i :: 0 <= i < |s| ==> s[i].who != cred.who
    {
      var i := 0;
      while i < |s|
        invariant 0 <= i <= |s| && forall j :: 0 <= j < i ==> s[j].who != cred.who
      {
        if s[i].who == cred.who { return Some(s[i]); }
        i := i + 1;
      }
      r := None;
    }

    /** Make sure there is a spare node; the lock is dropped for the allocation. */
    method Reserve(storage: bool) returns (ok: bool)
      modifies this`spare
      ensures ok <==> old(spare) > 0 || storage
      ensures spare == if old(spare) == 0 && storage then 1 else old(spare)
    {
      ok := true;
      if spare == 0 {
        if !storage { return false; }
        spare := spare + 1;
      }
    }

    /** Put a credential into the system table, or share the equal one there; the caller's node gets a hold. */
    method Intern(cred: Cred) returns (c: Cred)
      requires Valid() && spare > 0
      modifies this`sys, this`spare, this`holds, this`transit
      ensures Valid() && c.who == cred.who && transit == More(old(transit), c, 1)
      ensures |old(sys)| == HASHSZ && c in sys[Bucket(hash, cred)]
      ensures sys == old(sys) || sys == old(sys)[Bucket(hash, cred) := [cred] + old(sys)[Bucket(hash, cred)]]
    {
      var b := Bucket(hash, cred);
      assert BucketOk(hash, sys[b], b);
      var r := Find(sys[b], cred);
      if r.None? {
        forall x ensures Total(sys[b := [cred] + sys[b]], x) == Total(sys, x) + if x == cred then 1 else 0 {
          TotalUpdate(sys, b, [cred] + sys[b], x);
          assert ([cred] + sys[b])[1..] == sys[b];
        }
        c := cred;
        holds := More(More(holds, cred, 1), cred, 1);
        spare := spare - 1;
        sys := sys[b := [cred] + sys[b]];
        assert sys[b][0] == cred;
      } else {
        c := r.value;
        holds := More(holds, c, 1);
      }
      transit := More(transit, c, 1);
    }

    /** The caller's node goes on the mnode's list. */
    method Attach(m: nat, c: Cred)
      requires Valid() && m < |lists| && transit(c) > 0
      modifies this`lists, this`transit
      ensures Valid() && lists == old(lists)[m := [c] + old(lists)[m]] && transit == More(old(transit), c, -1)
    {
      forall x ensures Total(lists[m := [c] + lists[m]], x) == Total(lists, x) + if x == c then 1 else 0 {
        TotalUpdate(lists, m, [c] + lists[m], x);
        assert ([c] + lists[m])[1..] == lists[m];
      }
      lists, transit := lists[m := [c] + lists[m]], More(transit, c, -1);
    }

    /** mvfs_record_cred; node and storage say whether its two allocations succeed. */
    method Record(m: nat, cred: Cred, node: bool, storage: bool) returns (stored: Option<Cred>)
      requires Valid() && m < |lists| && forall c :: transit(c) >= 0
      modifies this
      ensures Valid() && (stored.Some? <==> node && (old(spare) > 0 || storage))
      ensures stored.Some? ==> stored.value.who == cred.who
      ensures lists == if stored.Some? then old(lists)[m := [stored.value] + old(lists)[m]] else old(lists)
      ensures forall c :: transit(c) == old(transit)(c)
      ensures stored.None? ==> holds == old(holds) && sys == old(sys)
    {
      if !node { return None; }
      var ok := Reserve(storage);
      if !ok { return None; }
      var c := Intern(cred);
      Attach(m, c);
      stored := Some(c);
    }

    /** mvfs_clear_release_credlist: free the credential of every node of a list in hand. */
    method FreeList(s: seq<Cred>)
      requires Valid() && forall c :: transit(c) >= Times(s, c)
      modifies this`holds, this`transit
      ensures Valid() && forall c :: transit(c) == old(transit)(c) - Times(s, c)
    {
      var rest := s;
      while rest != []
        invariant Valid() && forall c :: transit(c) == old(transit)(c) - Times(s, c) + Times(rest, c)
        decreases |rest|
      {
        holds, transit := More(holds, rest[0], -1), More(transit, rest[0], -1);
        rest := rest[1..];
      }
    }

    ghost function PlusList(h: Cred -> int, s: seq<Cred>): Cred -> int { c => h(c) + Times(s, c) }

    /** mvfs_clear_release_mnode_credlist. */
    method ReleaseList(m: nat)
      requires Valid() && m < |lists| && forall c :: transit(c) >= 0
      modifies this`lists, this`holds, this`transit
      ensures Valid() && lists == old(lists)[m := []] && forall c :: transit(c) == old(transit)(c)
    {
      var s := lists[m];
      forall x ensures Total(lists[m := []], x) == Total(lists, x) - Times(s, x) { TotalUpdate(lists, m, [], x); }
      lists, transit := lists[m := []], PlusList(transit, s);
      FreeList(s);
    }

    /** One bucket of mvfs_flush_credlists: emptied under the lock, freed after it. */
    method FlushBucket(b: nat)
      requires Valid() && b < HASHSZ && forall c :: transit(c) >= 0
      modifies this`sys, this`holds, this`transit
      ensures Valid() && |old(sys)| == HASHSZ && sys == old(sys)[b := []] && forall c :: transit(c) == old(transit)(c)
    {
      var s := sys[b];
      forall x ensures Total(sys[b := []], x) == Total(sys, x) - Times(s, x) { TotalUpdate(sys, b, [], x); }
      sys, transit := sys[b := []], PlusList(transit, s);
      FreeList(s);
    }

    /** mvfs_flush_credlists: the mnode lists keep their holds. */
    method Flush()
      requires Valid() && forall c :: transit(c) >= 0
      modifies this`sys, this`holds, this`transit
      ensures Valid() && (forall c :: transit(c) == old(transit)(c)) && forall b :: 0 <= b < HASHSZ ==> sys[b] == []
      ensures forall c :: holds(c) == Total(lists, c) + transit(c)
    {
      var b := 0;
      while b < HASHSZ
        invariant 0 <= b <= HASHSZ && Valid() && (forall c :: transit(c) == old(transit)(c))
        invariant forall a :: 0 <= a < b ==> sys[a] == []
      {
        FlushBucket(b);
        b := b + 1;
      }
      forall c ensures Total(sys, c) == 0 { TotalNone(sys, c); }
    }
  }
}
