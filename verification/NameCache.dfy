/**
  The directory name cache as the code keeps it: an array of slots, hash chains and
  LRU lists threaded through them, and a counter.  Each method is one stretch of code
  under the cache's locks, or one whole operation run without interference, and is
  proved against the value-level table.
 */
module NameCache {
  import opened BuildHandles
  import opened DncRun
  import opened DncRunProofs
  import opened DncTable
  import opened DncTheorems
  import opened HashSize
  import opened NameHash
  import opened Rings

  /** Without interference even VOB roots are added one at a time, so all keys are unique. */
  ghost function AllKeys(): iset<Key> { iset k: Key | k.name == DOT || k.name != DOT }

  function Upto(x: nat, hi: nat): nat { if x < hi then x else hi }

  /** The LRU lists once the first i slots are on them. */
  function Pushed(geo: Geometry, i: nat): seq<seq<nat>> {
    var r := if i < geo.dirMax then geo.dirMax else Upto(i, geo.NoentStart());
    var m := if i < geo.NoentStart() then geo.NoentStart() else Upto(i, geo.Size());
    [Downto(Upto(i, geo.dirMax), 0), Downto(r, geo.dirMax), Downto(m, geo.NoentStart())]
  }

  lemma PushedNext(geo: Geometry, i: nat)
    requires i < geo.Size()
    ensures var p := Part(geo, i); Pushed(geo, i + 1) == Pushed(geo, i)[p := [i] + Pushed(geo, i)[p]]
  {
    var p := Part(geo, i);
    assert Pushed(geo, i + 1)[p] == [i] + Pushed(geo, i)[p];
  }

  class Cache {
    const geo: Geometry
    const slots: array<Entry>
    const chains: Lists
    const lru: Lists
    var noentOther: int

    /** The parts are separate objects of matching sizes, and each list is well linked. */
    ghost predicate Parts()
      reads this, slots, chains, chains.next, chains.prev, lru, lru.next, lru.prev
    {
      chains != lru && {chains.next, chains.prev} !! {lru.next, lru.prev} &&
      geo.hashSize > 0 && slots.Length == geo.Size() == chains.n == lru.n && chains.h == geo.hashSize && lru.h == 3 &&
      chains.Valid() && lru.Valid()
    }

    ghost function Model(): Table
      reads this, slots, lru
    {
      Table(geo, slots[..], lru.lists, noentOther)
    }

    /** A slot is on the chain that its hash field names. */
    ghost predicate Chained()
      reads this, slots, chains
    {
      |chains.home| == slots.Length && forall i :: 0 <= i < slots.Length ==> chains.home[i] == slots[i].hash
    }

    ghost predicate Valid()
      reads this, slots, chains, chains.next, chains.prev, lru, lru.next, lru.prev
    {
      Parts() && Chained() && TableInv(Model()) && KeysUnique(slots[..], AllKeys())
    }

    /** mvfs_dnclist_init: size the hash table and push every slot on its partition's free list. */
    constructor (dirMax: nat, regMax: nat, noentMax: nat)
      ensures Valid() && fresh(slots) && fresh(chains) && fresh(lru)
      ensures fresh(chains.next) && fresh(chains.prev) && fresh(lru.next) && fresh(lru.prev)
      ensures geo.dirMax == dirMax && geo.regMax == regMax && geo.noentMax == noentMax && Prime(geo.hashSize)
      ensures Model() == Fresh(geo)
    {
      var size := FindHashSize(dirMax + regMax + noentMax);
      var g := Geometry(dirMax, regMax, noentMax, size);
      var n := g.Size();
      var ch := new Lists(n, size);
      var lr := new Lists(n, 3);
      geo := g;
      slots := new Entry[n](_ => Blank());
      chains, lru, noentOther := ch, lr, 0;
      new;
      var i := 0;
      while i < n
        invariant 0 <= i <= n && Parts() && noentOther == 0
        invariant chains.home == seq(n, _ => NIL) && slots[..] == seq(n, _ => Blank())
        invariant lru.lists == Pushed(g, i) && forall j :: i <= j < n ==> lru.home[j] == NIL
      {
        PushedNext(g, i);
        lru.InsertFirst(Part(g, i), i);
        i := i + 1;
      }
      FreshInv(g);
    }

    /** Chain c holds exactly the slots whose hash field is c. */
    lemma ChainFacts(c: nat)
      requires Parts() && Chained() && c < geo.hashSize
      ensures Linked(chains.next[..], chains.prev[..], chains.n + c, chains.lists[c])
      ensures forall m :: 0 <= m < |chains.lists[c]| ==>
              chains.lists[c][m] < slots.Length && slots[chains.lists[c][m]].hash == c
      ensures forall i :: 0 <= i < slots.Length && slots[i].hash == c ==> i in chains.lists[c]
    {
      assert ListAt(chains.n, chains.home, c, chains.lists[c]);
      assert forall m :: 0 <= m < |chains.lists[c]| ==> chains.lists[c][m] in chains.lists[c];
    }

    /** Walk chain c from its header to the first entry that matches. */
    method Walk(k: Key, c: nat) returns (i: int)
      requires Parts() && Chained() && c < geo.hashSize
      ensures i == NIL ==> forall j :: 0 <= j < slots.Length && slots[j].hash == c ==> !Matches(slots[j], k)
      ensures i != NIL ==> 0 <= i < slots.Length && slots[i].hash == c && Matches(slots[i], k)
    {
      ghost var s := chains.lists[c];
      ChainFacts(c);
      ghost var n := 0;
      assert At(chains.n + c, s, -1) == chains.n + c;
      i := chains.next[chains.n + c];
      while i != chains.n + c
        invariant 0 <= n <= |s| && i == At(chains.n + c, s, n)
        invariant forall m :: 0 <= m < n ==> !Matches(slots[s[m]], k)
        decreases |s| - n
      {
        if Matches(slots[i], k) { return; }
        i := chains.next[i];
        n := n + 1;
      }
      i := NIL;
    }

    /** mfs_dncfind, case-sensitive. */
    method Search(k: Key) returns (i: int)
      requires Valid()
      ensures i == NIL ==> Find(Model(), k).None?
      ensures i != NIL ==> 0 <= i < slots.Length && Find(Model(), k) == Some(i)
    {
      i := Walk(k, KeyChain(k, geo.hashSize));
      if i != NIL {
        HitIsFound(Model(), k, i);
      }
    }

    // ---- List and field updates under the chain and LRU locks ----

    /** Unlink a slot from its chain, if it is on one, and keep the count of "other" not-found entries. */
    method Unhash(i: nat)
      requires Parts() && Chained() && i < slots.Length && slots[i].hash >= NIL
      modifies this`noentOther, slots, chains, chains.next, chains.prev
      ensures Parts() && Chained()
      ensures slots[..] == old(slots[..])[i := old(slots[i]).(hash := NIL)]
      ensures noentOther == old(noentOther) - if Hashed(old(slots[i])) && Other(old(slots[i])) then 1 else 0
    {
      if slots[i].hash != NIL {
        ghost var c := slots[i].hash;
        assert c == chains.home[i] && i in chains.lists[c];
        chains.Remove(i, c, PosOf(chains.lists[c], i));
        if Other(slots[i]) { noentOther := noentOther - 1; }
        slots[i] := slots[i].(hash := NIL);
      }
    }

    /** Take a slot off its chain and LRU list and mark it in transition. */
    method Detach(i: nat)
      requires Valid() && i < slots.Length && !slots[i].inTrans
      modifies this`noentOther, slots, chains, chains.next, chains.prev, lru, lru.next, lru.prev
      ensures Valid() && Model() == DncTable.Detach(old(Model()), i)
    {
      ghost var p := Part(geo, i);
      ghost var t := Model();
      assert SlotOk(t.geo, i, t.slots[i]) && LruOk(t.geo, t.slots, p, t.lru[p]);
      DetachInv(t, i);
      StillUnique(t.slots, DncTable.Detach(t, i).slots, AllKeys());
      Unhash(i);
      lru.Remove(i, p, PosOf(lru.lists[p], i));
      slots[i] := slots[i].(inTrans := true);
      assert slots[..] == t.slots[i := t.slots[i].(inTrans := true, hash := NIL)];
      assert Model() == DncTable.Detach(t, i);
    }

    /** Release a private slot's contents and return it to the front of its LRU list. */
    method Release(i: nat)
      requires Valid() && i < slots.Length && slots[i].inTrans
      modifies slots, lru, lru.next, lru.prev
      ensures Valid() && Model() == DncTable.Release(old(Model()), i)
    {
      ghost var t := Model();
      assert SlotOk(t.geo, i, t.slots[i]);
      ReleaseInv(t, i);
      StillUnique(t.slots, DncTable.Release(t, i).slots, AllKeys());
      OffItsList(i);
      slots[i] := Cleared(slots[i]).(inTrans := false);
      lru.InsertFirst(Part(geo, i), i);
      assert slots[..] == t.slots[i := Cleared(t.slots[i]).(inTrans := false)];
    }

    /** Put a filled slot on its chain and at the back of its LRU list. */
    method Publish(i: nat, e: Entry)
      requires Valid() && i < slots.Length && slots[i].inTrans
      requires Hashed(e) && EntryOk(geo, i, e) && Absent(Model(), KeyOf(e))
      modifies this`noentOther, slots, chains, chains.next, chains.prev, lru, lru.next, lru.prev
      ensures Valid() && Model() == DncTable.Publish(old(Model()), i, e)
    {
      ghost var t := Model();
      assert SlotOk(t.geo, i, t.slots[i]);
      PublishInv(t, i, e);
      PublishUnique(t, i, e, AllKeys());
      OffItsList(i);
      slots[i] := e;
      lru.InsertLast(Part(geo, i), i);
      chains.InsertFirst(e.hash, i);
      if Other(e) { noentOther := noentOther + 1; }
      assert slots[..] == t.slots[i := e];
      assert Model() == DncTable.Publish(t, i, e);
    }

    /** Move a slot to the back of its LRU list. */
    method Touch(i: nat)
      requires Valid() && i < slots.Length && Hashed(slots[i])
      modifies lru, lru.next, lru.prev
      ensures Valid() && Model() == DncTable.Touch(old(Model()), i)
    {
      var p := Part(geo, i);
      ghost var t := Model();
      assert SlotOk(t.geo, i, t.slots[i]) && LruOk(t.geo, t.slots, p, t.lru[p]);
      TouchInv(t, i);
      lru.MoveLast(i, p, PosOf(lru.lists[p], i));
    }

    lemma OffItsList(i: nat)
      requires Valid() && i < slots.Length && slots[i].inTrans
      ensures lru.home[i] == NIL && chains.home[i] == NIL
    {
      var t := Model();
      assert SlotOk(t.geo, i, t.slots[i]);
      assert forall p :: 0 <= p < 3 ==> LruOk(t.geo, t.slots, p, t.lru[p]) && i !in t.lru[p];
    }

    /** Change an entry in place. */
    method Amend(i: nat, e: Entry)
      requires Valid() && i < slots.Length && Hashed(slots[i]) && SamePlace(slots[i], e)
      modifies slots
      ensures Valid() && Model() == DncTable.Amend(old(Model()), i, e)
    {
      AmendInv(Model(), i, e);
      StillUnique(slots[..], slots[..][i := e], AllKeys());
      slots[i] := e;
      assert slots[..] == old(slots[..])[i := e];
    }

    /** A scan under the exclusive lock that invalidates the used entries satisfying a test. */
    method Scan(lo: nat, hi: nat, test: Entry -> bool)
      requires Valid() && hi <= slots.Length
      modifies slots
      ensures Valid() && Model() == Sweep(old(Model()), lo, hi, test)
    {
      ghost var t := Model();
      ghost var t' := Sweep(t, lo, hi, test);
      var i := lo;
      while i < hi
        invariant lo <= i && (lo <= hi ==> i <= hi)
        invariant forall j :: 0 <= j < slots.Length ==> slots[j] == if j < i then t'.slots[j] else t.slots[j]
      {
        var e := slots[i];
        if !e.inTrans && !Unused(e) && test(e) {
          slots[i] := Invalidated(e);
        }
        i := i + 1;
      }
      assert slots[..] == t'.slots;
      SweepsOnlyInvalidate(t, lo, hi, test);
      OnlyInvalidatedInv(t, t');
      StillUnique(t.slots, t'.slots, AllKeys());
    }

    /** Walk one chain and mark the synonyms on it. */
    method MarkSynonyms(k: Key, c: nat, ghost s: seq<nat>)
      requires geo.hashSize > 0 && c == KeyChain(k, geo.hashSize)
      requires chains.next.Length == chains.prev.Length == chains.n + chains.h && c < chains.h
      requires Linked(chains.next[..], chains.prev[..], chains.n + c, s) && NoDup(s)
      requires forall m :: 0 <= m < |s| ==> s[m] < slots.Length && s[m] < chains.n && slots[s[m]].hash == c
      requires forall i :: 0 <= i < slots.Length && slots[i].hash == c ==> i in s
      modifies slots
      ensures slots[..] == SweepSynonyms(old(Model()), k).slots
    {
      ghost var t, t' := Model(), SweepSynonyms(Model(), k);
      ghost var n := 0;
      assert At(chains.n + c, s, -1) == chains.n + c;
      var i := chains.next[chains.n + c];
      while i != chains.n + c
        invariant 0 <= n <= |s| && i == At(chains.n + c, s, n)
        invariant forall m :: 0 <= m < n ==> slots[s[m]] == t'.slots[s[m]]
        invariant forall m :: n <= m < |s| ==> slots[s[m]] == t.slots[s[m]]
        invariant forall j :: 0 <= j < slots.Length && t.slots[j].hash != c ==> slots[j] == t.slots[j]
        decreases |s| - n
      {
        if Synonym(slots[i], k) {
          slots[i] := slots[i].(invalid := true);
        }
        i := chains.next[i];
        n := n + 1;
      }
      forall j | 0 <= j < slots.Length ensures slots[j] == t'.slots[j] {
        if t.slots[j].hash == c { var m :| 0 <= m < |s| && s[m] == j; }
      }
    }

    /** mfs_dnc_inval_case_synonyms: walking one chain marks the synonyms anywhere in the table, and nothing else. */
    method InvalidateSynonyms(k: Key)
      requires Valid()
      modifies slots
      ensures Valid() && Model() == SweepSynonyms(old(Model()), k)
      ensures k.name != DOT ==> forall i :: 0 <= i < slots.Length && Hashed(old(slots[i])) ==>
                slots[i] == if Synonym(old(slots[i]), k) then old(slots[i]).(invalid := true) else old(slots[i])
    {
      ghost var t := Model();
      SynonymsGone(t, k);
      ghost var c := KeyChain(k, geo.hashSize);
      ChainFacts(c);
      assert NoDup(chains.lists[c]) by { assert ListAt(chains.n, chains.home, c, chains.lists[c]); }
      MarkSynonyms(k, KeyChain(k, geo.hashSize), chains.lists[c]);
    }

    // ---- Whole operations, run without interference ----

    /** mvfs_dncadd_subr. */
    method AddEntry(r: Req, target: Key -> View)
      requires Valid() && ReqOk(target, r)
      modifies this`noentOther, slots, chains, chains.next, chains.prev, lru, lru.next, lru.prev
      ensures Valid() && Model() == AddWhole(old(Model()), target, r)
    {
      ghost var t := Model();
      var i := Search(r.key);
      FindNoneIsAbsent(t, r.key);
      if i != NIL {
        assert SlotOk(t.geo, i, t.slots[i]);
        if Unchanged(slots[i], r) {
          ChainAnswersForTable(t, r.key, i);
          MendedSamePlace(slots[i], r);
          Amend(i, Mended(slots[i], r));
          return;
        }
        DetachedAbsent(t, r.key, i, AllKeys());
        Free(i);
      }
      Insert(r, target);
    }

    /** Take an entry out of the cache and give its slot back. */
    method Free(i: nat)
      requires Valid() && i < slots.Length && !slots[i].inTrans
      modifies this`noentOther, slots, chains, chains.next, chains.prev, lru, lru.next, lru.prev
      ensures Valid() && Model() == Drop(old(Model()), Some(i))
    {
      Detach(i);
      Release(i);
    }

    /** The second half of an add: take the least recently used slot and fill it. */
    method Insert(r: Req, target: Key -> View)
      requires Valid() && ReqOk(target, r) && Absent(Model(), r.key)
      modifies this`noentOther, slots, chains, chains.next, chains.prev, lru, lru.next, lru.prev
      ensures Valid() && Model() == InsertWhole(old(Model()), target, r)
    {
      ghost var t := Model();
      var i := lru.First(r.kind);
      if i == NIL { return; }
      assert LruOk(t.geo, t.slots, r.kind, t.lru[r.kind]) && i in t.lru[r.kind];
      Detach(i);
      Fill(i, r, target);
    }

    /** Rewrite a private slot and publish it. */
    method Fill(i: nat, r: Req, target: Key -> View)
      requires Valid() && ReqOk(target, r) && Absent(Model(), r.key)
      requires i < slots.Length && slots[i].inTrans && Part(geo, i) == r.kind
      modifies this`noentOther, slots, chains, chains.next, chains.prev, lru, lru.next, lru.prev
      ensures Valid()
      ensures Model() == DncTable.Publish(SweepSynonyms(old(Model()), r.key), i, Filled(target, geo.hashSize, r))
    {
      InvalidateSynonyms(r.key);
      FilledOk(target, geo, i, r);
      Publish(i, Filled(target, geo.hashSize, r));
    }

    /** mfs_dncremove_one; found is its result. */
    method RemoveEntry(k: Key) returns (found: bool)
      requires Valid() && k.name != [] && k.name != DOT
      modifies this`noentOther, slots, chains, chains.next, chains.prev, lru, lru.next, lru.prev
      ensures Valid() && Model() == RemoveWhole(old(Model()), k)
      ensures found == Find(old(Model()), k).Some?
    {
      ghost var t := Model();
      var i := Search(k);
      if i == NIL {
        InvalidateSynonyms(k);
        return false;
      }
      assert SlotOk(t.geo, i, t.slots[i]);
      var fid := slots[i].vfid;
      Detach(i);
      InvalidateSynonyms(k);
      if Part(geo, i) == DIR {
        DropAlias(RootKey(k), fid);
      }
      Release(i);
      return true;
    }

    /** Invalidate the entry of a VOB root if it translates to this fid. */
    method DropAlias(k: Key, fid: Fid)
      requires Valid()
      modifies slots
      ensures Valid() && Model() == AliasDropped(old(Model()), k, fid)
      ensures forall i :: 0 <= i < slots.Length ==> slots[i].inTrans == old(slots[i].inTrans)
    {
      var j := Search(k);
      if j != NIL && slots[j].vfid == fid {
        assert SlotOk(geo, j, slots[..][j]);
        Amend(j, Invalidated(slots[j]));
      }
    }

    /** The locked part of mfs_dnclookup: which slot, if any, answers a case-sensitive lookup. */
    method Lookup(k: Key, who: Who) returns (i: int)
      requires Valid()
      modifies lru, lru.next, lru.prev
      ensures Valid()
      ensures i == NIL ==> Model() == old(Model()) && forall j :: !Served(Model(), k, who, j)
      ensures i != NIL ==>
                0 <= i < slots.Length && Served(old(Model()), k, who, i) && Model() == DncTable.Touch(old(Model()), i)
    {
      i := Search(k);
      if i == NIL { return; }
      if slots[i].invalid || !Accepts(slots[i].ring, slots[i].evtime, who) {
        forall j | Hit(Model(), k, j) ensures j == i { HitIsFound(Model(), k, j); }
        return NIL;
      }
      Touch(i);
    }

    /**
      mfs_dnc_inval_obj_not_found: skipping on a zero counter is as good as the full scan while
      the counter is right.
     */
    method InvalidateNotFound()
      requires Valid()
      modifies slots
      ensures Valid()
      ensures old(noentOther) == OtherCount(old(slots[..])) ==>
              Model() == Sweep(old(Model()), 0, slots.Length, HitsOther())
    {
      ghost var t := Model();
      if noentOther == 0 {
        if noentOther == OtherCount(slots[..]) { NothingToScan(t); }
        return;
      }
      NotFoundScanIsFullScan(t);
      Scan(geo.NoentStart(), slots.Length, HitsNotFound());
    }

    /** mvfs_rvcflush: only the directory partition is scanned. */
    method FlushRoots(view: View, only: Option<Vfs>)
      requires Valid()
      modifies slots
      ensures Valid() && Model() == Sweep(old(Model()), 0, slots.Length, HitsRoot(view, only))
    {
      RootScanIsFullScan(Model(), view, only);
      Scan(0, geo.dirMax, HitsRoot(view, only));
    }

    /** mvfs_dncflush_subr: one trip through the table that frees every used entry, or those of one VOB. */
    method Flush(only: Option<Vfs>)
      requires Valid()
      modifies this`noentOther, slots, chains, chains.next, chains.prev, lru, lru.next, lru.prev
      ensures Valid()
      ensures forall i :: 0 <= i < slots.Length ==>
                if FlushHits(old(slots[i]), only) then Unused(slots[i]) && !Hashed(slots[i]) && !slots[i].inTrans
                else slots[i] == old(slots[i])
    {
      var i := 0;
      while i < slots.Length
        invariant 0 <= i <= slots.Length && Valid()
        invariant forall j :: i <= j < slots.Length ==> slots[j] == old(slots[j])
        invariant forall j :: 0 <= j < i ==>
                    if FlushHits(old(slots[j]), only) then Unused(slots[j]) && !Hashed(slots[j]) && !slots[j].inTrans
                    else slots[j] == old(slots[j])
      {
        if FlushHits(slots[i], only) { FlushOne(i); }
        i := i + 1;
      }
    }

    method FlushOne(i: nat)
      requires Valid() && i < slots.Length && !slots[i].inTrans
      modifies this`noentOther, slots, chains, chains.next, chains.prev, lru, lru.next, lru.prev
      ensures Valid() && Unused(slots[i]) && !Hashed(slots[i]) && !slots[i].inTrans
      ensures forall j :: 0 <= j < slots.Length && j != i ==> slots[j] == old(slots[j])
    {
      ghost var t := Model();
      Free(i);
      assert Model().slots == Drop(t, Some(i)).slots;
      assert forall j :: 0 <= j < slots.Length && j != i ==> Model().slots[j] == t.slots[j];
      assert Model().slots[i] == Cleared(t.slots[i].(hash := NIL, inTrans := true)).(inTrans := false);
    }
  }

  lemma SweepIsWhole(t: Table, k: Key)
    requires SlotsOk(t) && k.name != DOT
    ensures forall i :: 0 <= i < |t.slots| && Hashed(t.slots[i]) ==>
              SweepSynonyms(t, k).slots[i] ==
              if Synonym(t.slots[i], k) then t.slots[i].(invalid := true) else t.slots[i]
  {
    forall i | 0 <= i < |t.slots| && Hashed(t.slots[i]) && Synonym(t.slots[i], k)
      ensures t.slots[i].hash == KeyChain(k, t.geo.hashSize)
    {
      SynonymsOnOneChain(t, k, i);
    }
  }

  lemma NothingToScan(t: Table)
    requires TableInv(t) && OtherCount(t.slots) == 0
    ensures Sweep(t, 0, |t.slots|, HitsOther()) == t
  {
    var t' := Sweep(t, 0, |t.slots|, HitsOther());
    forall i | 0 <= i < |t.slots| ensures t'.slots[i] == t.slots[i] {
      CountZero(t.slots, i);
      assert SlotOk(t.geo, i, t.slots[i]);
    }
    assert t'.slots == t.slots;
  }

  // ---- The whole operations on the table ----

  predicate FlushHits(e: Entry, only: Option<Vfs>) {
    !e.inTrans && !Unused(e) && (only == None || only == Some(e.vfs))
  }

  ghost function InsertWhole(t: Table, target: Key -> View, r: Req): Table
    requires t.geo.hashSize > 0 && |t.lru| == 3 && r.kind < 3
    requires forall p, x :: 0 <= p < 3 && x in t.lru[p] ==> x < |t.slots|
  {
    if t.lru[r.kind] == [] then t
    else
      var i := t.lru[r.kind][0];
      assert i in t.lru[r.kind];
      DncTable.Publish(SweepSynonyms(DncTable.Detach(t, i), r.key), i, Filled(target, t.geo.hashSize, r))
  }

  ghost function AddWhole(t: Table, target: Key -> View, r: Req): Table
    requires TableInv(t) && r.kind < 3
  {
    var o := Find(t, r.key);
    if o.Some? && Unchanged(t.slots[o.value], r) then DncTable.Amend(t, o.value, Mended(t.slots[o.value], r))
    else
      assert o.Some? ==> SlotOk(t.geo, o.value, t.slots[o.value]);
      DropInv(t, o);
      InsertWhole(Drop(t, o), target, r)
  }

  /** The table without the entry in slot o, whose slot is free again. */
  ghost function Drop(t: Table, o: Option<nat>): Table
    requires |t.lru| == 3 && (o.Some? ==> o.value < |t.slots|)
  {
    if o.None? then t else DncTable.Release(DncTable.Detach(t, o.value), o.value)
  }

  lemma DropInv(t: Table, o: Option<nat>)
    requires TableInv(t) && (o.Some? ==> o.value < |t.slots| && !t.slots[o.value].inTrans)
    ensures TableInv(Drop(t, o)) && forall p, x :: 0 <= p < 3 && x in Drop(t, o).lru[p] ==> x < |Drop(t, o).slots|
  {
    if o.Some? {
      DetachInv(t, o.value);
      ReleaseInv(DncTable.Detach(t, o.value), o.value);
    }
    assert forall p :: 0 <= p < 3 ==> LruOk(t.geo, Drop(t, o).slots, p, Drop(t, o).lru[p]);
  }

  ghost function RemoveWhole(t: Table, k: Key): Table
    requires t.geo.hashSize > 0 && |t.lru| == 3
  {
    var o := Find(t, k);
    if o.None? then SweepSynonyms(t, k)
    else
      var t1 := SweepSynonyms(DncTable.Detach(t, o.value), k);
      var t2 := if Part(t.geo, o.value) == DIR then AliasDropped(t1, RootKey(k), t.slots[o.value].vfid) else t1;
      DncTable.Release(t2, o.value)
  }

  ghost function AliasDropped(t: Table, k: Key, fid: Fid): (t': Table)
    requires t.geo.hashSize > 0
    ensures |t'.slots| == |t.slots| && t'.lru == t.lru
  {
    var o := Find(t, k);
    if o.Some? && t.slots[o.value].vfid == fid then DncTable.Amend(t, o.value, Invalidated(t.slots[o.value])) else t
  }

  lemma HitIsFound(t: Table, k: Key, i: nat)
    requires SlotsOk(t) && KeysUnique(t.slots, AllKeys()) && Hit(t, k, i)
    ensures Find(t, k) == Some(i)
  {
    ChainAnswersForTable(t, k, i);
    ChainAnswersForTable(t, k, Find(t, k).value);
  }

  // ---- Run without interference, the protocol does what the whole operations do ----

  /** Thread tid alone, for up to n of its steps. */
  ghost function Alone(w: World, tid: nat, n: nat): World
    decreases n
  {
    if n == 0 || tid !in w.phase || !Shape(w) then w else Alone(ContinueStep(w, tid), tid, n - 1)
  }

  lemma {:induction false} AloneReachable(w: World, tid: nat, n: nat)
    requires Reachable(w)
    ensures Reachable(Alone(w, tid, n))
    decreases n
  {
    if n > 0 && tid in w.phase && Shape(w) {
      ReachableStep(w, Continue(tid));
      AloneReachable(ContinueStep(w, tid), tid, n - 1);
    }
  }

  lemma ReturnAlone(w: World, tid: nat, i: nat)
    requires Shape(w) && tid in w.phase && w.phase[tid] == Return(i) && i < |w.t.slots|
    ensures Alone(w, tid, 1).t == DncTable.Release(w.t, i) && Alone(w, tid, 1).phase == w.phase - {tid}
  {
    assert Alone(ContinueStep(w, tid), tid, 0) == ContinueStep(w, tid);
  }

  lemma RootAlone(w: World, tid: nat, k: Key, i: nat, fid: Fid)
    requires Shape(w) && tid in w.phase && w.phase[tid] == RemoveRoot(k, i, fid) && i < |w.t.slots|
    ensures Alone(w, tid, 2).phase == w.phase - {tid}
    ensures var t := if Part(w.t.geo, i) == DIR then AliasDropped(w.t, RootKey(k), fid) else w.t;
            Alone(w, tid, 2).t == DncTable.Release(t, i)
  {
    var w1 := RootStep(w, tid, k, i, fid);
    assert ContinueStep(w, tid) == w1 && Shape(w1);
    ReturnAlone(w1, tid, i);
    assert w1.phase - {tid} == w.phase - {tid};
  }

  /** mfs_dncremove_one is the protocol's remove, run to the end. */
  lemma RemoveWholeIsRun(w: World, tid: nat, k: Key)
    requires Shape(w) && Enabled(w, Remove(tid, k))
    ensures Alone(Apply(w, Remove(tid, k)), tid, 2).t == RemoveWhole(w.t, k)
    ensures Alone(Apply(w, Remove(tid, k)), tid, 2).phase == w.phase
  {
    var w1, o := RemoveStep(w, tid, k), Find(w.t, k);
    if o.Some? {
      assert Shape(w1);
      RootAlone(w1, tid, k, o.value, w.t.slots[o.value].vfid);
      assert w1.phase - {tid} == w.phase;
    }
  }

  lemma FillAlone(w: World, tid: nat, r: Req, i: nat)
    requires Shape(w) && tid in w.phase && w.phase[tid] == AddSynonyms(r, i) && i < |w.t.slots|
    ensures Alone(w, tid, 2).t == DncTable.Publish(SweepSynonyms(w.t, r.key), i, Filled(w.target, w.t.geo.hashSize, r))
    ensures Alone(w, tid, 2).phase == w.phase - {tid} && Alone(w, tid, 2).last == w.last[r.key := BindingOf(r)]
    ensures Alone(w, tid, 2).target == w.target && Shape(Alone(w, tid, 2))
  {
    var w1 := w.(t := SweepSynonyms(w.t, r.key), phase := w.phase[tid := AddInsert(r, i)]);
    assert ContinueStep(w, tid) == w1 && Shape(w1);
    var w2 := InsertStep(w1, tid, r, i);
    assert ContinueStep(w1, tid) == w2;
    assert Alone(w1, tid, 1) == Alone(w2, tid, 0) == w2;
    assert w1.phase - {tid} == w.phase - {tid};
  }

  lemma TakeAlone(w: World, tid: nat, r: Req)
    requires Shape(w) && tid in w.phase && w.phase[tid] == AddTake(r) && r.kind < 3
    requires forall p, x :: 0 <= p < 3 && x in w.t.lru[p] ==> x < |w.t.slots|
    ensures Alone(w, tid, 3).t == InsertWhole(w.t, w.target, r) && Alone(w, tid, 3).phase == w.phase - {tid}
    ensures Alone(w, tid, 3).last == if w.t.lru[r.kind] == [] then w.last else w.last[r.key := BindingOf(r)]
    ensures Alone(w, tid, 3).target == w.target && Shape(Alone(w, tid, 3))
  {
    var w1 := TakeStep(w, tid, r);
    assert ContinueStep(w, tid) == w1;
    if w.t.lru[r.kind] != [] {
      var i := w.t.lru[r.kind][0];
      assert i in w.t.lru[r.kind];
      assert w1 == w.(t := DncTable.Detach(w.t, i), phase := w.phase[tid := AddSynonyms(r, i)]);
      TakenAlone(w, tid, r, i);
    } else {
      assert w1 == w.(phase := w.phase - {tid});
    }
  }

  lemma TakenAlone(w: World, tid: nat, r: Req, i: nat)
    requires Shape(w) && tid in w.phase && i < |w.t.slots|
    ensures var w1 := w.(t := DncTable.Detach(w.t, i), phase := w.phase[tid := AddSynonyms(r, i)]);
            Alone(w1, tid, 2).phase == w.phase - {tid} && Alone(w1, tid, 2).last == w.last[r.key := BindingOf(r)] &&
            Alone(w1, tid, 2).target == w.target && Shape(Alone(w1, tid, 2)) &&
            var t := SweepSynonyms(DncTable.Detach(w.t, i), r.key);
            Alone(w1, tid, 2).t == DncTable.Publish(t, i, Filled(w.target, w.t.geo.hashSize, r))
  {
    var w1 := w.(t := DncTable.Detach(w.t, i), phase := w.phase[tid := AddSynonyms(r, i)]);
    FillAlone(w1, tid, r, i);
    assert w1.phase - {tid} == w.phase - {tid};
  }

  /** mvfs_dncadd_subr is the protocol's add, run to the end. */
  lemma AddWholeIsRun(w: World, tid: nat, r: Req)
    requires Shape(w) && Enabled(w, Add(tid, r)) && TableInv(w.t)
    ensures Alone(Apply(w, Add(tid, r)), tid, 4).t == AddWhole(w.t, w.target, r)
    ensures Alone(Apply(w, Add(tid, r)), tid, 4).phase == w.phase
  {
    var o := Find(w.t, r.key);
    if !(o.Some? && Unchanged(w.t.slots[o.value], r)) {
      assert forall p, x :: 0 <= p < 3 && x in Drop(w.t, o).lru[p] ==> x < |Drop(w.t, o).slots| by {
        assert o.Some? ==> SlotOk(w.t.geo, o.value, w.t.slots[o.value]);
        DropInv(w.t, o);
      }
      AddAlone(w, tid, r, o);
    }
  }

  lemma AddAlone(w: World, tid: nat, r: Req, o: Option<nat>)
    requires Shape(w) && tid !in w.phase && r.kind < 3 && o == Find(w.t, r.key)
    requires o.Some? ==> !Unchanged(w.t.slots[o.value], r)
    requires forall p, x :: 0 <= p < 3 && x in Drop(w.t, o).lru[p] ==> x < |Drop(w.t, o).slots|
    ensures Alone(AddStep(w, tid, r), tid, 4).t == InsertWhole(Drop(w.t, o), w.target, r)
    ensures Alone(AddStep(w, tid, r), tid, 4).phase == w.phase
  {
    var w1 := AddStep(w, tid, r);
    assert w1.phase - {tid} == w.phase;
    var t := Drop(w.t, o);
    if o.Some? {
      assert t == DncTable.Release(w1.t, o.value);
      SupersedeAlone(w1, tid, r, o.value);
    } else {
      assert t == w1.t;
      MissAlone(w1, tid, r);
    }
  }

  lemma MissAlone(w: World, tid: nat, r: Req)
    requires Shape(w) && tid in w.phase && w.phase[tid] == AddTake(r) && r.kind < 3
    requires forall p, x :: 0 <= p < 3 && x in w.t.lru[p] ==> x < |w.t.slots|
    ensures Alone(w, tid, 4).t == InsertWhole(w.t, w.target, r) && Alone(w, tid, 4).phase == w.phase - {tid}
  {
    TakeAlone(w, tid, r);
    AloneMore(w, tid, 3);
  }

  lemma SupersedeAlone(w: World, tid: nat, r: Req, i: nat)
    requires Shape(w) && tid in w.phase && w.phase[tid] == AddReturn(r, i) && i < |w.t.slots| && r.kind < 3
    requires var t := DncTable.Release(w.t, i); forall p, x :: 0 <= p < 3 && x in t.lru[p] ==> x < |t.slots|
    ensures Alone(w, tid, 4).t == InsertWhole(DncTable.Release(w.t, i), w.target, r)
    ensures Alone(w, tid, 4).phase == w.phase - {tid}
  {
    var w1 := w.(t := DncTable.Release(w.t, i), phase := w.phase[tid := AddTake(r)]);
    assert ContinueStep(w, tid) == w1;
    TakeAlone(w1, tid, r);
    assert w1.phase - {tid} == w.phase - {tid};
  }

  /** Further steps change nothing once the thread is idle. */
  lemma {:induction false} AloneMore(w: World, tid: nat, n: nat)
    requires tid !in Alone(w, tid, n).phase
    ensures Alone(w, tid, n + 1) == Alone(w, tid, n)
    decreases n
  {
    if n > 0 && tid in w.phase && Shape(w) { AloneMore(ContinueStep(w, tid), tid, n - 1); }
  }

  /** Invalidating synonyms keeps the table, and reaches every entry in it. */
  lemma SynonymsGone(t: Table, k: Key)
    requires TableInv(t) && KeysUnique(t.slots, AllKeys())
    ensures TableInv(SweepSynonyms(t, k)) && KeysUnique(SweepSynonyms(t, k).slots, AllKeys())
    ensures |SweepSynonyms(t, k).slots| == |t.slots|
    ensures k.name != DOT ==> forall i :: 0 <= i < |t.slots| && Hashed(t.slots[i]) ==>
              SweepSynonyms(t, k).slots[i] ==
              if Synonym(t.slots[i], k) then t.slots[i].(invalid := true) else t.slots[i]
  {
    SynonymSweepOnlyInvalidates(t, k);
    if k.name != DOT { SweepIsWhole(t, k); }
    OnlyInvalidatedInv(t, SweepSynonyms(t, k));
    StillUnique(t.slots, SweepSynonyms(t, k).slots, AllKeys());
  }
}
