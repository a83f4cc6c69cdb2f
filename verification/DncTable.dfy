/**
  The directory name cache as a value: a table of slots in three partitions, the
  LRU list of each partition, and the count of "other" not-found entries.

  Each function below is the effect of one stretch of code that runs under the
  cache's locks.  A slot is on the hash chain its `hash` field names, or on none.
 */
module DncTable {
  import opened BuildHandles
  import opened NameHash
  import opened Rings

  datatype Option<+T> = None | Some(value: T)

  datatype Fid = Fid(dbid: nat, gen: nat) {
    predicate IsNull() { dbid == 0 && gen == 0 }
  }

  /** A view tag and a mounted VOB, each with the 32-bit hash of its UUID; a VOB has a bare root. */
  datatype View = View(id: nat, hash32: nat)
  datatype Vfs = Vfs(id: nat, hash32: nat, root: Fid)

  /** What a translation is looked up by. The name "." stands for a VOB root in a view. */
  datatype Key = Key(view: View, vfs: Vfs, dfid: Fid, name: Name)

  datatype Flags = Flags(bhInvariant: bool, notInDir: bool, ci: bool, rvc: bool)

  datatype Entry = Entry(
    inTrans: bool, invalid: bool, ring: BhRing, flags: Flags,
    dvw: Option<View>, vfs: Vfs, dfid: Fid, dncgen: nat, name: Name,
    vvw: Option<View>, vfid: Fid, evtime: Time, addtime: nat, hash: int)

  datatype Geometry = Geometry(dirMax: nat, regMax: nat, noentMax: nat, hashSize: nat) {
    function Size(): nat { dirMax + regMax + noentMax }
    function NoentStart(): nat { dirMax + regMax }
  }

  datatype Table = Table(geo: Geometry, slots: seq<Entry>, lru: seq<seq<nat>>, noentOther: int)

  // The partitions, each with its LRU list.
  const DIR: nat := 0
  const REG: nat := 1
  const NOENT: nat := 2

  function Part(geo: Geometry, i: nat): nat {
    if i < geo.dirMax then DIR else if i < geo.NoentStart() then REG else NOENT
  }

  predicate Hashed(e: Entry) { e.hash >= 0 }

  /** UNUSED. */
  predicate Unused(e: Entry) { e.dvw == None && !e.flags.rvc }

  /** A not-found entry that is not known to be due to the name being absent. */
  predicate Other(e: Entry) { e.vfid.IsNull() && !e.flags.notInDir }

  /** The directory, view and VOB part of the test in mfs_dncfind. */
  predicate SameDir(e: Entry, k: Key) {
    e.dfid == k.dfid && e.vfs == k.vfs &&
    (if e.flags.rvc then e.vvw == Some(k.view) else e.dvw == Some(k.view))
  }

  /** mfs_dncfind, case-sensitive. */
  predicate Matches(e: Entry, k: Key) {
    SameDir(e, k) && e.name == k.name
  }

  /** A case-insensitive synonym: the test of mfs_dnc_inval_case_synonyms. */
  predicate Synonym(e: Entry, k: Key) {
    e.dvw == Some(k.view) && |e.name| == |k.name| && e.dfid == k.dfid && e.flags.ci && SameFold(e.name, k.name)
  }

  /** The key an entry answers to; the view is there in every chained entry. */
  function KeyOf(e: Entry): Key {
    var view := if e.flags.rvc then e.vvw else e.dvw;
    Key(if view.Some? then view.value else View(0, 0), e.vfs, e.dfid, e.name)
  }

  function KeyChain(k: Key, size: nat): (c: nat)
    requires size > 0
    ensures c < size
  {
    if k.name == DOT then RootChain(k.view.hash32, k.vfs.hash32, size)
    else DirChain(k.name, k.dfid.dbid, k.dfid.gen, size)
  }

  // ---- What every reachable table satisfies ----

  /** An entry fit to be on a chain from slot i. */
  ghost predicate EntryOk(geo: Geometry, i: nat, e: Entry)
    requires geo.hashSize > 0
  {
    !e.inTrans && e.name != [] && (e.flags.rvc <==> e.name == DOT) &&
    (if e.flags.rvc then e.vvw.Some? && e.dvw == None && Part(geo, i) == DIR else e.dvw.Some?) &&
    (e.vfid.IsNull() <==> Part(geo, i) == NOENT) && (e.vfid.IsNull() ==> e.vvw == None) &&
    e.ring.bhx < |e.ring.bh| == BH_MAX && e.hash == KeyChain(KeyOf(e), geo.hashSize)
  }

  ghost predicate SlotOk(geo: Geometry, i: nat, e: Entry)
    requires geo.hashSize > 0
  {
    if Hashed(e) then EntryOk(geo, i, e) else e.hash == NIL && (!e.inTrans ==> Unused(e))
  }

  ghost predicate SlotsOk(t: Table) {
    t.geo.hashSize > 0 && |t.slots| == t.geo.Size() &&
    forall i :: 0 <= i < |t.slots| ==> SlotOk(t.geo, i, t.slots[i])
  }

  /** No two chained entries translate the same key, for the keys in question. */
  ghost predicate KeysUnique(slots: seq<Entry>, sure: iset<Key>) {
    forall i, j :: 0 <= i < j < |slots| && Hashed(slots[i]) && Hashed(slots[j]) && KeyOf(slots[i]) in sure ==>
                     KeyOf(slots[i]) != KeyOf(slots[j])
  }

  /** The chained entries of the new slots were chained before, in the same place and with the same key. */
  ghost predicate NoNewKeys(slots: seq<Entry>, slots': seq<Entry>) {
    |slots'| == |slots| &&
    forall i :: 0 <= i < |slots| && Hashed(slots'[i]) ==> Hashed(slots[i]) && KeyOf(slots'[i]) == KeyOf(slots[i])
  }

  lemma StillUnique(slots: seq<Entry>, slots': seq<Entry>, sure: iset<Key>)
    requires KeysUnique(slots, sure) && NoNewKeys(slots, slots')
    ensures KeysUnique(slots', sure)
  {
  }

  predicate HashedAt(slots: seq<Entry>, x: nat) {
    x < |slots| && Hashed(slots[x])
  }

  /** List p holds exactly the slots of partition p that are not in transition, unchained ones first. */
  ghost predicate LruOk(geo: Geometry, slots: seq<Entry>, p: nat, s: seq<nat>) {
    NoDup(s) &&
    (forall x :: x in s ==> x < |slots| && Part(geo, x) == p && !slots[x].inTrans) &&
    (forall x :: 0 <= x < |slots| && Part(geo, x) == p && !slots[x].inTrans ==> x in s) &&
    (forall a, b :: 0 <= a < b < |s| && HashedAt(slots, s[a]) ==> HashedAt(slots, s[b]))
  }

  ghost predicate LrusOk(t: Table) {
    |t.lru| == 3 && forall p :: 0 <= p < 3 ==> LruOk(t.geo, t.slots, p, t.lru[p])
  }

  ghost predicate TableInv(t: Table) {
    SlotsOk(t) && LrusOk(t)
  }

  ghost predicate Absent(t: Table, k: Key) {
    forall i :: 0 <= i < |t.slots| && Hashed(t.slots[i]) ==> !Matches(t.slots[i], k)
  }

  // ---- The locked steps ----

  ghost function PosOf(s: seq<nat>, x: nat): (k: nat)
    requires x in s
    ensures k < |s| && s[k] == x
  {
    var k :| 0 <= k < |s| && s[k] == x;
    k
  }

  ghost function Without(s: seq<nat>, x: nat): seq<nat> {
    if x in s then Delete(s, PosOf(s, x)) else s
  }

  function Dropped(t: Table, i: nat): int
    requires i < |t.slots|
  {
    if Hashed(t.slots[i]) && Other(t.slots[i]) then 1 else 0
  }

  /** Take slot i off its chain and its LRU list and mark it in transition. */
  ghost function Detach(t: Table, i: nat): Table
    requires i < |t.slots| && |t.lru| == 3
  {
    var p := Part(t.geo, i);
    t.(slots := t.slots[i := t.slots[i].(inTrans := true, hash := NIL)],
       lru := t.lru[p := Without(t.lru[p], i)], noentOther := t.noentOther - Dropped(t, i))
  }

  /** mfs_dncrele on a private slot. */
  function Cleared(e: Entry): Entry {
    e.(dvw := None, vvw := None, name := [], flags := Flags(false, false, false, false))
  }

  /** Release slot i's contents and put it back at the front of its LRU list. */
  function Release(t: Table, i: nat): Table
    requires i < |t.slots| && |t.lru| == 3
  {
    var p := Part(t.geo, i);
    t.(slots := t.slots[i := Cleared(t.slots[i]).(inTrans := false)], lru := t.lru[p := [i] + t.lru[p]])
  }

  /** Put the filled slot i on its chain and at the back of its LRU list. */
  function Publish(t: Table, i: nat, e: Entry): Table
    requires i < |t.slots| && |t.lru| == 3
  {
    var p := Part(t.geo, i);
    t.(slots := t.slots[i := e], lru := t.lru[p := t.lru[p] + [i]],
       noentOther := t.noentOther + if Other(e) then 1 else 0)
  }

  /** Move slot i to the back of its LRU list. */
  ghost function Touch(t: Table, i: nat): Table
    requires i < |t.slots| && |t.lru| == 3
  {
    var p := Part(t.geo, i);
    t.(lru := t.lru[p := Without(t.lru[p], i) + [i]])
  }

  /** Change an entry in place. */
  function Amend(t: Table, i: nat, e: Entry): Table
    requires i < |t.slots|
  {
    t.(slots := t.slots[i := e])
  }

  function Invalidated(e: Entry): Entry {
    e.(invalid := true, ring := e.ring.(nullbh := false))
  }

  /** A scan that invalidates the used entries satisfying a test, from slot lo up to hi. */
  function Sweep(t: Table, lo: nat, hi: nat, test: Entry -> bool): Table {
    t.(slots := seq(|t.slots|, i requires 0 <= i < |t.slots| =>
         var e := t.slots[i];
         if lo <= i < hi && !e.inTrans && !Unused(e) && test(e) then Invalidated(e) else e))
  }

  /** The single-chain walk of mfs_dnc_inval_case_synonyms. */
  function SweepSynonyms(t: Table, k: Key): Table
    requires t.geo.hashSize > 0
  {
    var c := KeyChain(k, t.geo.hashSize);
    t.(slots := seq(|t.slots|, i requires 0 <= i < |t.slots| =>
         var e := t.slots[i];
         if e.hash == c && Synonym(e, k) then e.(invalid := true) else e))
  }

  // ---- Each step keeps the table invariant ----

  lemma DeleteMembers(s: seq<nat>, k: nat)
    requires NoDup(s) && k < |s|
    ensures NoDup(Delete(s, k))
    ensures forall x :: x in Delete(s, k) <==> x in s && x != s[k]
  {
    var s' := Delete(s, k);
    forall x | x in s && x != s[k] ensures x in s' {
      var i :| 0 <= i < |s| && s[i] == x;
      assert s'[if i < k then i else i - 1] == x;
    }
    forall x | x in s' ensures x in s && x != s[k] {
      var i :| 0 <= i < |s'| && s'[i] == x;
      assert s[if i < k then i else i + 1] == x;
    }
  }

  lemma LruFrame(geo: Geometry, slots: seq<Entry>, i: nat, e: Entry, q: nat, s: seq<nat>)
    requires i < |slots| && LruOk(geo, slots, q, s)
    requires Part(geo, i) != q || (e.inTrans == slots[i].inTrans && Hashed(e) == Hashed(slots[i]))
    ensures LruOk(geo, slots[i := e], q, s)
  {
    assert forall a :: 0 <= a < |s| ==> s[a] in s;
  }

  lemma LruDrop(geo: Geometry, slots: seq<Entry>, i: nat, e: Entry, s: seq<nat>)
    requires i < |slots| && LruOk(geo, slots, Part(geo, i), s) && !slots[i].inTrans && e.inTrans
    ensures LruOk(geo, slots[i := e], Part(geo, i), Without(s, i))
  {
    DeleteMembers(s, PosOf(s, i));
    LruDropOrder(slots, i, e, s);
  }

  lemma LruDropOrder(slots: seq<Entry>, i: nat, e: Entry, s: seq<nat>)
    requires i < |slots| && NoDup(s) && i in s
    requires forall a, b :: 0 <= a < b < |s| && HashedAt(slots, s[a]) ==> HashedAt(slots, s[b])
    ensures var d := Without(s, i);
            forall a, b :: 0 <= a < b < |d| && HashedAt(slots[i := e], d[a]) ==> HashedAt(slots[i := e], d[b])
  {
    var d := Without(s, i);
    forall a, b | 0 <= a < b < |d| && HashedAt(slots[i := e], d[a]) ensures HashedAt(slots[i := e], d[b]) {
      var a' := Shifted(s, i, a);
      var b' := Shifted(s, i, b);
      assert HashedAt(slots, s[a']) ==> HashedAt(slots, s[b']);
    }
  }

  /** Where an element of the shortened list stood before. */
  lemma Shifted(s: seq<nat>, i: nat, a: nat) returns (a': nat)
    requires NoDup(s) && i in s && a < |s| - 1
    ensures a <= a' <= a + 1 && a' < |s| && Without(s, i)[a] == s[a'] != i && (a' == a <==> a < PosOf(s, i))
  {
    a' := if a < PosOf(s, i) then a else a + 1;
  }

  lemma LruFront(geo: Geometry, slots: seq<Entry>, i: nat, e: Entry, s: seq<nat>)
    requires i < |slots| && LruOk(geo, slots, Part(geo, i), s) && slots[i].inTrans && !e.inTrans && !Hashed(e)
    ensures LruOk(geo, slots[i := e], Part(geo, i), [i] + s)
  {
    assert forall a :: 0 <= a < |s| ==> s[a] in s;
  }

  lemma LruBack(geo: Geometry, slots: seq<Entry>, i: nat, e: Entry, s: seq<nat>)
    requires i < |slots| && LruOk(geo, slots, Part(geo, i), s) && slots[i].inTrans && !e.inTrans && Hashed(e)
    ensures LruOk(geo, slots[i := e], Part(geo, i), s + [i])
  {
    assert forall a :: 0 <= a < |s| ==> s[a] in s;
  }

  /** The lists of a table after slot i changed and its own list was replaced. */
  lemma LrusFrom(t: Table, i: nat, e: Entry, s: seq<nat>)
    requires LrusOk(t) && i < |t.slots| && LruOk(t.geo, t.slots[i := e], Part(t.geo, i), s)
    ensures LrusOk(t.(slots := t.slots[i := e], lru := t.lru[Part(t.geo, i) := s]))
  {
    forall q | 0 <= q < 3 && q != Part(t.geo, i) ensures LruOk(t.geo, t.slots[i := e], q, t.lru[q]) {
      LruFrame(t.geo, t.slots, i, e, q, t.lru[q]);
    }
  }

  lemma DetachInv(t: Table, i: nat)
    requires TableInv(t) && i < |t.slots| && !t.slots[i].inTrans
    ensures TableInv(Detach(t, i))
  {
    var p, e := Part(t.geo, i), t.slots[i].(inTrans := true, hash := NIL);
    LruDrop(t.geo, t.slots, i, e, t.lru[p]);
    LrusFrom(t, i, e, Without(t.lru[p], i));
  }

  lemma ReleaseInv(t: Table, i: nat)
    requires TableInv(t) && i < |t.slots| && t.slots[i].inTrans
    ensures TableInv(Release(t, i))
  {
    var p, e := Part(t.geo, i), Cleared(t.slots[i]).(inTrans := false);
    assert SlotOk(t.geo, i, t.slots[i]);
    LruFront(t.geo, t.slots, i, e, t.lru[p]);
    LrusFrom(t, i, e, [i] + t.lru[p]);
  }

  lemma PublishInv(t: Table, i: nat, e: Entry)
    requires TableInv(t) && i < |t.slots| && t.slots[i].inTrans
    requires Hashed(e) && EntryOk(t.geo, i, e)
    ensures TableInv(Publish(t, i, e))
  {
    var p := Part(t.geo, i);
    LruBack(t.geo, t.slots, i, e, t.lru[p]);
    LrusFrom(t, i, e, t.lru[p] + [i]);
  }

  /** Publishing an entry whose key is absent keeps keys unique. */
  lemma PublishUnique(t: Table, i: nat, e: Entry, sure: iset<Key>)
    requires SlotsOk(t) && i < |t.slots| && EntryOk(t.geo, i, e) && KeysUnique(t.slots, sure)
    requires KeyOf(e) in sure ==> Absent(t, KeyOf(e))
    ensures KeysUnique(t.slots[i := e], sure)
  {
    forall j | 0 <= j < |t.slots| && j != i && Hashed(t.slots[j])
      ensures KeyOf(e) in sure ==> KeyOf(t.slots[j]) != KeyOf(e)
    {
      assert SlotOk(t.geo, j, t.slots[j]);
    }
  }

  lemma TouchInv(t: Table, i: nat)
    requires TableInv(t) && i < |t.slots| && Hashed(t.slots[i])
    ensures TableInv(Touch(t, i))
  {
    var p, e := Part(t.geo, i), t.slots[i].(inTrans := true);
    assert SlotOk(t.geo, i, t.slots[i]);
    LruDrop(t.geo, t.slots, i, e, t.lru[p]);
    LruBack(t.geo, t.slots[i := e], i, t.slots[i], Without(t.lru[p], i));
    assert t.slots[i := e][i := t.slots[i]] == t.slots == t.slots[i := t.slots[i]];
    LrusFrom(t, i, t.slots[i], Without(t.lru[p], i) + [i]);
  }

  /** What an in-place change may not touch. */
  predicate SamePlace(e: Entry, e': Entry) {
    e'.inTrans == e.inTrans && e'.hash == e.hash && e'.dvw == e.dvw && e'.vfs == e.vfs && e'.dfid == e.dfid &&
    e'.name == e.name && e'.vvw == e.vvw && e'.vfid == e.vfid && e'.evtime == e.evtime &&
    e'.flags.rvc == e.flags.rvc && e'.ring.bhx < |e'.ring.bh| == |e.ring.bh|
  }

  lemma AmendInv(t: Table, i: nat, e: Entry)
    requires TableInv(t) && i < |t.slots| && Hashed(t.slots[i]) && SamePlace(t.slots[i], e)
    ensures TableInv(Amend(t, i, e))
  {
    assert SlotOk(t.geo, i, t.slots[i]);
    LruFrame(t.geo, t.slots, i, e, Part(t.geo, i), t.lru[Part(t.geo, i)]);
    LrusFrom(t, i, e, t.lru[Part(t.geo, i)]);
    assert t.lru == t.lru[Part(t.geo, i) := t.lru[Part(t.geo, i)]];
  }

  /** A table that differs only in the invalid bit and null-handle flag of some entries. */
  ghost predicate OnlyInvalidated(t: Table, t': Table) {
    t'.geo == t.geo && t'.lru == t.lru && t'.noentOther == t.noentOther && |t'.slots| == |t.slots| &&
    forall i :: 0 <= i < |t.slots| ==>
      t'.slots[i] == t.slots[i] || t'.slots[i] == Invalidated(t.slots[i]) || t'.slots[i] == t.slots[i].(invalid := true)
  }

  lemma OnlyInvalidatedInv(t: Table, t': Table)
    requires TableInv(t) && OnlyInvalidated(t, t')
    ensures TableInv(t')
  {
    forall i | 0 <= i < |t'.slots| ensures SlotOk(t'.geo, i, t'.slots[i]) {
      assert SlotOk(t.geo, i, t.slots[i]);
    }
    forall q | 0 <= q < 3 ensures LruOk(t'.geo, t'.slots, q, t'.lru[q]) {
      assert LruOk(t.geo, t.slots, q, t.lru[q]);
      assert forall a :: 0 <= a < |t.lru[q]| ==> t.lru[q][a] in t.lru[q];
    }
  }

  lemma SweepsOnlyInvalidate(t: Table, lo: nat, hi: nat, test: Entry -> bool)
    ensures OnlyInvalidated(t, Sweep(t, lo, hi, test))
  {
  }

  lemma SynonymSweepOnlyInvalidates(t: Table, k: Key)
    requires t.geo.hashSize > 0
    ensures OnlyInvalidated(t, SweepSynonyms(t, k))
  {
  }
}
