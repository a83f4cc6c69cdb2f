/**
  Every step of the name cache protocol keeps its invariant; hence every run does.
 */
module DncRunProofs {
  import opened BuildHandles
  import opened DncRun
  import opened DncTable
  import opened NameHash
  import opened Rings

  // ---- The count of "other" not-found entries ----

  function Ind(e: Entry): int { if Hashed(e) && Other(e) then 1 else 0 }

  lemma {:induction false} CountUpdate(slots: seq<Entry>, i: nat, e: Entry)
    requires i < |slots|
    ensures OtherCount(slots[i := e]) == OtherCount(slots) - Ind(slots[i]) + Ind(e)
  {
    var n := |slots| - 1;
    if i == n {
      assert slots[i := e][..n] == slots[..n];
    } else {
      assert slots[i := e][..n] == slots[..n][i := e];
      CountUpdate(slots[..n], i, e);
    }
  }

  lemma {:induction false} CountSame(slots: seq<Entry>, slots': seq<Entry>)
    requires |slots| == |slots'| && forall i :: 0 <= i < |slots| ==> Ind(slots[i]) == Ind(slots'[i])
    ensures OtherCount(slots) == OtherCount(slots')
  {
    if slots != [] {
      var n := |slots| - 1;
      assert Ind(slots[n]) == Ind(slots'[n]);
      CountSame(slots[..n], slots'[..n]);
    }
  }

  lemma {:induction false} CountZero(slots: seq<Entry>, i: nat)
    requires OtherCount(slots) == 0 && i < |slots|
    ensures Ind(slots[i]) == 0
  {
    if i < |slots| - 1 { CountZero(slots[..|slots| - 1], i); }
  }

  // ---- LRU order against the time of last use ----

  ghost predicate Sorted(slots: seq<Entry>, stamp: seq<nat>, s: seq<nat>) {
    forall a, b :: 0 <= a < b < |s| && HashedAt(slots, s[a]) ==>
                     s[b] < |stamp| == |slots| && stamp[s[a]] < stamp[s[b]]
  }

  lemma StampsFrom(w: World, w': World, i: nat, e: Entry, s: seq<nat>)
    requires StampsOk(w) && LrusOk(w.t) && i < |w.t.slots| && w'.t.geo == w.t.geo
    requires w'.t.slots == w.t.slots[i := e] && w'.t.lru == w.t.lru[Part(w.t.geo, i) := s]
    requires |w'.stamp| == |w.stamp| && w'.clock >= w.clock
    requires forall j :: 0 <= j < |w.stamp| && j != i ==> w'.stamp[j] == w.stamp[j]
    requires w'.stamp[i] < w'.clock
    requires Sorted(w'.t.slots, w'.stamp, s)
    ensures StampsOk(w')
  {
    forall p, a, b | 0 <= p < 3 && 0 <= a < b < |w'.t.lru[p]| && HashedAt(w'.t.slots, w'.t.lru[p][a])
      ensures w'.t.lru[p][b] < |w'.stamp| && w'.stamp[w'.t.lru[p][a]] < w'.stamp[w'.t.lru[p][b]]
    {
      if p != Part(w.t.geo, i) {
        assert LruOk(w.t.geo, w.t.slots, p, w.t.lru[p]);
        assert w.t.lru[p][a] in w.t.lru[p] && w.t.lru[p][b] in w.t.lru[p];
      }
    }
  }

  lemma SortedDrop(geo: Geometry, slots: seq<Entry>, stamp: seq<nat>, s: seq<nat>, i: nat, e: Entry, p: nat)
    requires LruOk(geo, slots, p, s) && i < |slots| == |stamp| && i in s && Sorted(slots, stamp, s)
    ensures Sorted(slots[i := e], stamp, Without(s, i))
  {
    var k, d, slots' := PosOf(s, i), Without(s, i), slots[i := e];
    DeleteMembers(s, k);
    forall a, b | 0 <= a < b < |d| && HashedAt(slots', d[a])
      ensures d[b] < |stamp| && stamp[d[a]] < stamp[d[b]]
    {
      var a', b' := if a < k then a else a + 1, if b < k then b else b + 1;
      assert d[a] == s[a'] && d[b] == s[b'] && d[a] in d && d[b] in d;
      assert HashedAt(slots, s[a']);
    }
  }

  lemma SortedBack(geo: Geometry, slots: seq<Entry>, stamp: seq<nat>, s: seq<nat>, i: nat, e: Entry, p: nat, clock: nat)
    requires LruOk(geo, slots, p, s) && i < |slots| == |stamp| && i !in s && Sorted(slots, stamp, s)
    requires forall j :: 0 <= j < |stamp| ==> stamp[j] < clock
    ensures Sorted(slots[i := e], stamp[i := clock], s + [i])
  {
    assert forall a :: 0 <= a < |s| ==> s[a] in s;
  }

  // ---- Threads other than the one that moves ----

  /** A chained entry of the new table is an old one, or has the key that tid is adding. */
  ghost predicate KeysFrom(w: World, w': World, tid: nat) {
    forall j :: 0 <= j < |w'.t.slots| && Hashed(w'.t.slots[j]) ==>
      (j < |w.t.slots| && Hashed(w.t.slots[j]) && KeyOf(w.t.slots[j]) == KeyOf(w'.t.slots[j])) ||
      AddsKey(w, tid, KeyOf(w'.t.slots[j]))
  }

  lemma AbsentFrame(w: World, w': World, tid: nat, r: Req)
    requires SlotsOk(w.t) && SlotsOk(w'.t) && KeysFrom(w, w', tid) && !AddsKey(w, tid, r.key)
    requires Absent(w.t, r.key)
    ensures Absent(w'.t, r.key)
  {
    forall j | 0 <= j < |w'.t.slots| && Hashed(w'.t.slots[j]) ensures !Matches(w'.t.slots[j], r.key) {
      ChainAnswersForTable(w'.t, r.key, j);
      if j < |w.t.slots| && Hashed(w.t.slots[j]) { ChainAnswersForTable(w.t, r.key, j); }
    }
  }

  ghost predicate OthersKept(w: World, w': World, tid: nat) {
    w'.target == w.target && w'.t.geo == w.t.geo && w'.sure == w.sure &&
    (forall a :: a != tid ==> (a in w'.phase <==> a in w.phase)) &&
    (forall a :: a in w.phase && a != tid ==>
       w'.phase[a] == w.phase[a] && (HasSlot(w.phase[a]) ==> Private(w', w.phase[a].slot))) &&
    (forall a, d :: a != tid && Owns(w, a, d) ==> Owns(w', a, d))
  }

  /** A thread that begins an add of a sure key is alone in it. */
  ghost predicate Quiet(w: World, w': World, tid: nat) {
    forall k, b :: AddsKey(w', tid, k) && k in w.sure && b != tid ==> AddsKey(w, tid, k) || !AddsKey(w, b, k)
  }

  lemma AddersFrame(w: World, w': World, tid: nat)
    requires OneAdder(w) && Quiet(w, w', tid) && w'.sure == w.sure
    requires forall a :: a != tid && a in w'.phase ==> a in w.phase && w'.phase[a] == w.phase[a]
    ensures OneAdder(w')
  {
    forall a, b, k | AddsKey(w', a, k) && AddsKey(w', b, k) && k in w'.sure ensures a == b {
      assert a != tid ==> AddsKey(w, a, k);
      assert b != tid ==> AddsKey(w, b, k);
    }
  }

  lemma PhasesFrame(w: World, w': World, tid: nat)
    requires SlotsOk(w.t) && SlotsOk(w'.t) && PhasesOk(w) && OthersKept(w, w', tid) && KeysFrom(w, w', tid)
    requires tid in w'.phase ==> PhaseOk(w', tid, w'.phase[tid])
    requires tid in w'.phase && HasSlot(w'.phase[tid]) ==>
      (tid in w.phase && HasSlot(w.phase[tid]) && w'.phase[tid].slot == w.phase[tid].slot) ||
       !Private(w, w'.phase[tid].slot)
    requires Quiet(w, w', tid)
    ensures PhasesOk(w')
  {
    forall a | a in w'.phase && a != tid ensures PhaseOk(w', a, w'.phase[a]) {
      assert PhaseOk(w, a, w.phase[a]);
      if Adding(w.phase[a]) && w.phase[a].req.key in w.sure {
        assert AddsKey(w, a, w.phase[a].req.key);
        AbsentFrame(w, w', tid, w.phase[a].req);
      }
    }
    forall a | a in w.phase && HasSlot(w.phase[a]) ensures Private(w, w.phase[a].slot) {
      HeldIsPrivate(w, a);
    }
    AddersFrame(w, w', tid);
  }

  /** Thread tid changes slot i, which is its own or was not in transition. */
  lemma PhasesOneSlot(w: World, w': World, tid: nat, i: nat, e: Entry)
    requires SlotsOk(w.t) && SlotsOk(w'.t) && PhasesOk(w) && i < |w.t.slots| && w'.t.geo == w.t.geo
    requires w'.t.slots == w.t.slots[i := e] && w'.locks == w.locks && w'.target == w.target && w'.sure == w.sure
    requires Quiet(w, w', tid)
    requires w'.phase == w.phase - {tid} ||
             (tid in w'.phase && w'.phase == w.phase[tid := w'.phase[tid]] && PhaseOk(w', tid, w'.phase[tid]))
    requires tid in w'.phase && HasSlot(w'.phase[tid]) ==>
               w'.phase[tid].slot == i || (tid in w.phase && HasSlot(w.phase[tid]) &&
               w.phase[tid].slot == w'.phase[tid].slot)
    requires !Private(w, i) || (tid in w.phase && HasSlot(w.phase[tid]) && w.phase[tid].slot == i)
    requires Hashed(e) ==> SlotOk(w.t.geo, i, e) && SlotOk(w.t.geo, i, w.t.slots[i])
    requires !Hashed(e) || (Hashed(w.t.slots[i]) && KeyOf(e) == KeyOf(w.t.slots[i])) || AddsKey(w, tid, KeyOf(e))
    ensures PhasesOk(w')
  {
    forall a | a in w.phase && HasSlot(w.phase[a]) ensures Private(w, w.phase[a].slot) {
      HeldIsPrivate(w, a);
    }
    OneSlotOthers(w, w', tid, i, e);
    assert KeysFrom(w, w', tid);
    PhasesFrame(w, w', tid);
  }

  lemma HeldIsPrivate(w: World, a: nat)
    requires PhasesOk(w) && a in w.phase && HasSlot(w.phase[a])
    ensures Private(w, w.phase[a].slot)
  {
    assert PhaseOk(w, a, w.phase[a]);
  }

  lemma OneSlotOthers(w: World, w': World, tid: nat, i: nat, e: Entry)
    requires forall a :: a in w.phase && HasSlot(w.phase[a]) ==> Private(w, w.phase[a].slot)
    requires forall a, b :: a in w.phase && b in w.phase && a != b && HasSlot(w.phase[a]) && HasSlot(w.phase[b]) ==>
               w.phase[a].slot != w.phase[b].slot
    requires i < |w.t.slots| && w'.t.geo == w.t.geo
    requires w'.t.slots == w.t.slots[i := e] && w'.locks == w.locks && w'.target == w.target && w'.sure == w.sure
    requires w'.phase == w.phase - {tid} || (tid in w'.phase && w'.phase == w.phase[tid := w'.phase[tid]])
    requires !Private(w, i) || (tid in w.phase && HasSlot(w.phase[tid]) && w.phase[tid].slot == i)
    ensures OthersKept(w, w', tid)
  {
  }

  // ---- One kind of change at a time ----

  lemma CountDetach(t: Table, i: nat)
    requires i < |t.slots| && |t.lru| == 3
    ensures OtherCount(Detach(t, i).slots) == OtherCount(t.slots) - Dropped(t, i)
  {
    CountUpdate(t.slots, i, t.slots[i].(inTrans := true, hash := NIL));
  }

  lemma DetachStamps(w: World, w': World, i: nat)
    requires TableInv(w.t) && StampsOk(w) && i < |w.t.slots| && !w.t.slots[i].inTrans
    requires w'.t == Detach(w.t, i) && w'.stamp == w.stamp && w'.clock == w.clock
    ensures StampsOk(w')
  {
    var p, e := Part(w.t.geo, i), w.t.slots[i].(inTrans := true, hash := NIL);
    assert LruOk(w.t.geo, w.t.slots, p, w.t.lru[p]);
    SortedDrop(w.t.geo, w.t.slots, w.stamp, w.t.lru[p], i, e, p);
    StampsFrom(w, w', i, e, Without(w.t.lru[p], i));
  }

  /** Removing the key of an entry that left the table disturbs no other entry. */
  lemma DetachAgrees(w: World, w': World, i: nat)
    requires KeysUnique(w.t.slots, w.sure) && TableInv(w'.t) && i < |w.t.slots| && |w.t.lru| == 3
    requires w'.t == Detach(w.t, i) && Agrees(w) && w'.sure == w.sure
    requires w'.last == w.last || (Hashed(w.t.slots[i]) && SlotOk(w.t.geo, i, w.t.slots[i]) &&
             w'.last == w.last - {KeyOf(w.t.slots[i])})
    ensures Agrees(w')
  {
    forall j | 0 <= j < |w'.t.slots| && Hashed(w'.t.slots[j]) && !w'.t.slots[j].invalid &&
        KeyOf(w'.t.slots[j]) in w'.sure
      ensures AgreesAt(w', w'.t.slots[j])
    {
      assert j != i && AgreesAt(w, w.t.slots[j]);
    }
  }

  /** Slot i becomes private to a thread that had no slot. */
  lemma DetachStep(w: World, w': World, tid: nat, i: nat)
    requires WInv(w) && i < |w.t.slots| && !w.t.slots[i].inTrans
    requires tid in w'.phase && HasSlot(w'.phase[tid]) && w'.phase[tid].slot == i
    requires w' == w.(t := Detach(w.t, i), phase := w.phase[tid := w'.phase[tid]], last := w'.last)
    requires PhaseOk(w', tid, w'.phase[tid]) && Quiet(w, w', tid)
    requires w'.last == w.last || (Hashed(w.t.slots[i]) && SlotOk(w.t.geo, i, w.t.slots[i]) &&
             w'.last == w.last - {KeyOf(w.t.slots[i])})
    ensures WInv(w')
  {
    DetachInv(w.t, i);
    StillUnique(w.t.slots, w'.t.slots, w.sure);
    CountDetach(w.t, i);
    DetachStamps(w, w', i);
    PhasesOneSlot(w, w', tid, i, w'.t.slots[i]);
    if w.exact { DetachAgrees(w, w', i); }
  }

  lemma ReleaseStep(w: World, w': World, tid: nat, i: nat)
    requires WInv(w) && tid in w.phase && HasSlot(w.phase[tid]) && w.phase[tid].slot == i && Private(w, i)
    requires w'.phase == w.phase - {tid} || (w.phase[tid].AddReturn? &&
             w'.phase == w.phase[tid := AddTake(w.phase[tid].req)])
    requires w' == w.(t := Release(w.t, i), phase := w'.phase)
    ensures WInv(w')
  {
    var p, e := Part(w.t.geo, i), Cleared(w.t.slots[i]).(inTrans := false);
    assert SlotOk(w.t.geo, i, w.t.slots[i]) && PhaseOk(w, tid, w.phase[tid]);
    ReleaseInv(w.t, i);
    StillUnique(w.t.slots, w'.t.slots, w.sure);
    CountUpdate(w.t.slots, i, e);
    ReleaseStamps(w, w', i);
    PhasesOneSlot(w, w', tid, i, e);
    if w.exact { ReleaseAgrees(w, w', i); }
  }

  lemma ReleaseAgrees(w: World, w': World, i: nat)
    requires TableInv(w.t) && SlotsOk(w'.t) && Private(w, i) && w'.t == Release(w.t, i)
    requires Agrees(w) && w'.last == w.last && w'.sure == w.sure
    ensures Agrees(w')
  {
    forall j | 0 <= j < |w'.t.slots| && Hashed(w'.t.slots[j]) && !w'.t.slots[j].invalid &&
        KeyOf(w'.t.slots[j]) in w'.sure
      ensures AgreesAt(w', w'.t.slots[j])
    {
      assert j != i && AgreesAt(w, w.t.slots[j]);
    }
  }

  lemma ReleaseStamps(w: World, w': World, i: nat)
    requires TableInv(w.t) && StampsOk(w) && Private(w, i)
    requires w'.t == Release(w.t, i) && w'.stamp == w.stamp && w'.clock == w.clock
    ensures StampsOk(w')
  {
    var p, e := Part(w.t.geo, i), Cleared(w.t.slots[i]).(inTrans := false);
    assert SlotOk(w.t.geo, i, w.t.slots[i]) && LruOk(w.t.geo, w.t.slots, p, w.t.lru[p]);
    assert forall a :: 0 <= a < |w.t.lru[p]| ==> w.t.lru[p][a] in w.t.lru[p];
    StampsFrom(w, w', i, e, [i] + w.t.lru[p]);
  }

  // ---- Changes in place ----

  lemma AmendStamps(w: World, w': World, i: nat, e: Entry)
    requires TableInv(w.t) && StampsOk(w) && i < |w.t.slots| && Hashed(e) == Hashed(w.t.slots[i])
    requires w'.t == Amend(w.t, i, e) && w'.stamp == w.stamp && w'.clock == w.clock
    ensures StampsOk(w')
  {
    var p := Part(w.t.geo, i);
    assert LruOk(w.t.geo, w.t.slots, p, w.t.lru[p]);
    assert w.t.lru[p := w.t.lru[p]] == w.t.lru;
    StampsFrom(w, w', i, e, w.t.lru[p]);
  }

  lemma AmendStep(w: World, w': World, tid: nat, i: nat, e: Entry)
    requires WInv(w) && tid !in w.phase && i < |w.t.slots| && Hashed(w.t.slots[i]) && SamePlace(w.t.slots[i], e)
    requires w' == w.(t := Amend(w.t, i, e), last := w'.last, drift := w'.drift)
    requires w'.drift == w.drift + Delta(Other(w.t.slots[i]), Other(e))
    requires w'.exact && SlotsOk(w'.t) ==> Agrees(w')
    ensures WInv(w')
  {
    assert SlotOk(w.t.geo, i, w.t.slots[i]);
    AmendInv(w.t, i, e);
    StillUnique(w.t.slots, w'.t.slots, w.sure);
    CountUpdate(w.t.slots, i, e);
    AmendStamps(w, w', i, e);
    assert SlotOk(w'.t.geo, i, e);
    assert w.phase - {tid} == w.phase;
    PhasesOneSlot(w, w', tid, i, e);
  }

  /** A change of one entry agrees when it has its key's binding and no other key's binding moved. */
  lemma AmendAgrees(w: World, w': World, i: nat, e: Entry)
    requires KeysUnique(w.t.slots, w.sure) && SlotsOk(w'.t) && i < |w.t.slots|
    requires Hashed(w.t.slots[i]) && w'.t == Amend(w.t, i, e) && w'.sure == w.sure
    requires SlotOk(w.t.geo, i, e) && SlotOk(w.t.geo, i, w.t.slots[i]) && Hashed(e) && KeyOf(e) == KeyOf(w.t.slots[i])
    requires Agrees(w) && (e.invalid || AgreesAt(w', e))
    requires forall k :: k in w.last && k != KeyOf(e) ==> k in w'.last && w'.last[k] == w.last[k]
    ensures Agrees(w')
  {
    forall j | 0 <= j < |w'.t.slots| && Hashed(w'.t.slots[j]) && !w'.t.slots[j].invalid &&
        KeyOf(w'.t.slots[j]) in w'.sure
      ensures AgreesAt(w', w'.t.slots[j])
    {
      if j != i { assert AgreesAt(w, w.t.slots[j]); }
    }
  }

  // ---- Insertion and hits ----

  lemma FilledOk(target: Key -> View, geo: Geometry, i: nat, r: Req)
    requires geo.hashSize > 0 && ReqOk(target, r) && Part(geo, i) == r.kind
    ensures var e := Filled(target, geo.hashSize, r);
            Hashed(e) && EntryOk(geo, i, e) && KeyOf(e) == r.key &&
            TargetOk(target, e)
  {
  }

  lemma InsertStamps(w: World, w': World, i: nat, e: Entry)
    requires TableInv(w.t) && StampsOk(w) && Private(w, i)
    requires w'.t == Publish(w.t, i, e) && w'.stamp == w.stamp[i := w.clock] && w'.clock == w.clock + 1
    ensures StampsOk(w')
  {
    var p := Part(w.t.geo, i);
    assert LruOk(w.t.geo, w.t.slots, p, w.t.lru[p]);
    SortedBack(w.t.geo, w.t.slots, w.stamp, w.t.lru[p], i, e, p, w.clock);
    StampsFrom(w, w', i, e, w.t.lru[p] + [i]);
  }

  lemma InsertAgrees(w: World, w': World, i: nat, r: Req)
    requires TableInv(w.t) && TableInv(w'.t) && Private(w, i) && (r.key in w.sure ==> Absent(w.t, r.key))
    requires Agrees(w) && w'.sure == w.sure
    requires var e := Filled(w.target, w.t.geo.hashSize, r);
             Hashed(e) && EntryOk(w.t.geo, i, e) &&
             KeyOf(e) == r.key && w'.t == Publish(w.t, i, e)
    requires w'.last == w.last[r.key := BindingOf(r)]
    ensures Agrees(w')
  {
    forall j | 0 <= j < |w'.t.slots| && Hashed(w'.t.slots[j]) && !w'.t.slots[j].invalid &&
        KeyOf(w'.t.slots[j]) in w'.sure
      ensures AgreesAt(w', w'.t.slots[j])
    {
      if j != i {
        assert AgreesAt(w, w.t.slots[j]);
        ChainAnswersForTable(w.t, r.key, j);
      }
    }
  }

  lemma InsertInv(w: World, tid: nat, r: Req, i: nat)
    requires WInv(w) && tid in w.phase && w.phase[tid] == AddInsert(r, i)
    ensures PhaseOk(w, tid, w.phase[tid]) && WInv(InsertStep(w, tid, r, i))
  {
    assert PhaseOk(w, tid, w.phase[tid]);
    var w', e := InsertStep(w, tid, r, i), Filled(w.target, w.t.geo.hashSize, r);
    FilledOk(w.target, w.t.geo, i, r);
    assert SlotOk(w.t.geo, i, w.t.slots[i]);
    PublishInv(w.t, i, e);
    PublishUnique(w.t, i, e, w.sure);
    assert AddsKey(w, tid, r.key);
    CountUpdate(w.t.slots, i, e);
    InsertStamps(w, w', i, e);
    PhasesOneSlot(w, w', tid, i, e);
    if w.exact { InsertAgrees(w, w', i, r); }
  }

  lemma TouchStamps(w: World, w': World, i: nat)
    requires TableInv(w.t) && StampsOk(w) && i < |w.t.slots| && Hashed(w.t.slots[i])
    requires w'.t == Touch(w.t, i) && w'.stamp == w.stamp[i := w.clock] && w'.clock == w.clock + 1
    ensures StampsOk(w')
  {
    var p, e := Part(w.t.geo, i), w.t.slots[i].(inTrans := true);
    assert SlotOk(w.t.geo, i, w.t.slots[i]) && LruOk(w.t.geo, w.t.slots, p, w.t.lru[p]);
    SortedDrop(w.t.geo, w.t.slots, w.stamp, w.t.lru[p], i, e, p);
    LruDrop(w.t.geo, w.t.slots, i, e, w.t.lru[p]);
    SortedBack(w.t.geo, w.t.slots[i := e], w.stamp, Without(w.t.lru[p], i), i, w.t.slots[i], p, w.clock);
    assert w.t.slots[i := e][i := w.t.slots[i]] == w.t.slots == w.t.slots[i := w.t.slots[i]];
    StampsFrom(w, w', i, w.t.slots[i], Without(w.t.lru[p], i) + [i]);
  }

  lemma SameAdders(w: World, w': World)
    requires OneAdder(w) && w'.sure == w.sure && w'.phase.Keys == w.phase.Keys
    requires forall a :: a in w.phase && Adding(w'.phase[a]) ==> Adding(w.phase[a]) && w'.phase[a].req == w.phase[a].req
    ensures OneAdder(w')
  {
    forall a, b, k | AddsKey(w', a, k) && AddsKey(w', b, k) && k in w'.sure ensures a == b {
      assert AddsKey(w, a, k) && AddsKey(w, b, k);
    }
  }

  lemma PhasesSameSlots(w: World, w': World)
    requires SlotsOk(w.t) && PhasesOk(w) && w'.t.geo == w.t.geo && w'.t.slots == w.t.slots
    requires w'.phase == w.phase && w'.locks == w.locks && w'.target == w.target && w'.sure == w.sure
    ensures PhasesOk(w')
  {
    forall a | a in w'.phase ensures PhaseOk(w', a, w'.phase[a]) {
      assert PhaseOk(w, a, w.phase[a]);
    }
    SameAdders(w, w');
  }

  lemma SameSlotsAgree(w: World, w': World)
    requires w'.t.slots == w.t.slots && w'.last == w.last && w'.sure == w.sure
    ensures Agrees(w) ==> Agrees(w')
  {
    forall j | 0 <= j < |w.t.slots| && AgreesAt(w, w.t.slots[j]) ensures AgreesAt(w', w'.t.slots[j]) {
    }
  }

  lemma HitInv(w: World, i: nat, who: Who)
    requires WInv(w) && Enabled(w, LookupHit(i, who))
    ensures WInv(Apply(w, LookupHit(i, who)))
  {
    var w' := Apply(w, LookupHit(i, who));
    TouchInv(w.t, i);
    TouchStamps(w, w', i);
    PhasesSameSlots(w, w');
    SameSlotsAgree(w, w');
  }

  // ---- Sweeps ----

  lemma SweepStamps(w: World, w': World)
    requires StampsOk(w) && OnlyInvalidated(w.t, w'.t) && w'.stamp == w.stamp && w'.clock == w.clock
    ensures StampsOk(w')
  {
  }

  lemma SweepKeeps(t: Table, t': Table, k: Key)
    requires OnlyInvalidated(t, t') && Absent(t, k)
    ensures Absent(t', k)
  {
    forall j | 0 <= j < |t'.slots| && Hashed(t'.slots[j]) ensures !Matches(t'.slots[j], k) {
      assert Hashed(t.slots[j]) && !Matches(t.slots[j], k);
    }
  }

  lemma SweepPhase(w: World, w': World, a: nat, ph: Phase)
    requires OnlyInvalidated(w.t, w'.t) && w'.locks == w.locks && w'.target == w.target
    requires w'.sure == w.sure && PhaseOk(w, a, ph)
    ensures PhaseOk(w', a, ph)
  {
    if Adding(ph) && ph.req.key in w.sure { SweepKeeps(w.t, w'.t, ph.req.key); }
  }

  lemma SweepPhases(w: World, w': World, tid: nat)
    requires PhasesOk(w) && OnlyInvalidated(w.t, w'.t) && w'.locks == w.locks
    requires w'.target == w.target && w'.sure == w.sure
    requires w'.phase == w.phase || (tid in w.phase && w.phase[tid].AddSynonyms? &&
               w'.phase == w.phase[tid := AddInsert(w.phase[tid].req, w.phase[tid].slot)])
    ensures PhasesOk(w')
  {
    forall a | a in w'.phase ensures PhaseOk(w', a, w'.phase[a]) {
      SweepPhase(w, w', a, w.phase[a]);
    }
    SameAdders(w, w');
  }

  /** After a sweep an entry that is still valid agrees if its key's binding was not taken away. */
  lemma SweepAgrees(w: World, w': World)
    requires SlotsOk(w.t) && SlotsOk(w'.t) && OnlyInvalidated(w.t, w'.t) && Agrees(w) && w'.sure == w.sure
    requires forall j ::
               0 <= j < |w.t.slots| && Hashed(w.t.slots[j]) && !w'.t.slots[j].invalid && AgreesAt(w, w.t.slots[j]) ==>
                 AgreesAt(w', w.t.slots[j])
    ensures Agrees(w')
  {
    forall j | 0 <= j < |w'.t.slots| && Hashed(w'.t.slots[j]) && !w'.t.slots[j].invalid &&
        KeyOf(w'.t.slots[j]) in w'.sure
      ensures AgreesAt(w', w'.t.slots[j])
    {
      assert AgreesAt(w, w.t.slots[j]);
    }
  }

  lemma SweepStep(w: World, w': World, tid: nat)
    requires WInv(w) && OnlyInvalidated(w.t, w'.t)
    requires w' == w.(t := w'.t, last := w'.last, phase := w'.phase, exact := w'.exact) && (w'.exact ==> w.exact)
    requires w'.phase == w.phase || (tid in w.phase && w.phase[tid].AddSynonyms? &&
               w'.phase == w.phase[tid := AddInsert(w.phase[tid].req, w.phase[tid].slot)])
    requires w'.exact && SlotsOk(w'.t) ==> Agrees(w')
    ensures WInv(w')
  {
    OnlyInvalidatedInv(w.t, w'.t);
    StillUnique(w.t.slots, w'.t.slots, w.sure);
    CountSame(w.t.slots, w'.t.slots);
    SweepStamps(w, w');
    SweepPhases(w, w', tid);
  }

  // ---- The steps ----

  lemma LockInv(w: World, tid: nat, d: Dir)
    requires WInv(w) && d !in w.locks
    ensures WInv(w.(locks := w.locks[d := tid]))
  {
    var w' := w.(locks := w.locks[d := tid]);
    forall a | a in w'.phase ensures PhaseOk(w', a, w'.phase[a]) {
      assert PhaseOk(w, a, w.phase[a]);
    }
    SameAdders(w, w');
    SameSlotsAgree(w, w');
  }

  lemma UnlockInv(w: World, tid: nat, d: Dir)
    requires WInv(w) && Owns(w, tid, d) && tid !in w.phase
    ensures WInv(w.(locks := w.locks - {d}))
  {
    var w' := w.(locks := w.locks - {d});
    forall a | a in w'.phase ensures PhaseOk(w', a, w'.phase[a]) {
      assert PhaseOk(w, a, w.phase[a]);
    }
    SameAdders(w, w');
    SameSlotsAgree(w, w');
  }

  /** After detaching the one entry with a key, no entry has it. */
  lemma DetachedAbsent(t: Table, k: Key, i: nat, sure: iset<Key>)
    requires SlotsOk(t) && |t.lru| == 3 && KeysUnique(t.slots, sure) && k in sure && Hit(t, k, i)
    ensures Absent(Detach(t, i), k)
  {
    ChainAnswersForTable(t, k, i);
    forall j | 0 <= j < |t.slots| && j != i && Hashed(t.slots[j]) ensures !Matches(t.slots[j], k) {
      ChainAnswersForTable(t, k, j);
    }
  }

  /** The part of an add that only forgets the old binding of its key. */
  lemma ForgetAgrees(w: World, w': World, k: Key)
    requires SlotsOk(w.t) && Agrees(w) && w'.t == w.t && Absent(w.t, k) && w'.last == w.last - {k} && w'.sure == w.sure
    ensures Agrees(w')
  {
    forall j | 0 <= j < |w'.t.slots| && Hashed(w'.t.slots[j]) && !w'.t.slots[j].invalid &&
        KeyOf(w'.t.slots[j]) in w'.sure
      ensures AgreesAt(w', w'.t.slots[j])
    {
      assert AgreesAt(w, w.t.slots[j]);
      ChainAnswersForTable(w.t, k, j);
    }
  }

  lemma MendedSamePlace(e: Entry, r: Req)
    requires e.ring.bhx < |e.ring.bh| == BH_MAX && e.flags.rvc == r.flags.rvc
    ensures SamePlace(e, Mended(e, r))
  {
  }

  lemma MendInv(w: World, tid: nat, r: Req, i: nat)
    requires WInv(w) && Enabled(w, Add(tid, r)) && Find(w.t, r.key) == Some(i) && Unchanged(w.t.slots[i], r)
    ensures WInv(AddStep(w, tid, r))
  {
    var w', e := AddStep(w, tid, r), w.t.slots[i];
    ChainAnswersForTable(w.t, r.key, i);
    assert SlotOk(w.t.geo, i, e);
    MendedSamePlace(e, r);
    AmendInv(w.t, i, Mended(e, r));
    assert SlotOk(w'.t.geo, i, Mended(e, r));
    if w'.exact { AmendAgrees(w, w', i, Mended(e, r)); }
    AmendStep(w, w', tid, i, Mended(e, r));
  }

  /** A thread moves on, and bindings may be forgotten, while the table stays as it is. */
  lemma MoveStep(w: World, w': World, tid: nat)
    requires WInv(w) && w' == w.(phase := w'.phase, last := w'.last)
    requires w'.phase == w.phase - {tid} || (tid in w'.phase && w'.phase == w.phase[tid := w'.phase[tid]] &&
             PhaseOk(w', tid, w'.phase[tid]))
    requires tid in w'.phase && HasSlot(w'.phase[tid]) ==>
               tid in w.phase && HasSlot(w.phase[tid]) && w.phase[tid].slot == w'.phase[tid].slot
    requires w.exact ==> Agrees(w')
    requires Quiet(w, w', tid)
    ensures WInv(w')
  {
    forall a | a in w'.phase && a != tid ensures PhaseOk(w', a, w'.phase[a]) {
      assert PhaseOk(w, a, w.phase[a]);
    }
    AddersFrame(w, w', tid);
  }

  /** A thread about to add a sure key is the only one. */
  ghost predicate Alone(w: World, tid: nat, k: Key) { k in w.sure ==> forall b :: !AddsKey(w, b, k) }

  /** Which the lock sees to, unless the key is a VOB root. */
  lemma LockedAlone(w: World, tid: nat, r: Req)
    requires PhasesOk(w) && Enabled(w, Add(tid, r)) && r.key.name != DOT
    ensures Alone(w, tid, r.key)
  {
    forall b ensures !AddsKey(w, b, r.key) {
      if b in w.phase { assert PhaseOk(w, b, w.phase[b]); }
    }
  }

  lemma AddMissInv(w: World, tid: nat, r: Req)
    requires WInv(w) && Enabled(w, Add(tid, r)) && Absent(w.t, r.key) && Alone(w, tid, r.key)
    ensures WInv(w.(last := w.last - {r.key}, phase := w.phase[tid := AddTake(r)]))
  {
    var w' := w.(last := w.last - {r.key}, phase := w.phase[tid := AddTake(r)]);
    if w.exact { ForgetAgrees(w, w', r.key); }
    MoveStep(w, w', tid);
  }

  lemma AddInv(w: World, tid: nat, r: Req)
    requires WInv(w) && Enabled(w, Add(tid, r)) && Alone(w, tid, r.key)
    ensures WInv(AddStep(w, tid, r))
  {
    var w', o := AddStep(w, tid, r), Find(w.t, r.key);
    FindNoneIsAbsent(w.t, r.key);
    if o.None? {
      AddMissInv(w, tid, r);
    } else if Unchanged(w.t.slots[o.value], r) {
      MendInv(w, tid, r, o.value);
    } else {
      ChainAnswersForTable(w.t, r.key, o.value);
      assert SlotOk(w.t.geo, o.value, w.t.slots[o.value]);
      if r.key in w.sure { DetachedAbsent(w.t, r.key, o.value, w.sure); }
      DetachStep(w, w', tid, o.value);
    }
  }

  lemma FlushInv(w: World, tid: nat, i: nat)
    requires WInv(w) && Enabled(w, Flush(tid, i))
    ensures WInv(Apply(w, Flush(tid, i)))
  {
    assert SlotOk(w.t.geo, i, w.t.slots[i]);
    DetachStep(w, Apply(w, Flush(tid, i)), tid, i);
  }

  lemma SynonymSweepInv(w: World, k: Key)
    requires WInv(w)
    ensures WInv(w.(t := SweepSynonyms(w.t, k)))
  {
    var w' := w.(t := SweepSynonyms(w.t, k));
    SynonymSweepOnlyInvalidates(w.t, k);
    OnlyInvalidatedInv(w.t, w'.t);
    if w.exact { SweepAgrees(w, w'); }
    SweepStep(w, w', 0);
  }

  lemma RemoveInv(w: World, tid: nat, k: Key)
    requires WInv(w) && Enabled(w, Remove(tid, k))
    ensures WInv(RemoveStep(w, tid, k))
  {
    var o := Find(w.t, k);
    FindNoneIsAbsent(w.t, k);
    if o.None? {
      var w1 := w.(last := w.last - {k});
      if w.exact { ForgetAgrees(w, w1, k); }
      PhasesSameSlots(w, w1);
      SynonymSweepInv(w1, k);
    } else {
      var i := o.value;
      ChainAnswersForTable(w.t, k, i);
      assert SlotOk(w.t.geo, i, w.t.slots[i]);
      var w1 := w.(t := Detach(w.t, i), last := w.last - {k},
                   phase := w.phase[tid := RemoveRoot(k, i, w.t.slots[i].vfid)]);
      DetachStep(w, w1, tid, i);
      SynonymSweepInv(w1, k);
    }
  }

  lemma TakeInv(w: World, tid: nat, r: Req)
    requires WInv(w) && tid in w.phase && w.phase[tid] == AddTake(r)
    ensures PhaseOk(w, tid, w.phase[tid]) && LruOk(w.t.geo, w.t.slots, r.kind, w.t.lru[r.kind])
    ensures WInv(TakeStep(w, tid, r))
  {
    assert PhaseOk(w, tid, w.phase[tid]) && LruOk(w.t.geo, w.t.slots, r.kind, w.t.lru[r.kind]);
    var s, w' := w.t.lru[r.kind], TakeStep(w, tid, r);
    if s == [] {
      if w.exact { SweepAgrees(w, w'); }
      MoveStep(w, w', tid);
    } else {
      TakeHeadInv(w, tid, r, s[0]);
    }
  }

  lemma TakeHeadInv(w: World, tid: nat, r: Req, i: nat)
    requires WInv(w) && tid in w.phase && w.phase[tid] == AddTake(r)
    requires PhaseOk(w, tid, w.phase[tid]) && i in w.t.lru[r.kind]
    ensures i < |w.t.slots| && WInv(w.(t := Detach(w.t, i), phase := w.phase[tid := AddSynonyms(r, i)]))
  {
    assert LruOk(w.t.geo, w.t.slots, r.kind, w.t.lru[r.kind]);
    var w' := w.(t := Detach(w.t, i), phase := w.phase[tid := AddSynonyms(r, i)]);
    assert r.key in w.sure ==> Absent(w'.t, r.key);
    assert AddsKey(w, tid, r.key);
    DetachStep(w, w', tid, i);
  }

  lemma RootAgrees(w: World, w': World, k: Key, fid: Fid)
    requires TableInv(w.t) && KeysUnique(w.t.slots, w.sure) && SlotsOk(w'.t) && Agrees(w) && w'.sure == w.sure
    requires var o := Find(w.t, k);
             w'.t == if o.Some? && w.t.slots[o.value].vfid == fid then
                       Amend(w.t, o.value, Invalidated(w.t.slots[o.value]))
                     else w.t
    requires w'.last == if k in w.last && w.last[k].fid == fid then w.last - {k} else w.last
    ensures Agrees(w')
  {
    FindNoneIsAbsent(w.t, k);
    forall j | 0 <= j < |w'.t.slots| && Hashed(w'.t.slots[j]) && !w'.t.slots[j].invalid &&
        KeyOf(w'.t.slots[j]) in w'.sure
      ensures AgreesAt(w', w'.t.slots[j])
    {
      assert AgreesAt(w, w.t.slots[j]);
      ChainAnswersForTable(w.t, k, j);
      if Find(w.t, k).Some? { ChainAnswersForTable(w.t, k, Find(w.t, k).value); }
    }
  }

  lemma RootHitPhases(w: World, w': World, tid: nat, j: nat)
    requires TableInv(w.t) && SlotsOk(w'.t) && PhasesOk(w) && tid in w.phase && w.phase[tid].RemoveRoot?
    requires j < |w.t.slots| && Hashed(w.t.slots[j]) && w'.t == Amend(w.t, j, Invalidated(w.t.slots[j]))
    requires w'.phase == w.phase[tid := Return(w.phase[tid].slot)] && w'.locks == w.locks
    requires w'.target == w.target && w'.sure == w.sure
    ensures PhasesOk(w')
  {
    assert SlotOk(w.t.geo, j, w.t.slots[j]) && PhaseOk(w, tid, w.phase[tid]) && SlotOk(w'.t.geo, j, w'.t.slots[j]);
    PhasesOneSlot(w, w', tid, j, Invalidated(w.t.slots[j]));
  }

  lemma RootHitInv(w: World, w': World, tid: nat, j: nat)
    requires WInv(w) && tid in w.phase && w.phase[tid].RemoveRoot? && j < |w.t.slots| && Hashed(w.t.slots[j])
    requires w' == w.(t := Amend(w.t, j, Invalidated(w.t.slots[j])),
                      phase := w.phase[tid := Return(w.phase[tid].slot)], last := w'.last)
    requires w.exact && SlotsOk(w'.t) ==> Agrees(w')
    ensures WInv(w')
  {
    var e := Invalidated(w.t.slots[j]);
    assert SlotOk(w.t.geo, j, w.t.slots[j]);
    AmendInv(w.t, j, e);
    StillUnique(w.t.slots, w'.t.slots, w.sure);
    CountUpdate(w.t.slots, j, e);
    AmendStamps(w, w', j, e);
    RootHitPhases(w, w', tid, j);
  }

  lemma RootInv(w: World, tid: nat, k: Key, i: nat, fid: Fid)
    requires WInv(w) && tid in w.phase && w.phase[tid] == RemoveRoot(k, i, fid) && Private(w, i)
    ensures WInv(RootStep(w, tid, k, i, fid))
  {
    var w', o := RootStep(w, tid, k, i, fid), Find(w.t, RootKey(k));
    if Part(w.t.geo, i) != DIR {
      if w.exact { SweepAgrees(w, w'); }
      MoveStep(w, w', tid);
    } else if o.Some? && w.t.slots[o.value].vfid == fid {
      if w.exact {
        AmendInv(w.t, o.value, Invalidated(w.t.slots[o.value]));
        RootAgrees(w, w', RootKey(k), fid);
      }
      RootHitInv(w, w', tid, o.value);
    } else {
      if w.exact { RootAgrees(w, w', RootKey(k), fid); }
      MoveStep(w, w', tid);
    }
  }

  lemma ContinueInv(w: World, tid: nat)
    requires WInv(w) && tid in w.phase
    ensures WInv(ContinueStep(w, tid))
  {
    assert PhaseOk(w, tid, w.phase[tid]);
    match w.phase[tid]
    case AddReturn(r, i) => ReleaseStep(w, ContinueStep(w, tid), tid, i);
    case AddTake(r) => TakeInv(w, tid, r);
    case AddSynonyms(r, i) => SynonymsInv(w, tid, r, i);
    case AddInsert(r, i) => InsertInv(w, tid, r, i);
    case RemoveRoot(k, i, fid) => RootInv(w, tid, k, i, fid);
    case Return(i) => ReleaseStep(w, ContinueStep(w, tid), tid, i);
  }

  lemma SynonymsInv(w: World, tid: nat, r: Req, i: nat)
    requires WInv(w) && tid in w.phase && w.phase[tid] == AddSynonyms(r, i)
    ensures WInv(w.(t := SweepSynonyms(w.t, r.key), phase := w.phase[tid := AddInsert(r, i)]))
  {
    var w' := w.(t := SweepSynonyms(w.t, r.key), phase := w.phase[tid := AddInsert(r, i)]);
    SynonymSweepOnlyInvalidates(w.t, r.key);
    OnlyInvalidatedInv(w.t, w'.t);
    if w.exact { SweepAgrees(w, w'); }
    SweepStep(w, w', tid);
  }

  lemma FlaggedSamePlace(e: Entry, f: Flags)
    requires e.ring.bhx < |e.ring.bh|
    ensures SamePlace(e, Flagged(e, f)) && KeyOf(Flagged(e, f)) == KeyOf(e)
  {
  }

  lemma AddFlagAgrees(w: World, w': World, k: Key, f: Flags, i: nat)
    requires TableInv(w.t) && TableInv(w'.t) && Hit(w.t, k, i) && Agrees(w)
    requires w'.t == Amend(w.t, i, Flagged(w.t.slots[i], f))
    requires KeysUnique(w.t.slots, w.sure) && w'.sure == w.sure && k in w.sure
    requires SlotOk(w.t.geo, i, w.t.slots[i]) && KeyOf(w.t.slots[i]) == k
    requires w'.last == if k in w.last then
                          w.last[k := w.last[k].(notInDir := w.t.slots[i].flags.notInDir || f.notInDir)]
                        else w.last
    ensures Agrees(w')
  {
    assert SlotOk(w'.t.geo, i, w'.t.slots[i]);
    AmendAgrees(w, w', i, Flagged(w.t.slots[i], f));
  }

  lemma AddFlagInv(w: World, tid: nat, k: Key, f: Flags)
    requires WInv(w) && Enabled(w, AddFlag(tid, k, f))
    ensures WInv(AddFlagStep(w, k, f))
  {
    var w', o := AddFlagStep(w, k, f), Find(w.t, k);
    if o.Some? {
      var i := o.value;
      ChainAnswersForTable(w.t, k, i);
      assert SlotOk(w.t.geo, i, w.t.slots[i]);
      FlaggedSamePlace(w.t.slots[i], f);
      AmendInv(w.t, i, Flagged(w.t.slots[i], f));
      if w'.exact { AddFlagAgrees(w, w', k, f, i); }
      AmendStep(w, w', tid, i, Flagged(w.t.slots[i], f));
    }
  }

  // ---- Invalidations ----

  lemma InvalVnodeInv(w: World, view: View, vfs: Vfs, fid: Fid)
    requires WInv(w)
    ensures WInv(InvalStep(w, InvalVnode(view, vfs, fid)))
  {
    var w' := InvalStep(w, InvalVnode(view, vfs, fid));
    SweepsOnlyInvalidate(w.t, 0, |w.t.slots|, HitsVnode(view, vfs, fid));
    OnlyInvalidatedInv(w.t, w'.t);
    if w.exact {
      forall j | 0 <= j < |w.t.slots| && Hashed(w.t.slots[j]) && !w'.t.slots[j].invalid && AgreesAt(w, w.t.slots[j])
        ensures AgreesAt(w', w.t.slots[j])
      {
        assert SlotOk(w.t.geo, j, w.t.slots[j]) && TargetOk(w.target, w.t.slots[j]);
      }
      SweepAgrees(w, w');
    }
    SweepStep(w, w', 0);
  }

  lemma InvalViewInv(w: World, view: View)
    requires WInv(w)
    ensures WInv(InvalStep(w, InvalView(view)))
  {
    var w' := InvalStep(w, InvalView(view));
    SweepsOnlyInvalidate(w.t, 0, |w.t.slots|, HitsView(view));
    OnlyInvalidatedInv(w.t, w'.t);
    if w.exact {
      forall j | 0 <= j < |w.t.slots| && Hashed(w.t.slots[j]) && !w'.t.slots[j].invalid && AgreesAt(w, w.t.slots[j])
        ensures AgreesAt(w', w.t.slots[j])
      {
        assert SlotOk(w.t.geo, j, w.t.slots[j]) && TargetOk(w.target, w.t.slots[j]);
      }
      SweepAgrees(w, w');
    }
    SweepStep(w, w', 0);
  }

  lemma RootFlushInv(w: World, view: View, only: Option<Vfs>)
    requires WInv(w)
    ensures WInv(InvalStep(w, RootFlush(view, only)))
  {
    var w' := InvalStep(w, RootFlush(view, only));
    SweepsOnlyInvalidate(w.t, 0, w.t.geo.dirMax, HitsRoot(view, only));
    OnlyInvalidatedInv(w.t, w'.t);
    if w.exact {
      forall j | 0 <= j < |w.t.slots| && Hashed(w.t.slots[j]) && !w'.t.slots[j].invalid && AgreesAt(w, w.t.slots[j])
        ensures AgreesAt(w', w.t.slots[j])
      {
        assert SlotOk(w.t.geo, j, w.t.slots[j]);
      }
      SweepAgrees(w, w');
    }
    SweepStep(w, w', 0);
  }

  lemma InvalNotFoundInv(w: World)
    requires WInv(w)
    ensures WInv(InvalStep(w, InvalNotFound))
  {
    var w' := InvalStep(w, InvalNotFound);
    SweepsOnlyInvalidate(w.t, w.t.geo.NoentStart(), |w.t.slots|, HitsNotFound());
    if w'.exact { NotFoundAgrees(w); }
    SweepStep(w, w', 0);
  }

  lemma NotFoundAgrees(w: World)
    requires TableInv(w.t) && Agrees(w) && !BadSkip(w)
    ensures Agrees(InvalStep(w, InvalNotFound))
  {
    var w' := InvalStep(w, InvalNotFound);
    SweepsOnlyInvalidate(w.t, w.t.geo.NoentStart(), |w.t.slots|, HitsNotFound());
    OnlyInvalidatedInv(w.t, w'.t);
    forall j | 0 <= j < |w.t.slots| && Hashed(w.t.slots[j]) && !w'.t.slots[j].invalid && AgreesAt(w, w.t.slots[j])
      ensures AgreesAt(w', w.t.slots[j])
    {
      assert SlotOk(w.t.geo, j, w.t.slots[j]);
      assert w.t.noentOther == 0 ==> !LiveOther(w.t, j);
    }
    SweepAgrees(w, w');
  }

  /** No two adds of a sure VOB root overlap; for all other keys the locks see to that. */
  ghost predicate Respects(w: World, s: Step) {
    s.Add? && s.req.key.name == DOT ==> Alone(w, s.tid, s.req.key)
  }

  lemma StepInv(w: World, s: Step)
    requires WInv(w) && Enabled(w, s) && Respects(w, s)
    ensures WInv(Apply(w, s))
  {
    match s
    case Lock(tid, d) => LockInv(w, tid, d);
    case Unlock(tid, d) => UnlockInv(w, tid, d);
    case Add(tid, r) =>
      if r.key.name != DOT { LockedAlone(w, tid, r); }
      AddInv(w, tid, r);
    case Remove(tid, k) => RemoveInv(w, tid, k);
    case Flush(tid, i) => FlushInv(w, tid, i);
    case Continue(tid) => ContinueInv(w, tid);
    case LookupHit(i, who) => HitInv(w, i, who);
    case AddFlag(tid, k, f) => AddFlagInv(w, tid, k, f);
    case InvalVnode(view, vfs, fid) => InvalVnodeInv(w, view, vfs, fid);
    case InvalView(view) => InvalViewInv(w, view);
    case InvalNotFound => InvalNotFoundInv(w);
    case RootFlush(view, only) => RootFlushInv(w, view, only);
  }
}
