/**
  VOB roots are entered without a lock: when their key stays unique, and a run in which
  it does not.
 */
module DncRoots {
  import opened BuildHandles
  import opened DncRun
  import opened DncRunProofs
  import opened DncTable
  import opened DncTheorems
  import opened NameCache
  import opened NameHash
  import opened Rings

  /** At most one chained entry has the key. */
  ghost predicate Once(t: Table, k: Key) { KeysUnique(t.slots, iset{k}) }

  /** The step in which a thread publishes its entry for the key. */
  ghost predicate Fills(w: World, s: Step, k: Key) {
    s.Continue? && s.tid in w.phase && w.phase[s.tid].AddInsert? && w.phase[s.tid].req.key == k &&
    w.phase[s.tid].slot < |w.t.slots|
  }

  // ---- Only a fill puts a key on a chain ----

  lemma SamePlaceSameKey(e: Entry, e': Entry)
    requires SamePlace(e, e')
    ensures KeyOf(e') == KeyOf(e) && Hashed(e') == Hashed(e)
  {
  }

  lemma AddNoNewKeys(w: World, tid: nat, r: Req)
    requires Shape(w) && SlotsOk(w.t) && Enabled(w, Add(tid, r))
    ensures NoNewKeys(w.t.slots, AddStep(w, tid, r).t.slots)
  {
    var o := Find(w.t, r.key);
    if o.Some? {
      assert SlotOk(w.t.geo, o.value, w.t.slots[o.value]);
      MendedSamePlace(w.t.slots[o.value], r);
      SamePlaceSameKey(w.t.slots[o.value], Mended(w.t.slots[o.value], r));
    }
  }

  lemma FlagNoNewKeys(w: World, k: Key, f: Flags)
    requires Shape(w) && SlotsOk(w.t)
    ensures NoNewKeys(w.t.slots, AddFlagStep(w, k, f).t.slots)
  {
    var o := Find(w.t, k);
    if o.Some? {
      assert SlotOk(w.t.geo, o.value, w.t.slots[o.value]);
      FlaggedSamePlace(w.t.slots[o.value], f);
    }
  }

  lemma ContinueNoNewKeys(w: World, tid: nat)
    requires Shape(w) && SlotsOk(w.t) && PhasesOk(w) && tid in w.phase
    requires !(w.phase[tid].AddInsert? && w.phase[tid].slot < |w.t.slots|)
    ensures NoNewKeys(w.t.slots, ContinueStep(w, tid).t.slots)
  {
    var ph := w.phase[tid];
    assert PhaseOk(w, tid, ph);
    if !HasSlot(ph) || ph.slot < |w.t.slots| {
      match ph
      case AddReturn(r, i) => ReleaseNoNewKeys(w.t, i);
      case Return(i) => ReleaseNoNewKeys(w.t, i);
      case RemoveRoot(k, i, fid) => RootNoNewKeys(w, tid, k, i, fid);
      case AddTake(r) => TakeNoNewKeys(w, tid, r);
      case AddSynonyms(r, i) => assert NoNewKeys(w.t.slots, SweepSynonyms(w.t, r.key).slots);
      case _ =>
    }
  }

  lemma ReleaseNoNewKeys(t: Table, i: nat)
    requires SlotsOk(t) && |t.lru| == 3 && i < |t.slots| && t.slots[i].inTrans
    ensures NoNewKeys(t.slots, DncTable.Release(t, i).slots)
  {
    assert SlotOk(t.geo, i, t.slots[i]);
  }

  lemma RootNoNewKeys(w: World, tid: nat, k: Key, i: nat, fid: Fid)
    requires Shape(w) && i < |w.t.slots|
    ensures NoNewKeys(w.t.slots, RootStep(w, tid, k, i, fid).t.slots)
  {
  }

  lemma TakeNoNewKeys(w: World, tid: nat, r: Req)
    requires Shape(w)
    ensures NoNewKeys(w.t.slots, TakeStep(w, tid, r).t.slots)
  {
  }

  lemma StepNoNewKeys(w: World, s: Step)
    requires Shape(w) && SlotsOk(w.t) && PhasesOk(w) && Enabled(w, s)
    requires !(s.Continue? && w.phase[s.tid].AddInsert? && w.phase[s.tid].slot < |w.t.slots|)
    ensures NoNewKeys(w.t.slots, Apply(w, s).t.slots)
  {
    match s
    case Add(tid, r) => AddNoNewKeys(w, tid, r);
    case AddFlag(tid, k, f) => FlagNoNewKeys(w, k, f);
    case Continue(tid) => ContinueNoNewKeys(w, tid);
    case Remove(tid, k) => RemoveNoNewKeys(w, tid, k);
    case Lock(_, _) =>
    case Unlock(_, _) =>
    case Flush(_, _) =>
    case LookupHit(_, _) =>
    case _ => InvalNoNewKeys(w, s);
  }

  lemma RemoveNoNewKeys(w: World, tid: nat, k: Key)
    requires Shape(w)
    ensures NoNewKeys(w.t.slots, RemoveStep(w, tid, k).t.slots)
  {
  }

  lemma InvalNoNewKeys(w: World, s: Step)
    requires s.InvalVnode? || s.InvalView? || s.InvalNotFound? || s.RootFlush?
    ensures NoNewKeys(w.t.slots, InvalStep(w, s).t.slots)
  {
  }

  /** Nobody has the key on a chain after a step, unless somebody had before or the step is a fill of it. */
  lemma AbsentStep(w: World, s: Step, k: Key)
    requires WInv(w) && Enabled(w, s) && SlotsOk(Apply(w, s).t) && Absent(w.t, k) && !Fills(w, s, k)
    ensures Absent(Apply(w, s).t, k)
  {
    var t' := Apply(w, s).t;
    if s.Continue? && w.phase[s.tid].AddInsert? && w.phase[s.tid].slot < |w.t.slots| {
      FillKeys(w, s.tid, w.phase[s.tid].req, w.phase[s.tid].slot);
    } else {
      StepNoNewKeys(w, s);
    }
    forall j | 0 <= j < |t'.slots| && Hashed(t'.slots[j]) ensures !Matches(t'.slots[j], k) {
      ChainAnswersForTable(t', k, j);
      if Hashed(w.t.slots[j]) { ChainAnswersForTable(w.t, k, j); }
    }
  }

  /** A fill puts its own key into its own slot. */
  lemma FillKeys(w: World, tid: nat, r: Req, i: nat)
    requires WInv(w) && tid in w.phase && w.phase[tid] == AddInsert(r, i)
    ensures i < |w.t.slots| && !Hashed(w.t.slots[i])
    ensures var t' := ContinueStep(w, tid).t;
            |t'.slots| == |w.t.slots| && Hashed(t'.slots[i]) && KeyOf(t'.slots[i]) == r.key &&
            forall j :: 0 <= j < |t'.slots| && j != i ==> t'.slots[j] == w.t.slots[j]
  {
    assert PhaseOk(w, tid, w.phase[tid]);
    assert SlotOk(w.t.geo, i, w.t.slots[i]);
    FilledOk(w.target, w.t.geo, i, r);
  }

  // ---- When the key stays unique ----

  /** Unique before a step, the key is unique after it exactly if the step does not fill it while it is there. */
  lemma OnceStep(w: World, s: Step, k: Key)
    requires WInv(w) && Enabled(w, s) && Once(w.t, k)
    ensures Once(Apply(w, s).t, k) <==> !(Fills(w, s, k) && !Absent(w.t, k))
  {
    var t' := Apply(w, s).t;
    if s.Continue? && w.phase[s.tid].AddInsert? && w.phase[s.tid].slot < |w.t.slots| {
      FillOnce(w, s.tid, w.phase[s.tid].req, w.phase[s.tid].slot, k);
    } else {
      StepNoNewKeys(w, s);
      StillUnique(w.t.slots, t'.slots, iset{k});
    }
  }

  lemma FillOnce(w: World, tid: nat, r: Req, i: nat, k: Key)
    requires WInv(w) && Once(w.t, k) && tid in w.phase && w.phase[tid] == AddInsert(r, i)
    ensures Once(ContinueStep(w, tid).t, k) <==> !(r.key == k && !Absent(w.t, k))
  {
    FillKeys(w, tid, r, i);
    var t' := ContinueStep(w, tid).t;
    forall j | 0 <= j < |w.t.slots| && Hashed(w.t.slots[j])
      ensures Matches(w.t.slots[j], k) <==> KeyOf(w.t.slots[j]) == k
    {
      ChainAnswersForTable(w.t, k, j);
    }
    if r.key == k && !Absent(w.t, k) {
      var j :| 0 <= j < |w.t.slots| && Hashed(w.t.slots[j]) && Matches(w.t.slots[j], k);
      assert t'.slots[j] == w.t.slots[j] && KeyOf(t'.slots[i]) == KeyOf(t'.slots[j]);
    }
  }

  /**
    Two adds of the key overlap in step n: it fills the key; another thread filled it after
    this one's search and before; and it is still there.
   */
  ghost predicate Overlap(ws: seq<World>, steps: seq<Step>, n: nat, k: Key)
    requires n < |steps| < |ws|
  {
    Fills(ws[n], steps[n], k) && !Absent(ws[n].t, k) && exists m :: Between(ws, steps, m, n, steps[n].tid, k)
  }

  /** Another thread's fill, in step m, between the search of thread a and state n. */
  ghost predicate Between(ws: seq<World>, steps: seq<Step>, m: nat, n: nat, a: nat, k: Key)
    requires n <= |steps| < |ws|
  {
    m < n && Fills(ws[m], steps[m], k) && steps[m].tid != a && forall j :: m <= j <= n ==> AddsKey(ws[j], a, k)
  }

  /** A thread that starts an add of the key leaves the search with the key on no chain. */
  lemma SearchClears(w: World, tid: nat, r: Req)
    requires WInv(w) && Enabled(w, Add(tid, r)) && Once(w.t, r.key) && AddsKey(AddStep(w, tid, r), tid, r.key)
    ensures Absent(AddStep(w, tid, r).t, r.key)
  {
    var o := Find(w.t, r.key);
    FindNoneIsAbsent(w.t, r.key);
    if o.Some? { DetachedAbsent(w.t, r.key, o.value, iset{r.key}); }
  }

  lemma AdderSame(w: World, s: Step, a: nat, k: Key)
    requires Shape(w) && Enabled(w, s) && AddsKey(Apply(w, s), a, k)
    ensures AddsKey(w, a, k) || (s.Add? && s.tid == a && s.req.key == k)
    ensures !(Fills(w, s, k) && s.tid == a)
  {
    match s
    case Add(tid, r) => assert AddsKey(AddStep(w, tid, r), a, k);
    case Remove(tid, q) => assert AddsKey(RemoveStep(w, tid, q), a, k);
    case Continue(tid) => AdderContinues(w, tid, a, k);
    case AddFlag(tid, q, f) => assert AddFlagStep(w, q, f).phase == w.phase;
    case _ =>
  }

  lemma AdderContinues(w: World, tid: nat, a: nat, k: Key)
    requires Shape(w) && tid in w.phase && AddsKey(ContinueStep(w, tid), a, k)
    ensures AddsKey(w, a, k) && !(tid == a && w.phase[tid].AddInsert? && w.phase[tid].slot < |w.t.slots|)
  {
    var ph := w.phase[tid];
    if !HasSlot(ph) || ph.slot < |w.t.slots| {
      match ph
      case RemoveRoot(q, i, fid) => assert RootStep(w, tid, q, i, fid).phase == w.phase[tid := Return(i)];
      case _ =>
    }
  }

  /** One step back from a state in which a thread is adding a key that is there. */
  lemma IntruderStep(w: World, s: Step, w': World, a: nat, k: Key)
    requires WInv(w) && SlotsOk(w'.t) && Enabled(w, s) && w' == Apply(w, s)
    requires Once(w.t, k) && AddsKey(w', a, k) && !Absent(w'.t, k)
    ensures AddsKey(w, a, k) && (Absent(w.t, k) ==> Fills(w, s, k) && s.tid != a)
  {
    AdderSame(w, s, a, k);
    if !AddsKey(w, a, k) { SearchClears(w, a, s.req); }
    if Absent(w.t, k) && !Fills(w, s, k) { AbsentStep(w, s, k); }
  }

  /** A state of a run, the step taken there and the next state. */
  lemma RunAt(ws: seq<World>, steps: seq<Step>, n: nat)
    requires FromStart(ws, steps) && n < |steps|
    ensures WInv(ws[n]) && Enabled(ws[n], steps[n]) && ws[n + 1] == Apply(ws[n], steps[n]) && SlotsOk(ws[n + 1].t)
  {
    RunInv(ws, steps, n);
    RunInv(ws, steps, n + 1);
  }

  /** If the key is there while a thread is adding it, another thread has filled it since that one's search. */
  lemma {:induction false} Intruder(ws: seq<World>, steps: seq<Step>, n: nat, a: nat, k: Key)
    requires FromStart(ws, steps) && n <= |steps| && AddsKey(ws[n], a, k) && !Absent(ws[n].t, k)
    requires forall m :: 0 <= m <= n ==> Once(ws[m].t, k)
    ensures exists m :: Between(ws, steps, m, n, a, k)
  {
    if n > 0 {
      assert AddsKey(ws[n - 1], a, k) &&
             (Absent(ws[n - 1].t, k) ==> Fills(ws[n - 1], steps[n - 1], k) && steps[n - 1].tid != a) by {
        RunAt(ws, steps, n - 1);
        IntruderStep(ws[n - 1], steps[n - 1], ws[n], a, k);
      }
      if Absent(ws[n - 1].t, k) {
        assert Between(ws, steps, n - 1, n, a, k);
      } else {
        Intruder(ws, steps, n - 1, a, k);
        var m: nat :| Between(ws, steps, m, n - 1, a, k);
        assert Between(ws, steps, m, n, a, k);
      }
    }
  }

  ghost predicate OnceUpTo(ws: seq<World>, n: nat, k: Key)
    requires n < |ws|
  {
    forall m :: 0 <= m <= n ==> Once(ws[m].t, k)
  }

  /** Unique so far, the key is unique after the next step exactly if two adds do not overlap in it. */
  lemma UniqueNext(ws: seq<World>, steps: seq<Step>, n: nat, k: Key)
    requires FromStart(ws, steps) && n < |steps| && OnceUpTo(ws, n, k)
    ensures Once(ws[n + 1].t, k) <==> !Overlap(ws, steps, n, k)
  {
    assert Once(ws[n + 1].t, k) <==> !(Fills(ws[n], steps[n], k) && !Absent(ws[n].t, k)) by {
      RunAt(ws, steps, n);
      OnceStep(ws[n], steps[n], k);
    }
    if Fills(ws[n], steps[n], k) && !Absent(ws[n].t, k) { Intruder(ws, steps, n, steps[n].tid, k); }
  }

  /** The key of a VOB root stays unique throughout a run if and only if no two adds of it overlap in the run. */
  lemma {:induction false} UniqueIffNoOverlap(ws: seq<World>, steps: seq<Step>, n: nat, k: Key)
    requires FromStart(ws, steps) && n <= |steps|
    ensures OnceUpTo(ws, n, k) <==> (forall m :: 0 <= m < n ==> !Overlap(ws, steps, m, k))
  {
    if n > 0 {
      UniqueIffNoOverlap(ws, steps, n - 1, k);
      var apart := !Overlap(ws, steps, n - 1, k);
      assert OnceUpTo(ws, n, k) <==> OnceUpTo(ws, n - 1, k) && apart by { UniqueStill(ws, steps, n - 1, k); }
    } else {
      assert OnceUpTo(ws, 0, k) by { RunInv(ws, steps, 0); }
    }
  }

  lemma UniqueStill(ws: seq<World>, steps: seq<Step>, n: nat, k: Key)
    requires FromStart(ws, steps) && n < |steps|
    ensures OnceUpTo(ws, n + 1, k) <==> OnceUpTo(ws, n, k) && !Overlap(ws, steps, n, k)
  {
    if OnceUpTo(ws, n, k) { UniqueNext(ws, steps, n, k); }
  }

  /** In particular it stays unique if each add of it begins when no other is past its search. */
  lemma {:induction false} OneByOneUnique(ws: seq<World>, steps: seq<Step>, n: nat, k: Key)
    requires FromStart(ws, steps) && n <= |steps| && OneByOne(ws, steps, n, k)
    ensures Once(ws[n].t, k)
  {
    var vs := Assured(ws, steps, n, k);
    assert vs[n].t == ws[n].t && k in vs[n].sure;
  }

  // ---- A run that breaks it ----

  const ROOT := Key(View(0, 0), Vfs(0, 0, Fid(9, 9)), Fid(9, 9), DOT)
  const CALLER := Who(Bh(0, 0), false, Time(0, 0))

  function RootReq(fid: Fid): Req { Req(ROOT, fid, Time(0, 0), Flags(false, false, false, true), DIR, CALLER, 0, 0) }

  const OLD := Fid(9, 9)
  const NEW := Fid(8, 8)

  ghost function Empty(): World { Start(Geometry(2, 0, 0, 1), (k: Key) => k.view) }

  lemma EmptyFacts()
    ensures Shape(Empty()) && Empty().t.lru[DIR] == [1, 0] && |Empty().t.slots| == 2 && Find(Empty().t, ROOT).None?
    ensures Empty().t.slots[0] == Blank() && Empty().t.slots[1] == Blank()
  {
  }

  /** Two threads have both searched for the root and found nothing. */
  lemma BothSearched() returns (w: World)
    ensures Reachable(w) && w == Empty().(phase := map[0 := AddTake(RootReq(OLD)), 1 := AddTake(RootReq(NEW))])
  {
    EmptyFacts();
    var w0 := Empty();
    ReachableStart(w0.t.geo, w0.target);
    ReachableStep(w0, Add(0, RootReq(OLD)));
    var w1 := w0.(phase := map[0 := AddTake(RootReq(OLD))]);
    assert w0.last - {ROOT} == w0.last;
    assert AddStep(w0, 0, RootReq(OLD)) == w1;
    ReachableStep(w1, Add(1, RootReq(NEW)));
    w := Empty().(phase := map[0 := AddTake(RootReq(OLD)), 1 := AddTake(RootReq(NEW))]);
    assert AddStep(w1, 1, RootReq(NEW)) == w;
  }

  /** A table in which slot i, the head of the list, has been filled with the root. */
  lemma HeadFilled(t: Table, target: Key -> View, fid: Fid, i: nat, j: nat)
    requires t.geo.hashSize > 0 && |t.lru| == 3 && t.lru[DIR] == [i, j]
    requires i != j && i < |t.slots| && j < |t.slots| && Part(t.geo, i) == DIR
    requires forall p, x :: 0 <= p < 3 && x in t.lru[p] ==> x < |t.slots|
    requires !t.slots[j].flags.ci
    ensures var t' := InsertWhole(t, target, RootReq(fid));
            t'.geo == t.geo && |t'.lru| == 3 && t'.lru[DIR] == [j, i] && |t'.slots| == |t.slots| &&
            t'.slots[i] == Filled(target, t.geo.hashSize, RootReq(fid)) && t'.slots[j] == t.slots[j] &&
            forall p, x :: 0 <= p < 3 && x in t'.lru[p] ==> x < |t'.slots|
  {
    var t' := InsertWhole(t, target, RootReq(fid));
    assert PosOf([i, j], i) == 0;
    assert Rings.Delete([i, j], 0) == [j];
    assert DncTable.Without([i, j], i) == [j];
    assert t'.lru[DIR] == [j] + [i] == [j, i];
  }

  /**
    Left to finish, both enter the root: two valid entries of one key, and a lookup may be
    served the older, which is not what was last added.
   */
  lemma RootTwice() returns (w: World)
    ensures Reachable(w) && w.t.geo.hashSize > 0 && !Once(w.t, ROOT)
    ensures Served(w.t, ROOT, CALLER, 1) && w.t.slots[1].vfid == OLD && ROOT in w.last && w.last[ROOT].fid == NEW
  {
    var w1 := BothSearched();
    EmptyFacts();
    var w2 := Finished(w1, 0, OLD, 1, 0);
    w := Finished(w2, 1, NEW, 0, 1);
    FilledKey(w1.target, 1, RootReq(OLD));
    FilledKey(w1.target, 1, RootReq(NEW));
    FilledAccepts(w1.target, 1, RootReq(OLD));
    assert KeyOf(w.t.slots[0]) == KeyOf(w.t.slots[1]) == ROOT;
  }

  /** A thread about to take a slot for the root runs to its end. */
  lemma Finished(w: World, tid: nat, fid: Fid, i: nat, j: nat) returns (w': World)
    requires Reachable(w) && Shape(w) && tid in w.phase && w.phase[tid] == AddTake(RootReq(fid))
    requires w.target == Empty().target
    requires w.t.geo == Empty().t.geo && w.t.lru[DIR] == [i, j] && i != j
    requires i < 2 && j < 2 && |w.t.slots| == 2 && !w.t.slots[j].flags.ci
    requires forall p, x :: 0 <= p < 3 && x in w.t.lru[p] ==> x < |w.t.slots|
    ensures Reachable(w') && Shape(w') && w'.phase == w.phase - {tid} && w'.target == w.target
    ensures w'.last == w.last[ROOT := BindingOf(RootReq(fid))]
    ensures w'.t.geo == w.t.geo && w'.t.lru[DIR] == [j, i] && |w'.t.slots| == 2
    ensures w'.t.slots[i] == Filled(w.target, 1, RootReq(fid)) && w'.t.slots[j] == w.t.slots[j]
    ensures forall p, x :: 0 <= p < 3 && x in w'.t.lru[p] ==> x < |w'.t.slots|
  {
    w' := NameCache.Alone(w, tid, 3);
    AloneReachable(w, tid, 3);
    TakeAlone(w, tid, RootReq(fid));
    HeadFilled(w.t, w.target, fid, i, j);
  }
}
