/**
  What every run of the name cache protocol guarantees.
 */
module DncTheorems {
  import opened BuildHandles
  import opened DncRun
  import opened DncRunProofs
  import opened DncTable
  import opened NameHash
  import opened Rings

  // ---- Runs ----

  function Blank(): Entry {
    Entry(false, false, BhRing(false, 0, seq(BH_MAX, _ => EMPTY)), Flags(false, false, false, false),
          None, Vfs(0, 0, Fid(0, 0)), Fid(0, 0), 0, [], None, Fid(0, 0), Time(0, 0), 0, NIL)
  }

  /** Slots hi - 1 down to lo: the order in which mvfs_dnclist_init leaves them, each pushed at the front. */
  function Downto(hi: nat, lo: nat): seq<nat>
    requires lo <= hi
  {
    seq(hi - lo, i => hi - 1 - i)
  }

  function Fresh(geo: Geometry): Table {
    Table(geo, seq(geo.Size(), _ => Blank()),
          [Downto(geo.dirMax, 0), Downto(geo.NoentStart(), geo.dirMax), Downto(geo.Size(), geo.NoentStart())], 0)
  }

  /** All keys but those of VOB roots. */
  ghost function NonRoots(): iset<Key> { iset k: Key | k.name != DOT }

  ghost function Start(geo: Geometry, target: Key -> View): World {
    World(Fresh(geo), map[], map[], target, map[], seq(geo.Size(), _ => 0), 1, 0, true, NonRoots())
  }

  lemma FreshLru(geo: Geometry, slots: seq<Entry>, p: nat, lo: nat, hi: nat)
    requires lo <= hi <= |slots| && forall x :: 0 <= x < |slots| ==> slots[x] == Blank()
    requires forall x :: 0 <= x < |slots| ==> (lo <= x < hi <==> Part(geo, x) == p)
    ensures LruOk(geo, slots, p, Downto(hi, lo))
  {
    var s := Downto(hi, lo);
    forall x | lo <= x < hi ensures x in s {
      assert s[hi - 1 - x] == x;
    }
  }

  lemma FreshInv(geo: Geometry)
    requires geo.hashSize > 0
    ensures TableInv(Fresh(geo))
  {
    var t := Fresh(geo);
    FreshLru(geo, t.slots, DIR, 0, geo.dirMax);
    FreshLru(geo, t.slots, REG, geo.dirMax, geo.NoentStart());
    FreshLru(geo, t.slots, NOENT, geo.NoentStart(), geo.Size());
  }

  lemma StartInv(w: World)
    requires w.t.geo.hashSize > 0 && w == Start(w.t.geo, w.target).(sure := w.sure) && NonRoots() <= w.sure
    ensures WInv(w)
  {
    FreshInv(w.t.geo);
    CountBlank(w.t.geo.Size());
  }

  lemma {:induction false} CountBlank(n: nat)
    ensures OtherCount(seq(n, _ => Blank())) == 0
  {
    if n > 0 {
      assert seq(n, _ => Blank())[..n - 1] == seq(n - 1, _ => Blank());
      CountBlank(n - 1);
    }
  }

  /** The worlds of a run, one per step: each step was possible where it was taken. */
  ghost predicate Run(ws: seq<World>, steps: seq<Step>) {
    |ws| == |steps| + 1 &&
    forall n :: 0 <= n < |steps| ==> Shape(ws[n]) && Enabled(ws[n], steps[n]) && ws[n + 1] == Apply(ws[n], steps[n])
  }

  ghost predicate Reachable(w: World) {
    exists ws, steps :: IsRunTo(ws, steps, w)
  }

  ghost predicate IsRunTo(ws: seq<World>, steps: seq<Step>, w: World) {
    FromStart(ws, steps) && ws[|steps|] == w
  }

  /** The sure keys are chosen once for a run; no step looks at them. */
  lemma ApplySure(w: World, s: Step, sure: iset<Key>)
    requires Shape(w) && Enabled(w, s)
    ensures Apply(w, s).sure == w.sure && Enabled(w.(sure := sure), s)
    ensures Apply(w.(sure := sure), s) == Apply(w, s).(sure := sure)
  {
    match s
    case Add(tid, r) => AddSure(w, tid, r, sure);
    case Remove(tid, k) => RemoveSure(w, tid, k, sure);
    case Continue(tid) => ContinueSure(w, tid, sure);
    case AddFlag(tid, k, f) => FlagSure(w, k, f, sure);
    case Lock(_, _) =>
    case Unlock(_, _) =>
    case Flush(_, _) =>
    case LookupHit(_, _) =>
    case _ => InvalSure(w, s, sure);
  }

  lemma AddSure(w: World, tid: nat, r: Req, sure: iset<Key>)
    requires Shape(w)
    ensures AddStep(w, tid, r).sure == w.sure && AddStep(w.(sure := sure), tid, r) == AddStep(w, tid, r).(sure := sure)
  {
  }

  lemma RemoveSure(w: World, tid: nat, k: Key, sure: iset<Key>)
    requires Shape(w)
    ensures RemoveStep(w, tid, k).sure == w.sure
    ensures RemoveStep(w.(sure := sure), tid, k) == RemoveStep(w, tid, k).(sure := sure)
  {
  }

  lemma RootSure(w: World, tid: nat, k: Key, i: nat, fid: Fid, sure: iset<Key>)
    requires Shape(w) && i < |w.t.slots|
    ensures RootStep(w, tid, k, i, fid).sure == w.sure
    ensures RootStep(w.(sure := sure), tid, k, i, fid) == RootStep(w, tid, k, i, fid).(sure := sure)
  {
  }

  lemma ContinueSure(w: World, tid: nat, sure: iset<Key>)
    requires Shape(w) && tid in w.phase
    ensures ContinueStep(w, tid).sure == w.sure
    ensures ContinueStep(w.(sure := sure), tid) == ContinueStep(w, tid).(sure := sure)
  {
    var ph := w.phase[tid];
    if !HasSlot(ph) || ph.slot < |w.t.slots| {
      match ph
      case RemoveRoot(k, i, fid) => RootSure(w, tid, k, i, fid, sure);
      case _ =>
    }
  }

  lemma FlagSure(w: World, k: Key, f: Flags, sure: iset<Key>)
    requires Shape(w)
    ensures AddFlagStep(w, k, f).sure == w.sure
    ensures AddFlagStep(w.(sure := sure), k, f) == AddFlagStep(w, k, f).(sure := sure)
  {
  }

  lemma InvalSure(w: World, s: Step, sure: iset<Key>)
    requires s.InvalVnode? || s.InvalView? || s.InvalNotFound? || s.RootFlush?
    ensures InvalStep(w.(sure := sure), s) == InvalStep(w, s).(sure := sure)
  {
  }

  /** Every run keeps the invariant for the sure keys, whatever the interleaving, if it adds them one at a time. */
  lemma {:induction false} RunInvFor(ws: seq<World>, steps: seq<Step>, n: nat)
    requires Run(ws, steps) && n <= |steps| && ws[0].t.geo.hashSize > 0
    requires ws[0] == Start(ws[0].t.geo, ws[0].target).(sure := ws[0].sure) && NonRoots() <= ws[0].sure
    requires forall m :: 0 <= m < n ==> Respects(ws[m], steps[m])
    ensures WInv(ws[n]) && ws[n].sure == ws[0].sure
  {
    if n == 0 {
      StartInv(ws[0]);
    } else {
      RunInvFor(ws, steps, n - 1);
      ApplySure(ws[n - 1], steps[n - 1], ws[0].sure);
      assert Respects(ws[n - 1], steps[n - 1]);
      StepInv(ws[n - 1], steps[n - 1]);
    }
  }

  ghost predicate FromStart(ws: seq<World>, steps: seq<Step>) {
    Run(ws, steps) && ws[0].t.geo.hashSize > 0 && ws[0] == Start(ws[0].t.geo, ws[0].target)
  }

  /** Every step keeps what the invariant says of keys that are not VOB roots, unlocked adds of roots included. */
  lemma AnyStepInv(w: World, s: Step)
    requires WInv(w) && w.sure == NonRoots() && Enabled(w, s)
    ensures WInv(Apply(w, s))
  {
    StepInv(w, s);
  }

  /** For keys that are not VOB roots the locks see to that, so every run keeps the invariant. */
  lemma {:induction false} RunInv(ws: seq<World>, steps: seq<Step>, n: nat)
    requires FromStart(ws, steps) && n <= |steps|
    ensures WInv(ws[n]) && ws[n].sure == NonRoots()
  {
    if n == 0 {
      StartInv(ws[0]);
    } else {
      RunInv(ws, steps, n - 1);
      ApplySure(ws[n - 1], steps[n - 1], NonRoots());
      AnyStepInv(ws[n - 1], steps[n - 1]);
    }
  }

  lemma ReachableInv(w: World)
    requires Reachable(w)
    ensures WInv(w) && w.sure == NonRoots()
  {
    var ws, steps :| IsRunTo(ws, steps, w);
    RunInv(ws, steps, |steps|);
  }

  lemma ReachableStart(geo: Geometry, target: Key -> View)
    requires geo.hashSize > 0
    ensures Reachable(Start(geo, target))
  {
    var w := Start(geo, target);
    assert IsRunTo([w], [], w);
  }

  lemma ReachableStep(w: World, s: Step)
    requires Reachable(w) && Shape(w) && Enabled(w, s)
    ensures Reachable(Apply(w, s)) && Shape(Apply(w, s))
  {
    assert Shape(Apply(w, s)) by {
      ReachableInv(w);
      StepInv(w, s);
    }
    var ws, steps :| IsRunTo(ws, steps, w);
    assert IsRunTo(ws + [Apply(w, s)], steps + [s], Apply(w, s));
  }

  /** Left alone, the last stretches of an add put its translation in the cache. */
  lemma FillFinishes(w: World, tid: nat, r: Req, i: nat) returns (w': World)
    requires Reachable(w) && Shape(w) && tid in w.phase && w.phase[tid] == AddSynonyms(r, i) && i < |w.t.slots|
    ensures Reachable(w') && Shape(w') && w'.phase == w.phase - {tid} && w'.locks == w.locks && w'.target == w.target
    ensures w'.last == w.last[r.key := BindingOf(r)] && |w'.t.slots| == |w.t.slots| && w'.t.geo == w.t.geo
    ensures w'.t.slots[i] == Filled(w.target, w.t.geo.hashSize, r)
    ensures w'.t.noentOther == w.t.noentOther + if Other(w'.t.slots[i]) then 1 else 0
  {
    ReachableStep(w, Continue(tid));
    var w1 := ContinueStep(w, tid);
    ReachableStep(w1, Continue(tid));
    w' := ContinueStep(w1, tid);
  }

  /** An add of a new name takes the head of its list and fills it. */
  lemma AddMissLeavesEntry(w: World, tid: nat, r: Req) returns (w': World, i: nat)
    requires Reachable(w) && Shape(w) && Enabled(w, Add(tid, r)) && Find(w.t, r.key).None? && w.t.lru[r.kind] != []
    ensures Reachable(w') && Shape(w') && w'.phase == w.phase && w'.locks == w.locks && w'.target == w.target
    ensures w'.last == w.last[r.key := BindingOf(r)] && w'.t.geo == w.t.geo
    ensures i < |w.t.slots| == |w'.t.slots| && w'.t.slots[i] == Filled(w.target, w.t.geo.hashSize, r)
    ensures Served(w'.t, r.key, r.who, i)
    ensures w'.t.noentOther == w.t.noentOther - Dropped(w.t, i) + if Other(w'.t.slots[i]) then 1 else 0
  {
    ReachableStep(w, Add(tid, r));
    var w1 := AddStep(w, tid, r);
    w', i := TakeLeavesEntry(w1, tid, r);
    assert w1.phase - {tid} == w.phase;
  }

  /** The rest of an add whose thread is about to take a slot, left alone. */
  lemma TakeLeavesEntry(w: World, tid: nat, r: Req) returns (w': World, i: nat)
    requires Reachable(w) && Shape(w) && tid in w.phase && w.phase[tid] == AddTake(r)
    requires ReqOk(w.target, r) && w.t.lru[r.kind] != []
    ensures Reachable(w') && Shape(w') && w'.phase == w.phase - {tid} && w'.locks == w.locks && w'.target == w.target
    ensures w'.last == w.last[r.key := BindingOf(r)] && w'.t.geo == w.t.geo
    ensures i < |w.t.slots| == |w'.t.slots| && w'.t.slots[i] == Filled(w.target, w.t.geo.hashSize, r)
    ensures Served(w'.t, r.key, r.who, i)
    ensures w'.t.noentOther == w.t.noentOther - Dropped(w.t, i) + if Other(w'.t.slots[i]) then 1 else 0
  {
    i := HeadInRange(w, r.kind);
    ReachableStep(w, Continue(tid));
    var w2 := ContinueStep(w, tid);
    w' := FillFinishes(w2, tid, r, i);
    assert w2.phase - {tid} == w.phase - {tid};
    FilledAccepts(w.target, w.t.geo.hashSize, r);
    FilledKey(w.target, w.t.geo.hashSize, r);
  }

  /** What the promise leaves out: no slot on the list of that kind, not even the one of the entry being replaced. */
  ghost predicate NoSlotLeft(w: World, r: Req)
    requires Shape(w) && r.kind < 3
  {
    var o := Find(w.t, r.key);
    w.t.lru[r.kind] == [] && !(o.Some? && Part(w.t.geo, o.value) == r.kind)
  }

  /**
    mfs_dncadd promises that on completion a valid entry for the name is in the cache:
    so it is, left alone, for a new name, for one whose translation has changed and for
    one that is there, valid or not; unless there is no slot left.
   */
  lemma AddLeavesEntry(w: World, tid: nat, r: Req) returns (w': World, i: nat)
    requires Reachable(w) && Shape(w) && Enabled(w, Add(tid, r)) && !NoSlotLeft(w, r)
    ensures Reachable(w') && Shape(w') && w'.phase == w.phase && w'.locks == w.locks && w'.t.geo == w.t.geo
    ensures w'.last == w.last[r.key := BindingOf(r)] && i < |w'.t.slots| && Served(w'.t, r.key, r.who, i)
    ensures w'.t.slots[i].vfid == r.fid && w'.t.slots[i].evtime == r.evtime && w'.t.slots[i].flags == r.flags
  {
    var o := Find(w.t, r.key);
    if o.None? {
      w', i := AddMissLeavesEntry(w, tid, r);
    } else if Unchanged(w.t.slots[o.value], r) {
      ReachableStep(w, Add(tid, r));
      w', i := AddStep(w, tid, r), o.value;
      MendedServes(w, tid, r, i);
    } else {
      w', i := AddReplaces(w, tid, r, o.value);
    }
  }

  lemma MendedServes(w: World, tid: nat, r: Req, i: nat)
    requires Reachable(w) && Shape(w) && Enabled(w, Add(tid, r))
    requires Find(w.t, r.key) == Some(i) && Unchanged(w.t.slots[i], r)
    ensures Served(AddStep(w, tid, r).t, r.key, r.who, i)
  {
    var e := w.t.slots[i];
    assert SlotOk(w.t.geo, i, e) by { ReachableInv(w); }
    MendedAccepts(e, r);
  }

  lemma MendedAccepts(e: Entry, r: Req)
    requires e.ring.bhx < |e.ring.bh| == BH_MAX && e.evtime == r.evtime
    ensures Accepts(Mended(e, r).ring, r.evtime, r.who)
  {
    var ring0 := if e.invalid then Reset(r.who.bh) else e.ring;
    var ring1 := if r.flags.bhInvariant then ring0.(nullbh := true) else ring0;
    if !Accepts(ring1, e.evtime, r.who) && !r.who.bh.IsNull() {
      assert BuildHandles.Add(ring1, r.who.bh).bh[ring1.bhx] == r.who.bh;
    }
  }

  lemma AddReplaces(w: World, tid: nat, r: Req, o: nat) returns (w': World, i: nat)
    requires Reachable(w) && Shape(w) && Enabled(w, Add(tid, r))
    requires Find(w.t, r.key) == Some(o) && !Unchanged(w.t.slots[o], r)
    requires !NoSlotLeft(w, r)
    ensures Reachable(w') && Shape(w') && w'.phase == w.phase && w'.locks == w.locks && w'.t.geo == w.t.geo
    ensures w'.last == w.last[r.key := BindingOf(r)] && i < |w'.t.slots| && Served(w'.t, r.key, r.who, i)
    ensures w'.t.slots[i].vfid == r.fid && w'.t.slots[i].evtime == r.evtime && w'.t.slots[i].flags == r.flags
  {
    var w2 := w.(t := Release(Detach(w.t, o), o), last := w.last - {r.key}, phase := w.phase[tid := AddTake(r)]);
    assert Reachable(w2) && Shape(w2) by { FreedReachable(w, tid, r, o, w2); }
    FreedSlot(w, r, o);
    w', i := TakeAfterFreeing(w, w2, tid, r);
  }

  lemma TakeAfterFreeing(w: World, w2: World, tid: nat, r: Req) returns (w': World, i: nat)
    requires Reachable(w2) && Shape(w2) && ReqOk(w2.target, r) && w2.t.lru[r.kind] != [] && tid !in w.phase
    requires w2.phase == w.phase[tid := AddTake(r)] && w2.last == w.last - {r.key} && w2.locks == w.locks
    ensures Reachable(w') && Shape(w') && w'.phase == w.phase && w'.locks == w.locks && w'.t.geo == w2.t.geo
    ensures w'.last == w.last[r.key := BindingOf(r)] && i < |w'.t.slots| && Served(w'.t, r.key, r.who, i)
    ensures w'.t.slots[i].vfid == r.fid && w'.t.slots[i].evtime == r.evtime && w'.t.slots[i].flags == r.flags
  {
    w', i := TakeLeavesEntry(w2, tid, r);
    assert w2.phase - {tid} == w.phase;
  }

  /** The superseded entry is taken out and its slot freed. */
  lemma FreedReachable(w: World, tid: nat, r: Req, o: nat, w2: World)
    requires Reachable(w) && Shape(w) && Enabled(w, Step.Add(tid, r))
    requires Find(w.t, r.key) == Some(o) && !Unchanged(w.t.slots[o], r)
    requires w2 == w.(t := Release(Detach(w.t, o), o), last := w.last - {r.key}, phase := w.phase[tid := AddTake(r)])
    ensures Reachable(w2) && Shape(w2)
  {
    var w1 := AddStep(w, tid, r);
    assert Reachable(w1) && Shape(w1) by { ReachableStep(w, Step.Add(tid, r)); }
    assert Reachable(Apply(w1, Continue(tid))) && Shape(Apply(w1, Continue(tid))) by {
      ReachableStep(w1, Continue(tid));
    }
    assert ContinueStep(w1, tid) == w2;
  }

  lemma FreedSlot(w: World, r: Req, o: nat)
    requires Shape(w) && r.kind < 3 && o < |w.t.slots| && Find(w.t, r.key) == Some(o) && !NoSlotLeft(w, r)
    requires w.t.lru[r.kind] != [] || Part(w.t.geo, o) == r.kind
    ensures Release(Detach(w.t, o), o).lru[r.kind] != []
  {
  }

  lemma HeadInRange(w: World, kind: nat) returns (i: nat)
    requires Reachable(w) && kind < 3 && |w.t.lru| == 3 && w.t.lru[kind] != []
    ensures i == w.t.lru[kind][0] && i < |w.t.slots|
  {
    ReachableInv(w);
    assert LruOk(w.t.geo, w.t.slots, kind, w.t.lru[kind]);
    i := w.t.lru[kind][0];
    assert i in w.t.lru[kind];
  }

  lemma FilledAccepts(target: Key -> View, size: nat, r: Req)
    requires size > 0
    ensures Accepts(Filled(target, size, r).ring, r.evtime, r.who)
  {
    if !r.who.bh.IsNull() { assert Reset(r.who.bh).bh[0].session == r.who.bh.session; }
  }

  lemma FilledKey(target: Key -> View, size: nat, r: Req)
    requires size > 0 && ReqOk(target, r)
    ensures Matches(Filled(target, size, r), r.key) && Filled(target, size, r).hash == KeyChain(r.key, size)
  {
  }

  // ---- The cache against the plain map ----

  /** What a case-sensitive lookup may hand out: a matching entry, valid, with an acceptable build handle. */
  predicate Served(t: Table, k: Key, who: Who, i: nat)
    requires t.geo.hashSize > 0
  {
    Hit(t, k, i) && !t.slots[i].invalid && Accepts(t.slots[i].ring, t.slots[i].evtime, who)
  }

  /** A step that skips the invalidation of not-found entries although there is one. */
  ghost predicate Skips(w: World, s: Step) { s.InvalNotFound? && BadSkip(w) }

  /** No add of this key begins while another thread is past the search of one. */
  ghost predicate OneByOne(ws: seq<World>, steps: seq<Step>, n: nat, k: Key)
    requires n <= |steps| < |ws|
  {
    forall m, b :: 0 <= m < n && steps[m].Add? && steps[m].req.key == k ==> !AddsKey(ws[m], b, k)
  }

  /**
    The answer is the translation last added for the key, and no other slot could have
    answered: in every run, unless an invalidation was wrongly skipped, for every key that
    is not a VOB root, and for every VOB root of which no two adds overlapped.
   */
  lemma ServedIsLastAdded(ws: seq<World>, steps: seq<Step>, n: nat, k: Key, who: Who, i: nat)
    requires FromStart(ws, steps) && n <= |steps| && (k.name != DOT || OneByOne(ws, steps, n, k))
    requires forall m :: 0 <= m < n ==> !Skips(ws[m], steps[m])
    requires ws[n].t.geo.hashSize > 0 && Served(ws[n].t, k, who, i)
    ensures var e := ws[n].t.slots[i]; k in ws[n].last && ws[n].last[k] == Binding(e.vfid, e.evtime, e.flags.notInDir)
    ensures Find(ws[n].t, k) == Some(i)
  {
    var vs := Assured(ws, steps, n, k);
    ExactIff(vs, steps, n);
    forall m | 0 <= m < n ensures !Skips(vs[m], steps[m]) { assert !Skips(ws[m], steps[m]); }
    ServedAgrees(vs[n], k, who, i);
  }

  /** In a world that keeps the invariant, an answer for a sure key is the one the reference map has. */
  lemma ServedAgrees(w: World, k: Key, who: Who, i: nat)
    requires WInv(w) && w.exact && k in w.sure && Served(w.t, k, who, i)
    ensures k in w.last && w.last[k] == Binding(w.t.slots[i].vfid, w.t.slots[i].evtime, w.t.slots[i].flags.notInDir)
    ensures Find(w.t, k) == Some(i)
  {
    ChainAnswersForTable(w.t, k, i);
    ChainAnswersForTable(w.t, k, Find(w.t, k).value);
    assert AgreesAt(w, w.t.slots[i]);
  }

  /** The same run with one more sure key. */
  ghost function With(ws: seq<World>, k: Key): seq<World> {
    seq(|ws|, m requires 0 <= m < |ws| => ws[m].(sure := NonRoots() + iset{k}))
  }

  lemma Assured(ws: seq<World>, steps: seq<Step>, n: nat, k: Key) returns (vs: seq<World>)
    requires FromStart(ws, steps) && n <= |steps| && (k.name != DOT || OneByOne(ws, steps, n, k))
    ensures vs == With(ws, k) && Run(vs, steps) && WInv(vs[n]) && vs[n].sure == NonRoots() + iset{k} && vs[0].exact
  {
    vs := With(ws, k);
    forall m | 0 <= m < |steps|
      ensures Shape(vs[m]) && Enabled(vs[m], steps[m]) && vs[m + 1] == Apply(vs[m], steps[m])
    {
      ApplySure(ws[m], steps[m], NonRoots() + iset{k});
    }
    forall m | 0 <= m < n ensures Respects(vs[m], steps[m]) {
      if steps[m].Add? && steps[m].req.key == k {
        forall b ensures k.name == DOT ==> !AddsKey(vs[m], b, k) { assert k.name == DOT ==> !AddsKey(ws[m], b, k); }
      }
    }
    RunInvFor(vs, steps, n);
  }

  // ---- Slots and eviction ----

  /** No slot is lost: each is on its own list exactly once, or private to a thread and on no list or chain. */
  ghost predicate Accounted(w: World) {
    forall i :: 0 <= i < |w.t.slots| && w.t.slots[i].inTrans ==> exists a :: Holder(w, a, i)
  }

  ghost predicate Holder(w: World, a: nat, i: nat) {
    a in w.phase && HasSlot(w.phase[a]) && w.phase[a].slot == i
  }

  lemma AccountedTake(w: World, w': World, tid: nat, i: nat)
    requires Accounted(w) && i < |w.t.slots| && |w.t.lru| == 3 && (tid in w.phase ==> !HasSlot(w.phase[tid]))
    requires |w'.t.slots| == |w.t.slots|
    requires forall j :: 0 <= j < |w.t.slots| && j != i ==> w'.t.slots[j].inTrans == w.t.slots[j].inTrans
    requires tid in w'.phase && w'.phase == w.phase[tid := w'.phase[tid]]
    requires HasSlot(w'.phase[tid]) && w'.phase[tid].slot == i
    ensures Accounted(w')
  {
    forall j | 0 <= j < |w'.t.slots| && w'.t.slots[j].inTrans ensures exists a :: Holder(w', a, j) {
      if j == i {
        assert Holder(w', tid, j);
      } else {
        var a :| Holder(w, a, j);
        assert Holder(w', a, j);
      }
    }
  }

  lemma AccountedGive(w: World, w': World, tid: nat, i: nat)
    requires Accounted(w) && Holder(w, tid, i) && i < |w.t.slots|
    requires |w'.t.slots| == |w.t.slots| && !w'.t.slots[i].inTrans
    requires forall j :: 0 <= j < |w.t.slots| && j != i ==> w'.t.slots[j].inTrans == w.t.slots[j].inTrans
    requires forall a :: a != tid && a in w.phase ==> a in w'.phase && w'.phase[a] == w.phase[a]
    ensures Accounted(w')
  {
    forall j | 0 <= j < |w'.t.slots| && w'.t.slots[j].inTrans ensures exists a :: Holder(w', a, j) {
      var a :| Holder(w, a, j);
      assert Holder(w', a, j);
    }
  }

  lemma AccountedKeep(w: World, w': World)
    requires Accounted(w) && |w'.t.slots| == |w.t.slots|
    requires forall j :: 0 <= j < |w.t.slots| ==> w'.t.slots[j].inTrans == w.t.slots[j].inTrans
    requires forall a :: a in w.phase && HasSlot(w.phase[a]) ==>
             a in w'.phase && HasSlot(w'.phase[a]) && w'.phase[a].slot == w.phase[a].slot
    ensures Accounted(w')
  {
    forall j | 0 <= j < |w'.t.slots| && w'.t.slots[j].inTrans ensures exists a :: Holder(w', a, j) {
      var a :| Holder(w, a, j);
      assert Holder(w', a, j);
    }
  }

  lemma AccountedTakeStep(w: World, tid: nat, r: Req)
    requires Shape(w) && Accounted(w) && tid in w.phase && w.phase[tid] == AddTake(r)
    ensures Accounted(TakeStep(w, tid, r))
  {
    if tid !in TakeStep(w, tid, r).phase {
      AccountedKeep(w, TakeStep(w, tid, r));
    } else {
      AccountedTake(w, TakeStep(w, tid, r), tid, w.t.lru[r.kind][0]);
    }
  }

  lemma AccountedRootStep(w: World, tid: nat, k: Key, i: nat, fid: Fid)
    requires Shape(w) && i < |w.t.slots| && Accounted(w) && tid in w.phase && w.phase[tid] == RemoveRoot(k, i, fid)
    ensures Accounted(RootStep(w, tid, k, i, fid))
  {
    AccountedKeep(w, RootStep(w, tid, k, i, fid));
  }

  lemma AccountedRemoveStep(w: World, tid: nat, k: Key)
    requires Shape(w) && Accounted(w) && tid !in w.phase
    ensures Accounted(RemoveStep(w, tid, k))
  {
    var w', o := RemoveStep(w, tid, k), Find(w.t, k);
    if o.Some? { AccountedTake(w, w', tid, o.value); } else { AccountedKeep(w, w'); }
  }

  lemma AccountedRelease(w: World, w': World, tid: nat, i: nat)
    requires Accounted(w) && Holder(w, tid, i) && i < |w.t.slots| && |w.t.lru| == 3 && w'.t == Release(w.t, i)
    requires w'.phase == w.phase - {tid} || (w.phase[tid].AddReturn? &&
             w'.phase == w.phase[tid := AddTake(w.phase[tid].req)])
    ensures Accounted(w')
  {
    AccountedGive(w, w', tid, i);
  }

  lemma AccountedInsertStep(w: World, tid: nat, r: Req, i: nat)
    requires Shape(w) && i < |w.t.slots| && Accounted(w) && Holder(w, tid, i)
    ensures Accounted(InsertStep(w, tid, r, i))
  {
    AccountedGive(w, InsertStep(w, tid, r, i), tid, i);
  }

  lemma AccountedSynonyms(w: World, tid: nat, r: Req, i: nat)
    requires w.t.geo.hashSize > 0 && Accounted(w) && tid in w.phase && w.phase[tid] == AddSynonyms(r, i)
    ensures Accounted(w.(t := SweepSynonyms(w.t, r.key), phase := w.phase[tid := AddInsert(r, i)]))
  {
    AccountedKeep(w, w.(t := SweepSynonyms(w.t, r.key), phase := w.phase[tid := AddInsert(r, i)]));
  }

  lemma AccountedContinue(w: World, tid: nat)
    requires Shape(w) && Accounted(w) && tid in w.phase
    ensures Accounted(ContinueStep(w, tid))
  {
    var ph := w.phase[tid];
    if !HasSlot(ph) || ph.slot < |w.t.slots| {
      match ph
      case AddReturn(r, i) => AccountedRelease(w, ContinueStep(w, tid), tid, i);
      case AddTake(r) => AccountedTakeStep(w, tid, r);
      case AddSynonyms(r, i) => AccountedSynonyms(w, tid, r, i);
      case AddInsert(r, i) => AccountedInsertStep(w, tid, r, i);
      case RemoveRoot(k, i, fid) => AccountedRootStep(w, tid, k, i, fid);
      case Return(i) => AccountedRelease(w, ContinueStep(w, tid), tid, i);
    }
  }

  lemma AccountedAdd(w: World, tid: nat, r: Req)
    requires Shape(w) && Accounted(w) && tid !in w.phase
    ensures Accounted(AddStep(w, tid, r))
  {
    var w', o := AddStep(w, tid, r), Find(w.t, r.key);
    if o.Some? && !Unchanged(w.t.slots[o.value], r) {
      AccountedTake(w, w', tid, o.value);
    } else {
      AccountedKeep(w, w');
    }
  }

  lemma AccountedInval(w: World, s: Step)
    requires Accounted(w) && (s.InvalVnode? || s.InvalView? || s.InvalNotFound? || s.RootFlush?)
    ensures Accounted(InvalStep(w, s))
  {
    AccountedKeep(w, InvalStep(w, s));
  }

  lemma AccountedStep(w: World, s: Step)
    requires Shape(w) && Accounted(w) && Enabled(w, s)
    ensures Accounted(Apply(w, s))
  {
    match s
    case Continue(tid) => AccountedContinue(w, tid);
    case Add(tid, r) => AccountedAdd(w, tid, r);
    case Remove(tid, k) => AccountedRemoveStep(w, tid, k);
    case Flush(tid, i) => AccountedTake(w, Apply(w, s), tid, i);
    case Lock(_, _) => AccountedKeep(w, Apply(w, s));
    case Unlock(_, _) => AccountedKeep(w, Apply(w, s));
    case LookupHit(_, _) => AccountedKeep(w, Apply(w, s));
    case AddFlag(_, k, f) => AccountedKeep(w, AddFlagStep(w, k, f));
    case _ => AccountedInval(w, s);
  }

  lemma {:induction false} RunAccounted(ws: seq<World>, steps: seq<Step>, n: nat)
    requires FromStart(ws, steps) && n <= |steps|
    ensures Accounted(ws[n])
  {
    if n > 0 {
      RunAccounted(ws, steps, n - 1);
      AccountedStep(ws[n - 1], steps[n - 1]);
    }
  }

  /** In any reachable world a slot is on its own list once, or off every list and chain and held by one thread. */
  lemma EverySlotPlaced(w: World, i: nat)
    requires Reachable(w) && i < |w.t.slots|
    ensures |w.t.lru| == 3
    ensures forall p :: 0 <= p < 3 ==>
              NoDup(w.t.lru[p]) && (i in w.t.lru[p] <==> !w.t.slots[i].inTrans && p == Part(w.t.geo, i))
    ensures w.t.slots[i].inTrans ==>
              !Hashed(w.t.slots[i]) && exists a :: Holder(w, a, i) && forall b :: Holder(w, b, i) ==> b == a
  {
    var ws, steps :| IsRunTo(ws, steps, w);
    RunInv(ws, steps, |steps|);
    RunAccounted(ws, steps, |steps|);
    assert SlotOk(w.t.geo, i, w.t.slots[i]);
    forall p | 0 <= p < 3
      ensures NoDup(w.t.lru[p]) && (i in w.t.lru[p] <==> !w.t.slots[i].inTrans && p == Part(w.t.geo, i))
    {
      assert LruOk(w.t.geo, w.t.slots, p, w.t.lru[p]);
    }
    if w.t.slots[i].inTrans {
      var a :| Holder(w, a, i);
      assert forall b :: Holder(w, b, i) ==> b == a;
    }
  }

  /** The slot an add takes: a free one while there is one, else the least recently filled or hit. */
  lemma EvictionIsLru(w: World, tid: nat, r: Req)
    requires WInv(w) && tid in w.phase && w.phase[tid] == AddTake(r) && r.kind < 3 && w.t.lru[r.kind] != []
    ensures tid in ContinueStep(w, tid).phase && ContinueStep(w, tid).phase[tid] == AddSynonyms(r, w.t.lru[r.kind][0])
    ensures var v := w.t.lru[r.kind][0];
            HashedAt(w.t.slots, v) ==>
              forall i :: 0 <= i < |w.t.slots| && Part(w.t.geo, i) == r.kind && !w.t.slots[i].inTrans && i != v ==>
                            Hashed(w.t.slots[i]) && w.stamp[v] < w.stamp[i]
  {
    var s := w.t.lru[r.kind];
    var v := s[0];
    assert v in s;
    assert PhaseOk(w, tid, w.phase[tid]) && LruOk(w.t.geo, w.t.slots, r.kind, s);
    if HashedAt(w.t.slots, v) {
      forall i | 0 <= i < |w.t.slots| && Part(w.t.geo, i) == r.kind && !w.t.slots[i].inTrans && i != v
        ensures Hashed(w.t.slots[i]) && w.stamp[v] < w.stamp[i]
      {
        var b :| 0 <= b < |s| && s[b] == i;
      }
    }
  }

  // ---- Scans that look at less than the whole table ----

  /** A synonym anywhere in the table is on the chain that the walk visits. */
  lemma SynonymsOnOneChain(t: Table, k: Key, i: nat)
    requires SlotsOk(t) && i < |t.slots| && Hashed(t.slots[i]) && k.name != DOT && Synonym(t.slots[i], k)
    ensures t.slots[i].hash == KeyChain(k, t.geo.hashSize)
  {
    var e := t.slots[i];
    assert SlotOk(t.geo, i, e);
    SynonymsShareChain(e.name, k.name, k.dfid.dbid, k.dfid.gen, t.geo.hashSize);
    assert e.name != DOT;
  }

  /** After the walk no valid synonym of the name is left anywhere. */
  lemma WalkCoversTable(t: Table, k: Key)
    requires SlotsOk(t) && k.name != DOT
    ensures forall i :: 0 <= i < |t.slots| && Hashed(t.slots[i]) && Synonym(t.slots[i], k) ==>
            SweepSynonyms(t, k).slots[i].invalid
  {
    forall i | 0 <= i < |t.slots| && Hashed(t.slots[i]) && Synonym(t.slots[i], k)
      ensures SweepSynonyms(t, k).slots[i].invalid
    {
      SynonymsOnOneChain(t, k, i);
    }
  }

  /** Hence every remove, and every add that takes a slot, leaves no valid case-insensitive synonym behind. */
  lemma NoSynonymSurvives(w: World, s: Step, k: Key, i: nat)
    requires WInv(w) && Enabled(w, s) && k.name != DOT
    requires (s.Remove? && s.key == k) || (s.Continue? && w.phase[s.tid].AddSynonyms? && w.phase[s.tid].req.key == k)
    requires i < |Apply(w, s).t.slots| && Hashed(Apply(w, s).t.slots[i]) && Synonym(Apply(w, s).t.slots[i], k)
    ensures Apply(w, s).t.slots[i].invalid
  {
    WalkCoversTable(w.t, k);
    if s.Remove? && Find(w.t, k).Some? {
      DetachInv(w.t, Find(w.t, k).value);
      WalkCoversTable(Detach(w.t, Find(w.t, k).value), k);
    }
  }

  /** Root entries live only in the directory partition, so a scan of that part is a scan of all. */
  lemma RootScanIsFullScan(t: Table, view: View, only: Option<Vfs>)
    requires TableInv(t)
    ensures Sweep(t, 0, t.geo.dirMax, HitsRoot(view, only)) == Sweep(t, 0, |t.slots|, HitsRoot(view, only))
  {
    var a, b := Sweep(t, 0, t.geo.dirMax, HitsRoot(view, only)), Sweep(t, 0, |t.slots|, HitsRoot(view, only));
    forall i | 0 <= i < |t.slots| ensures a.slots[i] == b.slots[i] {
      assert SlotOk(t.geo, i, t.slots[i]);
    }
    assert a.slots == b.slots;
  }

  /** The full form of the not-found scan: every not-found entry that is not due to an absent name. */
  function HitsOther(): Entry -> bool {
    (e: Entry) => Other(e)
  }

  /** Not-found entries, and nothing else, live from the start of the last partition. */
  lemma NotFoundScanIsFullScan(t: Table)
    requires TableInv(t)
    ensures Sweep(t, t.geo.NoentStart(), |t.slots|, HitsNotFound()) == Sweep(t, 0, |t.slots|, HitsOther())
  {
    var a, b := Sweep(t, t.geo.NoentStart(), |t.slots|, HitsNotFound()), Sweep(t, 0, |t.slots|, HitsOther());
    forall i | 0 <= i < |t.slots| ensures a.slots[i] == b.slots[i] {
      assert SlotOk(t.geo, i, t.slots[i]);
    }
    assert a.slots == b.slots;
  }

  // ---- Skipping the not-found scan ----

  lemma {:induction false} ExactIff(ws: seq<World>, steps: seq<Step>, n: nat)
    requires Run(ws, steps) && ws[0].exact && n <= |steps|
    ensures ws[n].exact <==> forall m :: 0 <= m < n ==> !Skips(ws[m], steps[m])
  {
    if n > 0 {
      ExactIff(ws, steps, n - 1);
      ExactStep(ws[n - 1], steps[n - 1]);
    }
  }

  lemma ExactStep(w: World, s: Step)
    requires Shape(w) && Enabled(w, s)
    ensures Apply(w, s).exact <==> w.exact && !Skips(w, s)
  {
    match s
    case Add(tid, r) => assert AddStep(w, tid, r).exact == w.exact;
    case AddFlag(tid, k, f) => assert AddFlagStep(w, k, f).exact == w.exact;
    case Continue(tid) => assert ContinueStep(w, tid).exact == w.exact;
    case Remove(tid, k) => assert RemoveStep(w, tid, k).exact == w.exact;
    case _ =>
  }

  /** From an agreeing world, invalidating the not-found entries keeps agreement exactly if it does not wrongly skip. */
  lemma SkipBreaks(w: World)
    requires WInv(w) && Agrees(w)
    ensures Agrees(InvalStep(w, InvalNotFound)) <==> !BadSkip(w)
  {
    if BadSkip(w) { SkippedDisagrees(w); } else { NotFoundAgrees(w); }
  }

  lemma SkippedDisagrees(w: World)
    requires SlotsOk(w.t) && Agrees(w) && BadSkip(w) && NonRoots() <= w.sure
    ensures !Agrees(InvalStep(w, InvalNotFound))
  {
    var w' := InvalStep(w, InvalNotFound);
    var i: nat :| LiveOther(w.t, i);
    assert SlotOk(w.t.geo, i, w.t.slots[i]) && w'.t == w.t && KeyOf(w.t.slots[i]) in NonRoots();
    assert AgreesAt(w, w.t.slots[i]) && !AgreesAt(w', w.t.slots[i]);
  }

  /**
    The cache agrees with the reference map throughout a run if and only if no invalidation in
    it is wrongly skipped.
   */
  lemma {:induction false} AgreesIffNoSkip(ws: seq<World>, steps: seq<Step>, n: nat)
    requires FromStart(ws, steps) && n <= |steps|
    ensures (forall m :: 0 <= m <= n ==> Agrees(ws[m])) <==> (forall m :: 0 <= m < n ==> !Skips(ws[m], steps[m]))
  {
    if n == 0 {
      assert Agrees(ws[0]) by { RunInv(ws, steps, 0); }
    } else {
      AgreesIffNoSkip(ws, steps, n - 1);
      if forall m :: 0 <= m <= n - 1 ==> Agrees(ws[m]) {
        assert Agrees(ws[n]) <==> !Skips(ws[n - 1], steps[n - 1]) by {
          ExactIff(ws, steps, n - 1);
          AgreesNext(ws, steps, n - 1);
        }
      }
    }
  }

  lemma AgreesNext(ws: seq<World>, steps: seq<Step>, n: nat)
    requires FromStart(ws, steps) && n < |steps| && ws[n].exact && Agrees(ws[n])
    ensures Agrees(ws[n + 1]) <==> !Skips(ws[n], steps[n])
  {
    RunInv(ws, steps, n);
    assert ws[n + 1].exact ==> Agrees(ws[n + 1]) by { RunInv(ws, steps, n + 1); }
    ExactStep(ws[n], steps[n]);
    if Skips(ws[n], steps[n]) { SkipBreaks(ws[n]); }
  }

  /** Re-adding a name known to be absent as one that is merely not found: the guard a caller can check. */
  ghost predicate Clears(w: World, s: Step)
    requires Shape(w)
  {
    s.Add? && var o := Find(w.t, s.req.key);
              o.Some? && Unchanged(w.t.slots[o.value], s.req) && s.req.fid.IsNull() &&
              w.t.slots[o.value].flags.notInDir && !s.req.flags.notInDir
  }

  lemma DriftStep(w: World, s: Step)
    requires Shape(w) && Enabled(w, s)
    ensures Apply(w, s).drift <= w.drift + if Clears(w, s) then 1 else 0
  {
    match s
    case Add(tid, r) => assert AddStep(w, tid, r).drift <= w.drift + if Clears(w, s) then 1 else 0;
    case AddFlag(tid, k, f) => assert AddFlagStep(w, k, f).drift <= w.drift;
    case Continue(tid) => assert ContinueStep(w, tid).drift == w.drift;
    case Remove(tid, k) => assert RemoveStep(w, tid, k).drift == w.drift;
    case _ =>
  }

  lemma {:induction false} NoClearsNoDrift(ws: seq<World>, steps: seq<Step>, n: nat)
    requires FromStart(ws, steps) && n <= |steps| && forall m :: 0 <= m < n ==> !Clears(ws[m], steps[m])
    ensures ws[n].drift <= 0
  {
    if n > 0 {
      NoClearsNoDrift(ws, steps, n - 1);
      DriftStep(ws[n - 1], steps[n - 1]);
    }
  }

  /** In a run without such re-adds a zero counter does mean that there is no such entry, so no skip is wrong. */
  lemma ZeroCounterMeansNone(ws: seq<World>, steps: seq<Step>, n: nat)
    requires FromStart(ws, steps) && n <= |steps| && forall m :: 0 <= m < n ==> !Clears(ws[m], steps[m])
    ensures OtherCount(ws[n].t.slots) <= ws[n].t.noentOther && !BadSkip(ws[n])
  {
    NoClearsNoDrift(ws, steps, n);
    RunInv(ws, steps, n);
    if ws[n].t.noentOther == 0 {
      forall i: nat ensures !LiveOther(ws[n].t, i) {
        if i < |ws[n].t.slots| { CountZero(ws[n].t.slots, i); }
      }
    }
  }

  /** Hence, without such re-adds, what is served is what was last added. */
  lemma ServedWithoutClears(ws: seq<World>, steps: seq<Step>, n: nat, k: Key, who: Who, i: nat)
    requires FromStart(ws, steps) && n <= |steps| && (k.name != DOT || OneByOne(ws, steps, n, k))
    requires forall m :: 0 <= m < n ==> !Clears(ws[m], steps[m])
    requires ws[n].t.geo.hashSize > 0 && Served(ws[n].t, k, who, i)
    ensures var e := ws[n].t.slots[i]; k in ws[n].last && ws[n].last[k] == Binding(e.vfid, e.evtime, e.flags.notInDir)
  {
    forall m | 0 <= m < n ensures !Skips(ws[m], steps[m]) { ZeroCounterMeansNone(ws, steps, m); }
    ServedIsLastAdded(ws, steps, n, k, who, i);
  }
}
