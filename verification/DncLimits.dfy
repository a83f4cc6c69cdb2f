/**
  Where the name cache falls short of the plain map, and exactly when.
 */
module DncLimits {
  import opened BuildHandles
  import opened DncRun
  import opened DncRunProofs
  import opened DncTable
  import opened DncTheorems
  import opened NameHash
  import opened Rings

  /**
    Re-adding a not-found entry without the "absent name" flag, while the counter is
    zero, and then invalidating all such entries: the scan is skipped and the entry,
    whose binding is gone, is still served.
   */
  lemma FlippedEntrySurvives(w: World, tid: nat, r: Req, i: nat)
    requires Shape(w) && SlotsOk(w.t) && Enabled(w, Add(tid, r))
    requires Find(w.t, r.key) == Some(i) && Unchanged(w.t.slots[i], r)
    requires r.fid.IsNull() && w.t.slots[i].flags.notInDir && !r.flags.notInDir && w.t.noentOther == 0
    ensures Clears(w, Add(tid, r)) && Shape(Apply(w, Add(tid, r)))
    ensures var w' := Apply(Apply(w, Add(tid, r)), InvalNotFound);
            Hit(w'.t, r.key, i) && !w'.t.slots[i].invalid && r.key !in w'.last
  {
    var w1 := AddStep(w, tid, r);
    assert SlotOk(w.t.geo, i, w.t.slots[i]) && w1.t.slots[i] == Mended(w.t.slots[i], r);
    assert Hit(w1.t, r.key, i);
    var w2 := InvalStep(w1, InvalNotFound);
    assert w2.t == w1.t;
  }

  // A table with one slot, one chain and one name is enough to get there.

  const KEY := Key(View(0, 0), Vfs(0, 0, Fid(9, 9)), Fid(1, 1), [97])
  const NOBODY := Who(Bh(0, 0), false, Time(0, 0))

  function NotFound(notInDir: bool): Req {
    Req(KEY, Fid(0, 0), Time(0, 0), Flags(false, notInDir, false, false), NOENT, NOBODY, 0, 0)
  }

  /** One lock and one add, left alone, cache the not-found translation and leave the counter at zero. */
  lemma ReachesNotFound() returns (w: World)
    ensures Reachable(w) && Shape(w) && Enabled(w, Add(0, NotFound(false))) && w.t.noentOther == 0
    ensures Hit(w.t, KEY, 0) && w.t.slots[0] == Filled(w.target, w.t.geo.hashSize, NotFound(true))
  {
    var geo, target := Geometry(0, 0, 1, 1), (k: Key) => k.view;
    ReachableStart(geo, target);
    var w0 := Start(geo, target);
    ReachableStep(w0, Lock(0, DirOf(KEY)));
    var w1 := w0.(locks := map[DirOf(KEY) := 0]);
    assert Apply(w0, Lock(0, DirOf(KEY))) == w1;
    assert w1.t.lru[NOENT] == [0] && |w1.t.slots| == 1 && w1.t.slots[0] == Blank();
    var i;
    w, i := AddMissLeavesEntry(w1, 0, NotFound(true));
  }

  /** So agreement is lost on a real run: the hypothesis that no in-place change flips the flag cannot be dropped. */
  lemma StaleNotFoundIsServed() returns (w: World)
    ensures Reachable(w) && Shape(w)
    ensures Served(w.t, KEY, NOBODY, 0) && w.t.slots[0].vfid.IsNull() && KEY !in w.last
  {
    var w0 := ReachesNotFound();
    var r := NotFound(false);
    assert Find(w0.t, KEY) == Some(0) by { ReachableInv(w0); ChainAnswersForTable(w0.t, KEY, Find(w0.t, KEY).value); }
    assert SlotsOk(w0.t) by { ReachableInv(w0); }
    FlippedEntrySurvives(w0, 0, r, 0);
    ReachableStep(w0, Add(0, r));
    var w1 := AddStep(w0, 0, r);
    assert w1.t.slots[0] == Mended(w0.t.slots[0], r) && w1.t.noentOther == 0;
    ReachableStep(w1, InvalNotFound);
    w := Apply(w1, InvalNotFound);
    assert w.t == w1.t;
  }
}
