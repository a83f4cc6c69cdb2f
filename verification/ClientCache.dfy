/**
  What a cache step can do to the reference map, to the adds in flight and to the locks.
 */
module ClientCache {
  import opened BuildHandles
  import opened DncRun
  import opened DncTable
  import opened NameHash

  /** Thread tid is adding r. */
  ghost predicate Pends(w: World, tid: nat, r: Req) {
    tid in w.phase && Adding(w.phase[tid]) && w.phase[tid].req == r
  }

  /** Nothing gets into the map but by an add, and nothing there changes its object otherwise. */
  ghost predicate Kept(w: World, w': World) {
    forall k :: k in w'.last ==> k in w.last && w'.last[k].fid == w.last[k].fid
  }

  ghost predicate SamePends(w: World, w': World) {
    forall tid, r :: Pends(w', tid, r) ==> Pends(w, tid, r)
  }

  lemma AddEffect(w: World, tid: nat, r: Req)
    requires Shape(w) && tid !in w.phase
    ensures forall k :: k in AddStep(w, tid, r).last ==>
              if k == r.key then AddStep(w, tid, r).last[k].fid == r.fid
              else k in w.last && AddStep(w, tid, r).last[k].fid == w.last[k].fid
    ensures forall t, q :: Pends(AddStep(w, tid, r), t, q) ==> Pends(w, t, q) || (t == tid && q == r)
    ensures AddStep(w, tid, r).locks == w.locks
  {
  }

  lemma RemoveEffect(w: World, tid: nat, k: Key)
    requires Shape(w) && tid !in w.phase
    ensures Kept(w, RemoveStep(w, tid, k)) && k !in RemoveStep(w, tid, k).last
    ensures SamePends(w, RemoveStep(w, tid, k)) && RemoveStep(w, tid, k).locks == w.locks
  {
  }

  lemma RootEffect(w: World, tid: nat, k: Key, i: nat, fid: Fid)
    requires Shape(w) && i < |w.t.slots| && tid in w.phase && w.phase[tid] == RemoveRoot(k, i, fid)
    ensures Kept(w, RootStep(w, tid, k, i, fid))
    ensures SamePends(w, RootStep(w, tid, k, i, fid)) && RootStep(w, tid, k, i, fid).locks == w.locks
  {
  }

  lemma TakeEffect(w: World, tid: nat, r: Req)
    requires Shape(w) && tid in w.phase && w.phase[tid] == AddTake(r)
    ensures TakeStep(w, tid, r).last == w.last && SamePends(w, TakeStep(w, tid, r))
    ensures TakeStep(w, tid, r).locks == w.locks
  {
  }

  lemma InsertEffect(w: World, tid: nat, r: Req, i: nat)
    requires Shape(w) && i < |w.t.slots| && tid in w.phase && w.phase[tid] == AddInsert(r, i)
    ensures forall k :: k in InsertStep(w, tid, r, i).last ==>
              if k == r.key then InsertStep(w, tid, r, i).last[k].fid == r.fid
              else k in w.last && InsertStep(w, tid, r, i).last[k].fid == w.last[k].fid
    ensures SamePends(w, InsertStep(w, tid, r, i)) && InsertStep(w, tid, r, i).locks == w.locks
  {
  }

  /** A thread's next stretch can only enter what it set out to add. */
  lemma ContinueEffect(w: World, tid: nat)
    requires Shape(w) && tid in w.phase
    ensures forall k :: k in ContinueStep(w, tid).last ==>
              (k in w.last && ContinueStep(w, tid).last[k].fid == w.last[k].fid) ||
              exists r :: Pends(w, tid, r) && r.key == k && ContinueStep(w, tid).last[k].fid == r.fid
    ensures SamePends(w, ContinueStep(w, tid)) && ContinueStep(w, tid).locks == w.locks
  {
    var ph := w.phase[tid];
    if !HasSlot(ph) || ph.slot < |w.t.slots| {
      match ph
      case AddTake(r) => TakeEffect(w, tid, r);
      case RemoveRoot(k, i, fid) => RootEffect(w, tid, k, i, fid);
      case AddInsert(r, i) =>
        InsertEffect(w, tid, r, i);
        assert Pends(w, tid, r);
      case _ =>
    }
  }

  lemma InvalEffect(w: World, s: Step)
    requires s.InvalVnode? || s.InvalView? || s.InvalNotFound? || s.RootFlush?
    ensures Kept(w, InvalStep(w, s)) && SamePends(w, InvalStep(w, s)) && InvalStep(w, s).locks == w.locks
  {
  }

  /** Invalidating a directory leaves none of its names. */
  lemma InvalDirEffect(w: World, d: Dir, k: Key)
    requires !d.root && DirOf(k) == d && Shape(w)
    ensures k !in Apply(w, InvalVnode(d.view, d.vfs, d.dfid)).last
  {
  }

  lemma FlagEffect(w: World, k: Key, f: Flags)
    requires Shape(w)
    ensures Kept(w, AddFlagStep(w, k, f)) && SamePends(w, AddFlagStep(w, k, f)) && AddFlagStep(w, k, f).locks == w.locks
  {
  }
}
