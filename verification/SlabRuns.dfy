/**
  Every interleaving of the slab allocator's callers.

  A thread that finds no free chunk gives up the list's lock, has a page carved and
  comes back; in both gaps any other thread may do anything.  A caller frees and
  writes only storage that it owns, and may pass what it owns on to another.
 */
module SlabRuns {
  import opened SlabList
  import opened SlabMemory
  import opened SlabSteps

  /** Where a thread is in mvfs_slab_getchunk: outside, waiting for a page, or back with page f. */
  datatype Phase = Idle | Asking | Holding(f: nat)

  datatype State = State(pool: Pool, owners: set<Owner>, phases: seq<Phase>)

  datatype Step =
    | Get(t: nat)                                        // a chunk is free
    | Full(t: nat)                                       // none is: unlock, and ask for a page
    | NoPage(t: nat)                                     // there is none: null
    | Page(t: nat, f: nat, cell: map<int, int>)          // carve it, without the lock
    | Back(t: nat)                                       // lock again, link the page or not, and take a chunk
    | Free(t: nat, elt: int)
    | Write(t: nat, elt: int, off: nat, v: int)
    | Pass(t: nat, elt: int, u: nat)

  ghost predicate Sized(payload: nat) { 2 * WORD <= payload && EltSize(payload) <= ROOM }

  ghost predicate Enabled(payload: nat, s: State, a: Step) {
    var size := EltSize(payload);
    a.t < |s.phases| &&
    match a
    case Get(t) => s.phases[t].Idle? && s.pool.totFree > 0
    case Full(t) => s.phases[t].Idle? && s.pool.totFree == 0
    case NoPage(t) => s.phases[t].Asking?
    case Page(t, f, cell) =>
      s.phases[t].Asking? && f > ROOM && (forall g :: g in Live(s.pool) ==> PagesApart(f, g)) &&
      Carves(size, s.pool.cell, cell, f)
    case Back(t) => s.phases[t].Holding?
    case Free(t, elt) => Owner(elt, t) in s.owners
    case Write(t, elt, off, v) => Owner(elt, t) in s.owners && off < payload
    case Pass(t, elt, u) => Owner(elt, t) in s.owners
  }

  ghost predicate PhasesOk(s: State) {
    (forall t :: 0 <= t < |s.phases| && s.phases[t].Holding? ==> s.phases[t].f in s.pool.pending) &&
    (forall t, u :: 0 <= t < u < |s.phases| && s.phases[t].Holding? && s.phases[u].Holding? ==>
                      s.phases[t].f != s.phases[u].f)
  }

  ghost predicate Good(payload: nat, s: State) {
    Sized(payload) && Inv(EltSize(payload), s.pool) && OwnersOk(EltSize(payload), s.pool, s.owners) && PhasesOk(s)
  }

  /** The address a step returns to its caller. */
  ghost function Returns(payload: nat, s: State, a: Step): int
    requires Good(payload, s) && Enabled(payload, s, a) && (a.Get? || a.Back?)
  {
    var size := EltSize(payload);
    if a.Get? then NextStorage(size, s.pool) else NextStorage(size, WithPage(size, s.pool, s.phases[a.t].f))
  }

  ghost function Do(payload: nat, s: State, a: Step): State
    requires Good(payload, s) && Enabled(payload, s, a)
  {
    var size := EltSize(payload);
    match a
    case Get(t) =>
      s.(pool := Taken(size, s.pool), owners := s.owners + {Owner(Returns(payload, s, a), t)})
    case Full(t) => s.(phases := s.phases[t := Asking])
    case NoPage(t) => s.(phases := s.phases[t := Idle])
    case Page(t, f, cell) => s.(pool := Carved(size, s.pool, f, cell), phases := s.phases[t := Holding(f)])
    case Back(t) =>
      State(Resumed(size, s.pool, s.phases[t].f), s.owners + {Owner(Returns(payload, s, a), t)},
            s.phases[t := Idle])
    case Free(t, elt) =>
      var c := ChunkOf(size, s.pool, elt);
      s.(pool := Freed(size, s.pool, c.0, c.1), owners := s.owners - {Owner(elt, t)})
    case Write(t, elt, off, v) =>
      s.(pool := s.pool.(cell := s.pool.cell[elt + off - off % WORD := v]))
    case Pass(t, elt, u) => s.(owners := s.owners - {Owner(elt, t)} + {Owner(elt, u)})
  }

  // ---- Every step keeps the list, its owners and the private pages ----

  lemma PassedOwners(size: nat, p: Pool, owners: set<Owner>, elt: int, t: nat, u: nat)
    requires size > 0 && OwnersOk(size, p, owners) && Owner(elt, t) in owners
    ensures OwnersOk(size, p, owners - {Owner(elt, t)} + {Owner(elt, u)})
  {
    var owners' := owners - {Owner(elt, t)} + {Owner(elt, u)};
    assert Owner(elt, u) in owners';
    assert |owners'| == |owners| by { assert Owner(elt, u) !in owners - {Owner(elt, t)}; }
    forall f, i | Owned(size, p, f, i) ensures HasOwner(owners', Storage(size, f, i)) {
      var w :| Owner(Storage(size, f, i), w) in owners;
      assert Storage(size, f, i) != elt ==> Owner(Storage(size, f, i), w) in owners';
    }
  }

  lemma StepGood(payload: nat, s: State, a: Step)
    requires Good(payload, s) && Enabled(payload, s, a)
    ensures Good(payload, Do(payload, s, a))
  {
    var size := EltSize(payload);
    match a
    case Get(t) => TakenOwners(size, s.pool, s.owners, t);
    case Full(t) =>
    case NoPage(t) =>
    case Page(t, f, cell) => PageGood(payload, s, t, f, cell);
    case Back(t) => BackGood(payload, s, t);
    case Free(t, elt) =>
      var c := ChunkOf(size, s.pool, elt);
      FreedOwners(size, s.pool, s.owners, c.0, c.1, t);
    case Write(t, elt, off, v) => WrittenInv(size, s.pool, s.owners, elt, elt + off - off % WORD, v);
    case Pass(t, elt, u) => PassedOwners(size, s.pool, s.owners, elt, t, u);
  }

  lemma PageGood(payload: nat, s: State, t: nat, f: nat, cell: map<int, int>)
    requires Good(payload, s) && Enabled(payload, s, Page(t, f, cell))
    ensures Good(payload, Do(payload, s, Page(t, f, cell)))
  {
    var size := EltSize(payload);
    CarvedInv(size, s.pool, f, cell);
    CarvedOwners(size, s.pool, s.owners, f, cell);
    assert f !in s.pool.pending by { assert f in s.pool.pending ==> f in Live(s.pool) && PagesApart(f, f); }
  }

  lemma BackGood(payload: nat, s: State, t: nat)
    requires Good(payload, s) && Enabled(payload, s, Back(t))
    ensures Good(payload, Do(payload, s, Back(t)))
  {
    var size := EltSize(payload);
    assert PhasesOk(Do(payload, s, Back(t))) by { BackPhases(s, t, Do(payload, s, Back(t))); }
    ResumedOwners(size, s.pool, s.owners, s.phases[t].f, t);
  }

  lemma BackPhases(s: State, t: nat, s': State)
    requires PhasesOk(s) && t < |s.phases| && s.phases[t].Holding? && s'.phases == s.phases[t := Idle]
    requires s'.pool.pending == s.pool.pending - {s.phases[t].f}
    ensures PhasesOk(s')
  {
    forall u | 0 <= u < |s'.phases| && s'.phases[u].Holding? ensures s'.phases[u].f in s'.pool.pending {
      assert u != t && s.phases[u].f != s.phases[t].f;
    }
  }

  // ---- Runs ----

  /** A new list, and threads that have not called it yet. */
  ghost predicate Start(payload: nat, s: State) {
    Sized(payload) && |s.pool.slabs| == 1 && First(EltSize(payload), s.pool.slabs[0], s.pool.cell, s.pool) &&
    s.owners == {} && forall t :: 0 <= t < |s.phases| ==> s.phases[t].Idle?
  }

  /** Steps are defined from good states; RunGood shows that a run meets no others. */
  ghost predicate Moves(payload: nat, s: State, a: Step, s': State) {
    Enabled(payload, s, a) && (Good(payload, s) ==> s' == Do(payload, s, a))
  }

  /** A run: the states it goes through and the steps between them. */
  ghost predicate Run(payload: nat, ss: seq<State>, steps: seq<Step>) {
    |ss| == |steps| + 1 && Start(payload, ss[0]) &&
    forall n :: 0 <= n < |steps| ==> Moves(payload, ss[n], steps[n], ss[n + 1])
  }

  lemma {:induction false} RunGood(payload: nat, ss: seq<State>, steps: seq<Step>, n: nat)
    requires Run(payload, ss, steps) && n < |ss|
    ensures Good(payload, ss[n])
  {
    if n == 0 {
      FirstInv(EltSize(payload), ss[0].pool.slabs[0], ss[0].pool.cell, ss[0].pool);
    } else {
      RunGood(payload, ss, steps, n - 1);
      assert Moves(payload, ss[n - 1], steps[n - 1], ss[n]);
      StepGood(payload, ss[n - 1], steps[n - 1]);
    }
  }

  /**
    At every point of every run an address has at most one owner, the storage of
    different owned addresses shares no byte, and the list's totals count the owned.
   */
  lemma OneOwner(payload: nat, ss: seq<State>, steps: seq<Step>, n: nat)
    requires Run(payload, ss, steps) && n < |ss|
    ensures forall o, o' :: o in ss[n].owners && o' in ss[n].owners && o.elt == o'.elt ==> o.who == o'.who
    ensures forall o, o' :: o in ss[n].owners && o' in ss[n].owners && o.elt != o'.elt ==>
              Disjoint(o.elt, payload, o'.elt, payload)
    ensures |ss[n].owners| + ss[n].pool.totFree == ss[n].pool.totElt
  {
    RunGood(payload, ss, steps, n);
    var size, p := EltSize(payload), ss[n].pool;
    forall o, o' | o in ss[n].owners && o' in ss[n].owners && o.elt != o'.elt
      ensures Disjoint(o.elt, payload, o'.elt, payload)
    {
      var c, c' := ChunkOf(size, p, o.elt), ChunkOf(size, p, o'.elt);
      StorageApart(payload, p, c.0, c.1, c'.0, c'.1);
    }
  }

  /** What a call returns had no owner, is not null, and is its caller's from then on. */
  lemma ReturnsUnowned(payload: nat, ss: seq<State>, steps: seq<Step>, n: nat)
    requires Run(payload, ss, steps) && n < |steps| && (steps[n].Get? || steps[n].Back?)
    ensures Good(payload, ss[n]) && Enabled(payload, ss[n], steps[n])
    ensures var elt := Returns(payload, ss[n], steps[n]);
            elt > NULL && !HasOwner(ss[n].owners, elt) && Owner(elt, steps[n].t) in ss[n + 1].owners
  {
    RunGood(payload, ss, steps, n);
    RunGood(payload, ss, steps, n + 1);
    var size, s := EltSize(payload), ss[n];
    assert Moves(payload, s, steps[n], ss[n + 1]);
    if steps[n].Get? {
      TakenOwners(size, s.pool, s.owners, steps[n].t);
    } else {
      ResumedOwners(size, s.pool, s.owners, s.phases[steps[n].t].f, steps[n].t);
    }
    OwnerNotNull(size, ss[n + 1].pool, ss[n + 1].owners, Owner(Returns(payload, s, steps[n]), steps[n].t));
  }

  // ---- An owner's storage is its own ----

  /** No step but a write into it changes storage that has an owner before and after. */
  lemma StepKeeps(payload: nat, s: State, a: Step, elt: int)
    requires Good(payload, s) && Enabled(payload, s, a) && HasOwner(s.owners, elt)
    requires HasOwner(Do(payload, s, a).owners, elt) && !(a.Write? && a.elt == elt)
    ensures SameStorage(payload, s.pool.cell, Do(payload, s, a).pool.cell, elt)
  {
    var size, p := EltSize(payload), s.pool;
    match a
    case Get(t) => TakeKeeps(payload, p, s.owners, elt);
    case Full(t) =>
    case NoPage(t) =>
    case Page(t, f, cell) => CarveKeeps(payload, p, f, cell, elt);
    case Back(t) => BackKeeps(payload, s, t, elt);
    case Free(t, e) => FreeKeeps(payload, s, t, e, elt);
    case Write(t, e, off, v) => WrittenKeeps(payload, p, s.owners, e, e + off - off % WORD, v);
    case Pass(t, e, u) =>
  }

  lemma TakeKeeps(payload: nat, p: Pool, owners: set<Owner>, elt: int)
    requires var size := EltSize(payload);
             Inv(size, p) && size <= ROOM && p.totFree > 0 && OwnersOk(size, p, owners) && HasOwner(owners, elt)
    ensures SameStorage(payload, p.cell, Taken(EltSize(payload), p).cell, elt)
  {
    var size := EltSize(payload);
    var f, i := NextSlab(size, p), NextChunk(size, p);
    TakenOwners(size, p, owners, 0);
    assert f in Live(p) && SlabAt(size, p, f);
    ChunkWrite(payload, p, f, i, Storage(size, f, i), NULL, elt);
  }

  lemma CarveKeeps(payload: nat, p: Pool, f: nat, cell: map<int, int>, elt: int)
    requires var size := EltSize(payload); Inv(size, p) && Out(size, p, elt) && Outside(p.cell, cell, f)
    requires forall g :: g in Live(p) ==> PagesApart(f, g)
    ensures SameStorage(payload, p.cell, cell, elt)
  {
    var size := EltSize(payload);
    var c := ChunkOf(size, p, elt);
    assert c.0 in Live(p) && PagesApart(f, c.0);
    ChunkBounds(size, c.0, c.1);
  }

  lemma BackKeeps(payload: nat, s: State, t: nat, elt: int)
    requires Good(payload, s) && Enabled(payload, s, Back(t)) && HasOwner(s.owners, elt)
    ensures SameStorage(payload, s.pool.cell, Do(payload, s, Back(t)).pool.cell, elt)
  {
    var size := EltSize(payload);
    LinkedOwners(size, s.pool, s.owners, s.phases[t].f);
    TakeKeeps(payload, WithPage(size, s.pool, s.phases[t].f), s.owners, elt);
  }

  lemma FreeKeeps(payload: nat, s: State, t: nat, e: int, elt: int)
    requires Good(payload, s) && Enabled(payload, s, Free(t, e)) && HasOwner(s.owners, elt)
    requires HasOwner(Do(payload, s, Free(t, e)).owners, elt)
    ensures SameStorage(payload, s.pool.cell, Do(payload, s, Free(t, e)).pool.cell, elt)
  {
    var size, p := EltSize(payload), s.pool;
    var c := ChunkOf(size, p, e);
    assert elt != e && c.0 in Live(p);
    assert SlabAt(size, p, c.0);
    ChunkWrite(payload, p, c.0, c.1, Storage(size, c.0, c.1), p.foot[c.0].free, elt);
  }

  /**
    Over any stretch of any run, storage that is owned throughout and not written by
    its owner keeps its contents, whatever the other threads take, carve, free and write.
   */
  lemma {:induction false} ContentsKept(payload: nat, ss: seq<State>, steps: seq<Step>, m: nat, n: nat, elt: int)
    requires Run(payload, ss, steps) && m <= n < |ss|
    requires forall k :: m <= k <= n ==> HasOwner(ss[k].owners, elt)
    requires forall k :: m <= k < n ==> !(steps[k].Write? && steps[k].elt == elt)
    ensures SameStorage(payload, ss[m].pool.cell, ss[n].pool.cell, elt)
  {
    if m < n {
      ContentsKept(payload, ss, steps, m, n - 1, elt);
      NextKeeps(payload, ss, steps, n - 1, elt);
    }
  }

  lemma NextKeeps(payload: nat, ss: seq<State>, steps: seq<Step>, n: nat, elt: int)
    requires Run(payload, ss, steps) && n < |steps| && HasOwner(ss[n].owners, elt) && HasOwner(ss[n + 1].owners, elt)
    requires !(steps[n].Write? && steps[n].elt == elt)
    ensures SameStorage(payload, ss[n].pool.cell, ss[n + 1].pool.cell, elt)
  {
    RunGood(payload, ss, steps, n);
    assert Moves(payload, ss[n], steps[n], ss[n + 1]);
    StepKeeps(payload, ss[n], steps[n], elt);
  }
}
