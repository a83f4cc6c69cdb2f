/**
  Every interleaving of threads on the EACL table.

  A thread works on one mnode at a time, under the mnode's lock.  It takes the lock of
  a chain for a stretch; a fetch keeps that lock, but other threads run between its
  calls to the server.  An access check looks at the handle, and walks the list behind
  it, after it has given the chain lock back, so it may meet an entry that another
  thread is fetching again, or lose the list to one that starts to.
 */
module EaclRuns {
  import opened EaclFetch
  import opened EaclState
  import opened EaclTable

  datatype Phase =
    | Out
    | Locked(m: nat)                                     // holds the mnode's lock
    | Changed(m: nat)                                    // the attributes were copied, the handle is still the old one
    | Filling(m: nat, key: Key, f: Progress)             // fetching for a new entry, under the chain lock
    | Renewing(m: nat, key: Key, e: nat, f: Progress, check: bool)  // fetching again into an entry of the table
    | Holding(m: nat, got: Option<nat>)                  // has what mvfs_eaclhash_get returned
    | Cleared(m: nat, got: Option<nat>)                  // has released the old handle
    | Checking(m: nat)                                   // has validated the entry, not looked at the handle yet
    | Looking(m: nat)                                    // has seen the handle, and is about to use the list

  datatype World = World(s: State, phases: seq<Phase>, tick: nat)

  datatype Step =
    | Lock(t: nat, m: nat)
    | Unlock(t: nat)
    | Copy(t: nat, key: Option<Key>)                     // new attributes, with a rolemap or without
    | Null(t: nat)                                       // mvfs_acl_cache without a rolemap
    | Find(t: nat, e: nat, mtime: nat, clock: nat)       // mvfs_eaclhash_get finds an entry
    | NoRoom(t: nat)                                     // it finds none, and there is no storage
    | New(t: nat)                                        // it finds none, and fills a new one
    | Call(t: nat)                                       // one call of a fetch
    | Done(t: nat, x: nat)                               // the fetch is over; x is the address of a new entry
    | Compare(t: nat)                                    // the same entry as before, or let the old one go
    | Bind(t: nat)
    | Check(t: nat, mtime: nat, clock: nat)              // mvfs_chkaccess_acl validates the entry
    | Read(t: nat)                                       // and looks at its handle
    | Use(t: nat)                                        // and checks the list behind it
    | Uncache(t: nat)                                    // the mnode goes; its last user has it alone
    | Inval(t: nat, c: nat, policy: bool, oid: nat)      // mvfs_acl_inval_oid, one chain

  ghost predicate Has(p: Phase, m: nat) { !p.Out? && p.m == m }

  ghost predicate Fetching(p: Phase) { p.Filling? || p.Renewing? }

  /** The thread has the lock of a chain from one step to the next. */
  ghost predicate OnIt(g: Setting, p: Phase, c: int) { Fetching(p) && g.hash(p.key) == c }

  ghost predicate ChainFree(g: Setting, ps: seq<Phase>, c: int) { forall t :: 0 <= t < |ps| ==> !OnIt(g, ps[t], c) }

  ghost predicate MnodeFree(ps: seq<Phase>, m: nat) { forall t :: 0 <= t < |ps| ==> !Has(ps[t], m) }

  ghost function Handle(s: State, m: nat): Option<nat> { if m in s.aclh then Some(s.aclh[m]) else None }

  /** An entry can be let go of, or validated: its chain is not locked. */
  ghost predicate EntryFree(g: Setting, w: World, h: Option<nat>) {
    h.Some? ==> h.value in w.s.ent && ChainFree(g, w.phases, g.hash(w.s.ent[h.value].key))
  }

  ghost predicate Enabled(g: Setting, w: World, a: Step) {
    if a.Inval? then a.c < g.size && ChainFree(g, w.phases, a.c) else
    a.t < |w.phases| &&
    var p, s := w.phases[a.t], w.s;
    match a
    case Lock(t, m) => p.Out? && MnodeFree(w.phases, m)
    case Unlock(t) => p.Locked?
    case Copy(t, key) => p.Locked?
    case Null(t) => p.Changed? && p.m !in s.role && EntryFree(g, w, Handle(s, p.m))
    case Find(t, e, mtime, clock) =>
      p.Changed? && p.m in s.role && e in s.ent && s.ent[e].key == s.role[p.m] &&
      ChainFree(g, w.phases, g.hash(s.role[p.m]))
    case NoRoom(t) =>
      p.Changed? && p.m in s.role && Absent(s, s.role[p.m]) && ChainFree(g, w.phases, g.hash(s.role[p.m]))
    case New(t) => p.Changed? && p.m in s.role && Absent(s, s.role[p.m]) && ChainFree(g, w.phases, g.hash(s.role[p.m]))
    case Call(t) => Fetching(p) && !Over(g.blocks, p.f)
    case Done(t, x) => Fetching(p) && Over(g.blocks, p.f) && x !in s.ent
    case Compare(t) => p.Holding? && EntryFree(g, w, if Handle(s, p.m) == p.got then p.got else Handle(s, p.m))
    case Bind(t) => p.Cleared?
    case Check(t, mtime, clock) => p.Locked? && p.m in s.role && EntryFree(g, w, Handle(s, p.m))
    case Read(t) => p.Checking?
    case Use(t) => p.Looking?
    case Uncache(t) => p.Locked? && EntryFree(g, w, Handle(s, p.m))
  }

  // ---- The invariant ----

  ghost predicate Mirrors(x: Entry, f: Progress) { x.h == f.h && x.lut == f.lut && x.policy == f.policy }

  /** The thread holds the entry it got, and it is of the mnode's key. */
  ghost predicate GotOk(s: State, m: nat, got: Option<nat>) {
    m in s.role && (got.Some? ==> got.value in s.ent && s.ent[got.value].key == s.role[m])
  }

  ghost predicate PhaseOk(g: Setting, s: State, p: Phase, tick: nat) {
    match p
    case Out => true
    case Locked(m) => Matches(s, m)
    case Changed(m) => true
    case Filling(m, key, f) =>
      m in s.role && s.role[m] == key && Absent(s, key) && ScanOk(g.server(key), f, tick)
    case Renewing(m, key, e, f, check) =>
      m in s.role && s.role[m] == key && e in s.ent && s.ent[e].key == key && Mirrors(s.ent[e], f) &&
      ScanOk(g.server(key), f, tick) && (check ==> m in s.aclh && s.aclh[m] == e)
    case Holding(m, got) => GotOk(s, m, got)
    case Cleared(m, got) => GotOk(s, m, got) && m !in s.aclh
    case Checking(m) => m in s.role && Matches(s, m)
    case Looking(m) => m in s.role && Matches(s, m)
  }

  ghost predicate Carries(p: Phase, e: nat) {
    (p.Renewing? && !p.check && p.e == e) || ((p.Holding? || p.Cleared?) && p.got == Some(e))
  }

  ghost function Carriers(ps: seq<Phase>, e: nat): set<nat> { set t | 0 <= t < |ps| && Carries(ps[t], e) }

  ghost predicate Renewed(ps: seq<Phase>, e: nat) { exists t :: 0 <= t < |ps| && ps[t].Renewing? && ps[t].e == e }

  ghost predicate PhaseAt(g: Setting, w: World, t: nat) { t < |w.phases| ==> PhaseOk(g, w.s, w.phases[t], w.tick) }

  /** No two threads have the same mnode or the same chain. */
  ghost predicate ApartAt(g: Setting, ps: seq<Phase>, t: nat, u: nat) {
    t < |ps| && u < |ps| && t != u ==>
      (!ps[t].Out? ==> !Has(ps[u], ps[t].m)) && (Fetching(ps[t]) ==> !OnIt(g, ps[u], g.hash(ps[t].key)))
  }

  ghost predicate CarriedAt(w: World, e: nat) { w.s.flight[e] == |Carriers(w.phases, e)| }

  ghost predicate MatchAt(w: World, m: nat) { MnodeFree(w.phases, m) ==> Matches(w.s, m) }

  ghost predicate WholeUnless(g: Setting, w: World, e: nat) {
    e in w.s.ent && !Renewed(w.phases, e) ==> Whole(g, w.s.ent[e], w.tick)
  }

  ghost predicate WInv(g: Setting, w: World) {
    Inv(g, w.s) && Timed(g) && (forall t :: PhaseAt(g, w, t)) && (forall t, u :: ApartAt(g, w.phases, t, u)) &&
    (forall e :: CarriedAt(w, e)) && (forall m :: MatchAt(w, m)) && forall e :: WholeUnless(g, w, e)
  }

  // ---- Steps ----

  /** mvfs_eaclhash_release of a hold on an entry. */
  ghost function Released(g: Setting, s: State, e: nat): State {
    if e in s.ent && |s.chains| == |s.cnt| && OnChain(g, s, e) then Drop(g, s, e) else s
  }

  /** mvfs_eaclhash_release of an mnode's handle. */
  ghost function Free(g: Setting, s: State, m: nat): State {
    if m in s.aclh then Released(g, Unbind(s, m), s.aclh[m]) else s
  }

  /** The old list is freed before the first call. */
  ghost function Emptied(s: State, e: nat): State
    requires e in s.ent
  {
    Refill(s, e, s.ent[e].lut, s.ent[e].policy, None)
  }

  ghost function Stored(s: State, e: nat, f: Progress): State {
    if e in s.ent then Refill(s, e, f.lut, f.policy, f.h) else s
  }

  ghost function Inserted(g: Setting, s: State, x: nat, n: Entry): State {
    if g.hash(n.key) < |s.chains| == |s.cnt| then Insert(g, s, x, n) else s
  }

  /** The entries on one chain that an invalidation marks. */
  ghost function Marked(s: State, c: nat, policy: bool, oid: nat): State {
    s.(ent := map e | e in s.ent ::
                if c < |s.chains| && e in s.chains[c] && Names(s.ent[e], policy, oid) then s.ent[e].(lut := 0)
                else s.ent[e])
  }

  /** The state of the table and the phase of the thread after a step of it. */
  ghost function Do(g: Setting, w: World, a: Step): (State, Phase)
    requires Enabled(g, w, a) && !a.Inval?
  {
    var p, s := w.phases[a.t], w.s;
    match a
    case Lock(t, m) => (s, Locked(m))
    case Unlock(t) => (s, Out)
    case Copy(t, key) => (s.(role := Reroled(s.role, p.m, key)), Changed(p.m))
    case Null(t) => (Free(g, s, p.m), Locked(p.m))
    case Find(t, e, mtime, clock) =>
      var s1 := EaclState.Hold(s, e);
      if Expired(s.ent[e], mtime, clock) then
        (Emptied(s1, e), Renewing(p.m, s.role[p.m], e, Begin(s.ent[e].lut, s.ent[e].policy), false))
      else (s1, Holding(p.m, Some(e)))
    case NoRoom(t) => (s, Holding(p.m, None))
    case New(t) => (s, Filling(p.m, s.role[p.m], Begin(0, 0)))
    case Call(t) =>
      var f := NextCall(g.server(p.key), w.tick, p.f);
      if p.Filling? then (s, Filling(p.m, p.key, f)) else (Stored(s, p.e, f), Renewing(p.m, p.key, p.e, f, p.check))
    case Done(t, x) =>
      var f := Finish(p.f);
      if p.Filling? then (Inserted(g, s, x, Entry(p.key, 1, f.lut, f.policy, f.h)), Holding(p.m, Some(x)))
      else (Stored(s, p.e, f), if p.check then Checking(p.m) else Holding(p.m, Some(p.e)))
    case Compare(t) =>
      if Handle(s, p.m) == p.got then (if p.got.Some? then Released(g, s, p.got.value) else s, Locked(p.m))
      else (Free(g, s, p.m), Cleared(p.m, p.got))
    case Bind(t) => (if p.got.Some? then EaclState.Bind(s, p.m, p.got.value) else s, Locked(p.m))
    case Check(t, mtime, clock) =>
      if p.m in s.aclh && Expired(s.ent[s.aclh[p.m]], mtime, clock) then
        var e := s.aclh[p.m];
        (Emptied(s, e), Renewing(p.m, s.role[p.m], e, Begin(s.ent[e].lut, s.ent[e].policy), true))
      else (s, Checking(p.m))
    case Read(t) => (s, Looking(p.m))
    case Use(t) => (s, Locked(p.m))
    case Uncache(t) => var s1 := Free(g, s, p.m); (s1.(role := s1.role - {p.m}), Locked(p.m))
  }

  ghost function Next(g: Setting, w: World, a: Step): World
    requires Enabled(g, w, a)
  {
    if a.Inval? then World(Marked(w.s, a.c, a.policy, a.oid), w.phases, w.tick + 1)
    else World(Do(g, w, a).0, w.phases[a.t := Do(g, w, a).1], w.tick + 1)
  }
}
