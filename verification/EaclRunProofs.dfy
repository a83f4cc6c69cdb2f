/** Every step of every thread keeps the EACL table, its locks and its holds in order. */
module EaclRunProofs {
  import opened EaclFetch
  import opened EaclState
  import opened EaclTable
  import opened EaclRuns

  // ---- A step works on one mnode and one chain ----

  ghost predicate SameMnode(s: State, s': State, x: nat) {
    (x in s'.aclh <==> x in s.aclh) && (x in s.aclh ==> s'.aclh[x] == s.aclh[x]) &&
    (x in s'.role <==> x in s.role) && (x in s.role ==> s'.role[x] == s.role[x])
  }

  ghost predicate LocalAt(g: Setting, s: State, s': State, c: int, e: nat) {
    (e in s.ent && g.hash(s.ent[e].key) != c ==> e in s'.ent && s'.ent[e] == s.ent[e]) &&
    (e in s'.ent && g.hash(s'.ent[e].key) != c ==> e in s.ent) &&
    (e in s.ent && e in s'.ent ==> s'.ent[e].key == s.ent[e].key)
  }

  /** Nothing changes but mnode m and the entries on chain c. */
  ghost predicate Local(g: Setting, s: State, s': State, m: int, c: int) {
    (forall x :: x != m ==> SameMnode(s, s', x)) && forall e :: LocalAt(g, s, s', c, e)
  }

  lemma NoChange(g: Setting, s: State, m: int, c: int)
    ensures Local(g, s, s, m, c)
  {
  }

  ghost function One(b: bool): nat { if b then 1 else 0 }

  lemma CarriersStep(ps: seq<Phase>, t: nat, p: Phase, e: nat)
    requires t < |ps|
    ensures |Carriers(ps[t := p], e)| + One(Carries(ps[t], e)) == |Carriers(ps, e)| + One(Carries(p, e))
  {
    var a, b := Carriers(ps, e) - {t}, Carriers(ps[t := p], e) - {t};
    assert a == b;
    assert Carriers(ps, e) == if Carries(ps[t], e) then a + {t} else a;
    assert Carriers(ps[t := p], e) == if Carries(p, e) then a + {t} else a;
  }

  /** A scan that is right stays so as calls go by. */
  lemma ScanLater(s: Server, f: Progress, hi: nat)
    requires ScanOk(s, f, hi)
    ensures ScanOk(s, f, hi + 1)
  {
  }

  /** What a step of thread t must show for itself. */
  ghost predicate Sound(g: Setting, w: World, t: nat, s': State, p': Phase, m: nat, c: int) {
    t < |w.phases| && Inv(g, s') && Local(g, w.s, s', m, c) &&
    Alone(g, w.phases, t, m, c) &&
    (w.phases[t].Out? || w.phases[t].m == m) && (p'.Out? || p'.m == m) &&
    (Fetching(w.phases[t]) ==> g.hash(w.phases[t].key) == c) && (Fetching(p') ==> g.hash(p'.key) == c) &&
    PhaseOk(g, s', p', w.tick + 1) && (p'.Out? ==> Matches(s', m)) &&
    (forall e :: FlightAt(w, t, s', p', e)) && forall e :: ChainWhole(g, s', p', c, w.tick, e)
  }

  /** No other thread has the mnode or the chain. */
  ghost predicate Alone(g: Setting, ps: seq<Phase>, t: nat, m: nat, c: int) { forall u :: AloneAt(g, ps, t, m, c, u) }

  ghost predicate AloneAt(g: Setting, ps: seq<Phase>, t: nat, m: nat, c: int, u: nat) {
    u < |ps| && u != t ==> !Has(ps[u], m) && !OnIt(g, ps[u], c)
  }

  ghost predicate FlightAt(w: World, t: nat, s': State, p': Phase, e: nat)
    requires t < |w.phases|
  {
    s'.flight[e] + One(Carries(w.phases[t], e)) == w.s.flight[e] + One(Carries(p', e))
  }

  ghost predicate ChainWhole(g: Setting, s': State, p': Phase, c: int, tick: nat, e: nat) {
    e in s'.ent && g.hash(s'.ent[e].key) == c && !(p'.Renewing? && p'.e == e) ==>
      Whole(g, s'.ent[e], tick + 1)
  }

  ghost function Moved(w: World, t: nat, s': State, p': Phase): World
    requires t < |w.phases|
  {
    World(s', w.phases[t := p'], w.tick + 1)
  }

  lemma Carried(g: Setting, w: World, t: nat, s': State, p': Phase, m: nat, c: int, e: nat)
    requires WInv(g, w) && Sound(g, w, t, s', p', m, c)
    ensures CarriedAt(Moved(w, t, s', p'), e)
  {
    assert CarriedAt(w, e) && FlightAt(w, t, s', p', e);
    CarriersStep(w.phases, t, p', e);
  }

  /** The other threads notice nothing. */
  lemma OtherPhase(g: Setting, w: World, t: nat, s': State, p': Phase, m: nat, c: int, u: nat)
    requires WInv(g, w) && Sound(g, w, t, s', p', m, c) && u < |w.phases| && u != t
    ensures PhaseOk(g, s', w.phases[u], w.tick + 1)
  {
    var q, s := w.phases[u], w.s;
    assert PhaseAt(g, w, u) && AloneAt(g, w.phases, t, m, c, u);
    if !q.Out? {
      assert q.m != m && SameMnode(s, s', q.m) && HandleAt(s', q.m);
      if q.m in s.aclh { assert LocalAt(g, s, s', c, s.aclh[q.m]); }
    }
    if q.Filling? {
      OtherAbsent(g, s, s', m, c, q.key);
      ScanLater(g.server(q.key), q.f, w.tick);
    } else if q.Renewing? {
      assert LocalAt(g, s, s', c, q.e);
      ScanLater(g.server(q.key), q.f, w.tick);
    } else if (q.Holding? || q.Cleared?) && q.got.Some? {
      OtherHeld(g, w, t, s', p', m, c, u, q.got.value);
    }
  }

  lemma OtherAbsent(g: Setting, s: State, s': State, m: int, c: int, key: Key)
    requires Local(g, s, s', m, c) && Absent(s, key) && g.hash(key) != c
    ensures Absent(s', key)
  {
    forall e | e in s'.ent ensures s'.ent[e].key != key { assert LocalAt(g, s, s', c, e); }
  }

  lemma OtherHeld(g: Setting, w: World, t: nat, s': State, p': Phase, m: nat, c: int, u: nat, e: nat)
    requires WInv(g, w) && Sound(g, w, t, s', p', m, c) && u < |w.phases| && u != t && Carries(w.phases[u], e)
    ensures e in s'.ent && e in w.s.ent && s'.ent[e].key == w.s.ent[e].key
  {
    CarriedHeld(g, w, u, e);
    Carried(g, w, t, s', p', m, c, e);
    assert u in Carriers(w.phases[t := p'], e);
    assert RefAt(s', e) && LocalAt(g, w.s, s', c, e);
  }

  lemma StillApart(g: Setting, w: World, t: nat, s': State, p': Phase, m: nat, c: int, u: nat, v: nat)
    requires WInv(g, w) && Sound(g, w, t, s', p', m, c)
    ensures ApartAt(g, w.phases[t := p'], u, v)
  {
    assert ApartAt(g, w.phases, u, v) && AloneAt(g, w.phases, t, m, c, u) && AloneAt(g, w.phases, t, m, c, v);
  }

  lemma StillMatch(g: Setting, w: World, t: nat, s': State, p': Phase, m: nat, c: int, x: nat)
    requires WInv(g, w) && Sound(g, w, t, s', p', m, c)
    ensures MatchAt(Moved(w, t, s', p'), x)
  {
    var w' := Moved(w, t, s', p');
    if MnodeFree(w'.phases, x) && x != m {
      assert MnodeFree(w.phases, x) by {
        forall u | 0 <= u < |w.phases| ensures !Has(w.phases[u], x) { assert !Has(w'.phases[u], x); }
      }
      assert MatchAt(w, x) && SameMnode(w.s, s', x) && HandleAt(s', x);
      if x in w.s.aclh { assert LocalAt(g, w.s, s', c, w.s.aclh[x]); }
    } else if MnodeFree(w'.phases, x) {
      assert !Has(w'.phases[t], x);
    }
  }

  lemma StillWhole(g: Setting, w: World, t: nat, s': State, p': Phase, m: nat, c: int, e: nat)
    requires WInv(g, w) && Sound(g, w, t, s', p', m, c)
    ensures WholeUnless(g, Moved(w, t, s', p'), e)
  {
    var w' := Moved(w, t, s', p');
    if e in s'.ent && !Renewed(w'.phases, e) {
      if g.hash(s'.ent[e].key) == c {
        assert w'.phases[t] == p';
        assert ChainWhole(g, s', p', c, w.tick, e);
      } else {
        assert LocalAt(g, w.s, s', c, e) && WholeUnless(g, w, e);
        forall u: nat | u < |w.phases| ensures !(w.phases[u].Renewing? && w.phases[u].e == e) {
          assert PhaseAt(g, w, u) && (u != t ==> w'.phases[u] == w.phases[u]);
        }
      }
    }
  }

  /** A step that is sound for its thread keeps everything. */
  lemma SoundStep(g: Setting, w: World, t: nat, s': State, p': Phase, m: nat, c: int)
    requires WInv(g, w) && Sound(g, w, t, s', p', m, c)
    ensures WInv(g, Moved(w, t, s', p'))
  {
    var w' := Moved(w, t, s', p');
    forall u: nat ensures PhaseAt(g, w', u) { if u < |w.phases| && u != t { OtherPhase(g, w, t, s', p', m, c, u); } }
    forall u, v ensures ApartAt(g, w'.phases, u, v) { StillApart(g, w, t, s', p', m, c, u, v); }
    forall e ensures CarriedAt(w', e) { Carried(g, w, t, s', p', m, c, e); }
    forall x ensures MatchAt(w', x) { StillMatch(g, w, t, s', p', m, c, x); }
    forall e ensures WholeUnless(g, w', e) { StillWhole(g, w, t, s', p', m, c, e); }
  }

  // ---- Holds ----

  /** A thread that carries an entry has a hold on it. */
  lemma CarriedHeld(g: Setting, w: World, t: nat, e: nat)
    requires WInv(g, w) && t < |w.phases| && Carries(w.phases[t], e)
    ensures e in w.s.flight && e in w.s.ent
  {
    assert CarriedAt(w, e) && t in Carriers(w.phases, e);
    assert RefAt(w.s, e);
  }

  lemma ReleasedOk(g: Setting, s: State, e: nat)
    requires Inv(g, s) && e in s.flight
    ensures Inv(g, Released(g, s, e)) && Dropped(s, Released(g, s, e), e)
  {
    DropInv(g, s, e);
    DropEffect(g, s, e);
  }

  lemma FreeOk(g: Setting, s: State, m: nat)
    requires Inv(g, s)
    ensures Inv(g, Free(g, s, m)) && LetGo(s, Free(g, s, m), m)
  {
    if m in s.aclh {
      UnbindInv(g, s, m);
      ReleasedOk(g, Unbind(s, m), s.aclh[m]);
      LetGoBound(s, Free(g, s, m), m);
    } else {
      assert s.aclh - {m} == s.aclh;
    }
  }

  // ---- The steps one by one ----

  /** A thread that has an mnode, and finds a chain free or has it, works alone. */
  lemma WorksAlone(g: Setting, w: World, t: nat, c: int)
    requires WInv(g, w) && t < |w.phases| && !w.phases[t].Out?
    requires c == -1 || ChainFree(g, w.phases, c) || OnIt(g, w.phases[t], c)
    ensures Alone(g, w.phases, t, w.phases[t].m, c)
  {
    forall u ensures AloneAt(g, w.phases, t, w.phases[t].m, c, u) { assert ApartAt(g, w.phases, t, u); }
  }

  /** The entries of a chain on which no entry is being fetched again are whole. */
  lemma ChainRests(g: Setting, w: World, t: nat, m: nat, c: int, e: nat)
    requires WInv(g, w) && Alone(g, w.phases, t, m, c) && e in w.s.ent && g.hash(w.s.ent[e].key) == c
    requires t < |w.phases| && !(w.phases[t].Renewing? && w.phases[t].e == e)
    ensures Whole(g, w.s.ent[e], w.tick)
  {
    assert WholeUnless(g, w, e);
    forall u: nat | u < |w.phases| ensures !(w.phases[u].Renewing? && w.phases[u].e == e) {
      assert PhaseAt(g, w, u) && AloneAt(g, w.phases, t, m, c, u);
    }
  }

  lemma WholeCounted(g: Setting, x: Entry, r: int, tick: nat)
    requires Whole(g, x, tick)
    ensures Whole(g, x.(refcnt := r), tick + 1)
  {
    if x.h.Some? {
      var n: nat :| n < tick && WholeAt(g, x, n);
      assert WholeAt(g, x.(refcnt := r), n);
    }
  }

  /** So they stay when at most counts change. */
  lemma ChainKept(g: Setting, w: World, t: nat, s': State, p': Phase, c: int, e: nat)
    requires WInv(g, w) && t < |w.phases| && !w.phases[t].Out? && Alone(g, w.phases, t, w.phases[t].m, c)
    requires !(w.phases[t].Renewing? && w.phases[t].e == e)
    requires e in s'.ent ==> e in w.s.ent && s'.ent[e] == w.s.ent[e].(refcnt := s'.ent[e].refcnt)
    ensures ChainWhole(g, s', p', c, w.tick, e)
  {
    if e in s'.ent && g.hash(s'.ent[e].key) == c {
      ChainRests(g, w, t, w.phases[t].m, c, e);
      WholeCounted(g, w.s.ent[e], s'.ent[e].refcnt, w.tick);
    }
  }

  /** A step of the thread alone: the table stays, and no hold changes hands. */
  lemma PhaseOnly(g: Setting, w: World, t: nat, p': Phase, c: int)
    requires WInv(g, w) && t < |w.phases| && !w.phases[t].Out? && Alone(g, w.phases, t, w.phases[t].m, c)
    requires (p'.Out? || p'.m == w.phases[t].m) && (p'.Out? ==> Matches(w.s, w.phases[t].m))
    requires PhaseOk(g, w.s, p', w.tick + 1) && forall e :: Carries(w.phases[t], e) <==> Carries(p', e)
    requires (Fetching(w.phases[t]) ==> g.hash(w.phases[t].key) == c) && (Fetching(p') ==> g.hash(p'.key) == c)
    requires !w.phases[t].Renewing?
    ensures WInv(g, Moved(w, t, w.s, p'))
  {
    forall e ensures ChainWhole(g, w.s, p', c, w.tick, e) { ChainKept(g, w, t, w.s, p', c, e); }
    assert forall e :: FlightAt(w, t, w.s, p', e);
    NoChange(g, w.s, w.phases[t].m, c);
    SoundStep(g, w, t, w.s, p', w.phases[t].m, c);
  }

  lemma LockInv(g: Setting, w: World, t: nat, m: nat)
    requires WInv(g, w) && Enabled(g, w, Lock(t, m))
    ensures WInv(g, Moved(w, t, w.s, Locked(m)))
  {
    assert MatchAt(w, m);
    forall u: nat ensures AloneAt(g, w.phases, t, m, -1, u) { assert u < |w.phases| ==> !Has(w.phases[u], m); }
    forall e ensures FlightAt(w, t, w.s, Locked(m), e) && ChainWhole(g, w.s, Locked(m), -1, w.tick, e) { }
    NoChange(g, w.s, m, -1);
    SoundStep(g, w, t, w.s, Locked(m), m, -1);
  }

  lemma CopyInv(g: Setting, w: World, t: nat, key: Option<Key>)
    requires WInv(g, w) && Enabled(g, w, Copy(t, key))
    ensures WInv(g, Moved(w, t, w.s.(role := Reroled(w.s.role, w.phases[t].m, key)), Changed(w.phases[t].m)))
  {
    var m, s := w.phases[t].m, w.s;
    var s', p' := s.(role := Reroled(s.role, m, key)), Changed(m);
    RoleInv(g, s, s'.role);
    WorksAlone(g, w, t, -1);
    assert Local(g, s, s', m, -1) by {
      assert forall x :: x != m ==> SameMnode(s, s', x);
      assert forall e :: LocalAt(g, s, s', -1, e);
    }
    forall e ensures FlightAt(w, t, s', p', e) && ChainWhole(g, s', p', -1, w.tick, e) { }
    SoundStep(g, w, t, s', p', m, -1);
  }

  /** The chain of an mnode's handle, if it has one. */
  ghost function ChainOf(g: Setting, s: State, h: Option<nat>): int
    requires h.Some? ==> h.value in s.ent
  {
    if h.Some? then g.hash(s.ent[h.value].key) else -1
  }

  lemma FreeLocal(g: Setting, s: State, s': State, m: nat, c: int)
    requires LetGo(s, s', m) && (m in s.aclh ==> s.aclh[m] in s.ent && g.hash(s.ent[s.aclh[m]].key) == c)
    ensures Local(g, s, s', m, c)
  {
    forall x | x != m ensures SameMnode(s, s', x) { }
    forall e ensures LocalAt(g, s, s', c, e) { }
  }

  /** Letting the handle go. */
  lemma FreeInv(g: Setting, w: World, t: nat, s': State, p': Phase)
    requires WInv(g, w) && t < |w.phases| && !w.phases[t].Out? && !Fetching(w.phases[t]) && !Fetching(p') && !p'.Out?
    requires EntryFree(g, w, Handle(w.s, w.phases[t].m)) && Inv(g, s') && LetGo(w.s, s', w.phases[t].m)
    requires p'.m == w.phases[t].m && PhaseOk(g, s', p', w.tick + 1)
    requires forall e :: Carries(w.phases[t], e) <==> Carries(p', e)
    ensures WInv(g, Moved(w, t, s', p'))
  {
    var m, s := w.phases[t].m, w.s;
    var c := ChainOf(g, s, Handle(s, m));
    WorksAlone(g, w, t, c);
    FreeLocal(g, s, s', m, c);
    forall e ensures ChainWhole(g, s', p', c, w.tick, e) { ChainKept(g, w, t, s', p', c, e); }
    assert forall e :: FlightAt(w, t, s', p', e);
    SoundStep(g, w, t, s', p', m, c);
  }

  lemma UncacheInv(g: Setting, w: World, t: nat)
    requires WInv(g, w) && Enabled(g, w, Uncache(t))
    ensures var m := w.phases[t].m;
            var s1 := Free(g, w.s, m);
            WInv(g, Moved(w, t, s1.(role := s1.role - {m}), Locked(m)))
  {
    var m, s := w.phases[t].m, w.s;
    var s1 := Free(g, s, m);
    FreeOk(g, s, m);
    var s', p', c := s1.(role := s1.role - {m}), Locked(m), ChainOf(g, s, Handle(s, m));
    RoleInv(g, s1, s'.role);
    WorksAlone(g, w, t, c);
    FreeLocal(g, s, s1, m, c);
    assert Local(g, s, s', m, c) by {
      forall x | x != m ensures SameMnode(s, s', x) { assert SameMnode(s, s1, x); }
      forall e ensures LocalAt(g, s, s', c, e) { assert LocalAt(g, s, s1, c, e); }
    }
    forall e ensures ChainWhole(g, s', p', c, w.tick, e) { ChainKept(g, w, t, s', p', c, e); }
    assert forall e :: FlightAt(w, t, s', p', e);
    SoundStep(g, w, t, s', p', m, c);
  }

  lemma CompareInv(g: Setting, w: World, t: nat)
    requires WInv(g, w) && Enabled(g, w, Compare(t))
    ensures WInv(g, Moved(w, t, Do(g, w, Compare(t)).0, Do(g, w, Compare(t)).1))
  {
    var p, s := w.phases[t], w.s;
    assert PhaseAt(g, w, t);
    if Handle(s, p.m) != p.got {
      var s' := Free(g, s, p.m);
      FreeOk(g, s, p.m);
      assert GotOk(s', p.m, p.got);
      FreeInv(g, w, t, s', Cleared(p.m, p.got));
    } else if p.got.Some? {
      CarriedHeld(g, w, t, p.got.value);
      ReleasedOk(g, s, p.got.value);
      SameInv(g, w, t, p.got.value, Released(g, s, p.got.value));
    } else {
      WorksAlone(g, w, t, -1);
      PhaseOnly(g, w, t, Locked(p.m), -1);
    }
  }

  /** The same entry as before: the hold just taken goes. */
  lemma SameInv(g: Setting, w: World, t: nat, e: nat, s': State)
    requires WInv(g, w) && t < |w.phases| && w.phases[t].Holding? && w.phases[t].got == Some(e)
    requires Handle(w.s, w.phases[t].m) == Some(e) && EntryFree(g, w, Some(e)) && Inv(g, s') && Dropped(w.s, s', e)
    requires e in w.s.flight
    ensures WInv(g, Moved(w, t, s', Locked(w.phases[t].m)))
  {
    var m, s, p' := w.phases[t].m, w.s, Locked(w.phases[t].m);
    var c := ChainOf(g, s, Some(e));
    WorksAlone(g, w, t, c);
    assert PhaseAt(g, w, t) && HandleAt(s', m);
    assert Local(g, s, s', m, c) by {
      assert forall x :: x != m ==> SameMnode(s, s', x);
      forall x ensures LocalAt(g, s, s', c, x) { }
    }
    forall x ensures ChainWhole(g, s', p', c, w.tick, x) { ChainKept(g, w, t, s', p', c, x); }
    assert forall x :: FlightAt(w, t, s', p', x);
    SoundStep(g, w, t, s', p', m, c);
  }

  lemma BindStep(g: Setting, w: World, t: nat)
    requires WInv(g, w) && Enabled(g, w, EaclRuns.Bind(t))
    ensures WInv(g, Moved(w, t, Do(g, w, EaclRuns.Bind(t)).0, Do(g, w, EaclRuns.Bind(t)).1))
  {
    var p, s := w.phases[t], w.s;
    assert PhaseAt(g, w, t);
    WorksAlone(g, w, t, -1);
    if p.got.Some? {
      CarriedHeld(g, w, t, p.got.value);
      BindInv(g, s, p.m, p.got.value);
      var s', p' := EaclState.Bind(s, p.m, p.got.value), Locked(p.m);
      assert Local(g, s, s', p.m, -1) by {
        assert forall x :: x != p.m ==> SameMnode(s, s', x);
        assert forall e :: LocalAt(g, s, s', -1, e);
      }
      forall e ensures FlightAt(w, t, s', p', e) && ChainWhole(g, s', p', -1, w.tick, e) { }
      SoundStep(g, w, t, s', p', p.m, -1);
    } else {
      PhaseOnly(g, w, t, Locked(p.m), -1);
    }
  }

  // ---- Fetching ----

  lemma RefillLocal(g: Setting, s: State, s': State, e: nat, m: nat, c: int)
    requires e in s.ent && g.hash(s.ent[e].key) == c && s'.aclh == s.aclh && s'.role == s.role
    requires s'.ent.Keys == s.ent.Keys && s'.ent[e].key == s.ent[e].key
    requires forall x :: x in s.ent && x != e ==> s'.ent[x] == s.ent[x]
    ensures Local(g, s, s', m, c)
  {
    forall x | x != m ensures SameMnode(s, s', x) { }
    forall x ensures LocalAt(g, s, s', c, x) { }
  }

  /** The thread changes one entry of a chain that it has to itself. */
  lemma OneEntry(g: Setting, w: World, t: nat, s': State, p': Phase, e: nat, c: int)
    requires WInv(g, w) && t < |w.phases| && !w.phases[t].Out? && Alone(g, w.phases, t, w.phases[t].m, c)
    requires e in w.s.ent && g.hash(w.s.ent[e].key) == c && s'.aclh == w.s.aclh && s'.role == w.s.role && Inv(g, s')
    requires s'.ent.Keys == w.s.ent.Keys && s'.ent[e].key == w.s.ent[e].key
    requires forall x :: x in w.s.ent && x != e ==> s'.ent[x] == w.s.ent[x]
    requires !p'.Out? && p'.m == w.phases[t].m && PhaseOk(g, s', p', w.tick + 1)
    requires (w.phases[t].Renewing? ==> w.phases[t].e == e) && (Fetching(w.phases[t]) ==> g.hash(w.phases[t].key) == c)
    requires (Fetching(p') ==> g.hash(p'.key) == c) && ((p'.Renewing? && p'.e == e) || Whole(g, s'.ent[e], w.tick + 1))
    requires forall x :: FlightAt(w, t, s', p', x)
    ensures WInv(g, Moved(w, t, s', p'))
  {
    RefillLocal(g, w.s, s', e, w.phases[t].m, c);
    forall x ensures ChainWhole(g, s', p', c, w.tick, x) {
      if x != e { ChainKept(g, w, t, s', p', c, x); }
    }
    SoundStep(g, w, t, s', p', w.phases[t].m, c);
  }

  lemma FindInv(g: Setting, w: World, t: nat, e: nat, mtime: nat, clock: nat)
    requires WInv(g, w) && Enabled(g, w, Find(t, e, mtime, clock))
    ensures var r := Do(g, w, Find(t, e, mtime, clock)); WInv(g, Moved(w, t, r.0, r.1))
  {
    var p, s, r := w.phases[t], w.s, Do(g, w, Find(t, e, mtime, clock));
    var c := g.hash(s.ent[e].key);
    WorksAlone(g, w, t, c);
    HoldInv(g, s, e);
    var s1 := EaclState.Hold(s, e);
    if Expired(s.ent[e], mtime, clock) {
      RefillInv(g, s1, e, s.ent[e].lut, s.ent[e].policy, None);
    } else {
      ChainRests(g, w, t, p.m, c, e);
      WholeCounted(g, s.ent[e], s.ent[e].refcnt + 1, w.tick);
    }
    OneEntry(g, w, t, r.0, r.1, e, c);
  }

  lemma CheckInv(g: Setting, w: World, t: nat, mtime: nat, clock: nat)
    requires WInv(g, w) && Enabled(g, w, Check(t, mtime, clock))
    ensures var r := Do(g, w, Check(t, mtime, clock)); WInv(g, Moved(w, t, r.0, r.1))
  {
    var p, s, r := w.phases[t], w.s, Do(g, w, Check(t, mtime, clock));
    assert PhaseAt(g, w, t);
    if p.m in s.aclh && Expired(s.ent[s.aclh[p.m]], mtime, clock) {
      var e := s.aclh[p.m];
      WorksAlone(g, w, t, g.hash(s.ent[e].key));
      RefillInv(g, s, e, s.ent[e].lut, s.ent[e].policy, None);
      OneEntry(g, w, t, r.0, r.1, e, g.hash(s.ent[e].key));
    } else {
      WorksAlone(g, w, t, -1);
      PhaseOnly(g, w, t, Checking(p.m), -1);
    }
  }

  lemma CallInv(g: Setting, w: World, t: nat)
    requires WInv(g, w) && Enabled(g, w, EaclRuns.Call(t))
    ensures var r := Do(g, w, EaclRuns.Call(t)); WInv(g, Moved(w, t, r.0, r.1))
  {
    var p, s, r := w.phases[t], w.s, Do(g, w, EaclRuns.Call(t));
    var c, f := g.hash(p.key), NextCall(g.server(p.key), w.tick, p.f);
    assert PhaseAt(g, w, t);
    WorksAlone(g, w, t, c);
    NextOk(g.server(p.key), p.f, w.tick);
    if p.Filling? {
      PhaseOnly(g, w, t, r.1, c);
    } else {
      RefillInv(g, s, p.e, f.lut, f.policy, f.h);
      OneEntry(g, w, t, r.0, r.1, p.e, c);
    }
  }

  /** After the loop there is nothing, or all of one version. */
  lemma FinishComplete(s: Server, f: Progress, hi: nat)
    requires ScanOk(s, f, hi)
    ensures Complete(s, Finish(f).h, Finish(f).lut, Finish(f).policy, hi + 1)
  {
  }

  lemma DoneInv(g: Setting, w: World, t: nat, x: nat)
    requires WInv(g, w) && Enabled(g, w, Done(t, x))
    ensures var r := Do(g, w, Done(t, x)); WInv(g, Moved(w, t, r.0, r.1))
  {
    var p, s, r := w.phases[t], w.s, Do(g, w, Done(t, x));
    var f := Finish(p.f);
    assert PhaseAt(g, w, t);
    WorksAlone(g, w, t, g.hash(p.key));
    FinishComplete(g.server(p.key), p.f, w.tick);
    if p.Filling? {
      FilledInv(g, w, t, x, Entry(p.key, 1, f.lut, f.policy, f.h));
    } else {
      RefillInv(g, s, p.e, f.lut, f.policy, f.h);
      CompleteWhole(g, r.0.ent[p.e], w.tick + 1);
      OneEntry(g, w, t, r.0, r.1, p.e, g.hash(p.key));
    }
  }

  lemma FilledInv(g: Setting, w: World, t: nat, x: nat, n: Entry)
    requires WInv(g, w) && t < |w.phases| && w.phases[t].Filling?
    requires x !in w.s.ent && n.key == w.phases[t].key && n.refcnt == 1
    requires Complete(g.server(n.key), n.h, n.lut, n.policy, w.tick + 1)
    requires Alone(g, w.phases, t, w.phases[t].m, g.hash(n.key))
    ensures g.hash(n.key) < |w.s.chains| == |w.s.cnt|
    ensures WInv(g, Moved(w, t, Insert(g, w.s, x, n), Holding(w.phases[t].m, Some(x))))
  {
    var m, c, s := w.phases[t].m, g.hash(n.key), w.s;
    assert PhaseAt(g, w, t);
    InsertInv(g, s, x, n);
    var s', p' := Insert(g, s, x, n), Holding(m, Some(x));
    CompleteWhole(g, n, w.tick + 1);
    assert Local(g, s, s', m, c) by {
      assert forall y :: y != m ==> SameMnode(s, s', y);
      forall e ensures LocalAt(g, s, s', c, e) { }
    }
    forall e ensures ChainWhole(g, s', p', c, w.tick, e) { if e != x { ChainKept(g, w, t, s', p', c, e); } }
    assert forall e :: FlightAt(w, t, s', p', e);
    SoundStep(g, w, t, s', p', m, c);
  }

  // ---- Invalidation ----

  lemma MarkedInv(g: Setting, s: State, c: nat, policy: bool, oid: nat)
    requires Inv(g, s) && c < |s.chains|
    ensures Inv(g, Marked(s, c, policy, oid))
  {
    var s' := Marked(s, c, policy, oid);
    ChainsFrame(g, s, s');
    KeysFrame(s, s');
    forall e ensures RefAt(s', e) { assert RefAt(s, e); }
    forall m ensures HandleAt(s', m) { assert HandleAt(s, m); }
  }

  lemma MarkedLocal(g: Setting, s: State, c: nat, policy: bool, oid: nat)
    requires Inv(g, s) && c < |s.chains|
    ensures Local(g, s, Marked(s, c, policy, oid), -1, c)
  {
    var s' := Marked(s, c, policy, oid);
    assert ChainAt(g, s, c);
    forall x ensures SameMnode(s, s', x) { }
    forall e ensures LocalAt(g, s, s', c, e) { }
  }

  lemma InvalInv(g: Setting, w: World, c: nat, policy: bool, oid: nat)
    requires WInv(g, w) && c < g.size && ChainFree(g, w.phases, c)
    ensures WInv(g, World(Marked(w.s, c, policy, oid), w.phases, w.tick + 1))
  {
    var s, s' := w.s, Marked(w.s, c, policy, oid);
    var w' := World(s', w.phases, w.tick + 1);
    MarkedInv(g, s, c, policy, oid);
    MarkedLocal(g, s, c, policy, oid);
    forall t: nat ensures PhaseAt(g, w', t) { if t < |w.phases| { InvalPhase(g, w, s', c, t); } }
    forall e ensures CarriedAt(w', e) { assert CarriedAt(w, e); }
    forall m ensures MatchAt(w', m) { assert MatchAt(w, m) && HandleAt(s', m); }
    forall e ensures WholeUnless(g, w', e) {
      assert WholeUnless(g, w, e);
      if e in s.ent && !Renewed(w.phases, e) && s.ent[e].h.Some? {
        var n: nat :| n < w.tick && WholeAt(g, s.ent[e], n);
        assert WholeAt(g, s'.ent[e], n);
      }
    }
  }

  lemma InvalPhase(g: Setting, w: World, s': State, c: nat, t: nat)
    requires WInv(g, w) && Local(g, w.s, s', -1, c) && ChainFree(g, w.phases, c) && t < |w.phases|
    requires s'.ent.Keys == w.s.ent.Keys
    ensures PhaseOk(g, s', w.phases[t], w.tick + 1)
  {
    var q, s := w.phases[t], w.s;
    assert PhaseAt(g, w, t);
    if !q.Out? {
      assert SameMnode(s, s', q.m);
      if q.m in s.aclh { assert LocalAt(g, s, s', c, s.aclh[q.m]); }
    }
    if q.Filling? {
      OtherAbsent(g, s, s', -1, c, q.key);
      ScanLater(g.server(q.key), q.f, w.tick);
    } else if q.Renewing? {
      assert LocalAt(g, s, s', c, q.e);
      ScanLater(g.server(q.key), q.f, w.tick);
    } else if (q.Holding? || q.Cleared?) && q.got.Some? {
      assert LocalAt(g, s, s', c, q.got.value);
    }
  }

  // ---- All steps ----

  lemma StepInv(g: Setting, w: World, a: Step)
    requires WInv(g, w) && Enabled(g, w, a)
    ensures WInv(g, Next(g, w, a))
  {
    if a.Inval? {
      InvalInv(g, w, a.c, a.policy, a.oid);
    } else {
      assert PhaseAt(g, w, a.t);
      match a
      case Lock(t, m) => LockInv(g, w, t, m);
      case Copy(t, key) => CopyInv(g, w, t, key);
      case Null(t) =>
        FreeOk(g, w.s, w.phases[t].m);
        FreeInv(g, w, t, Free(g, w.s, w.phases[t].m), Locked(w.phases[t].m));
      case Find(t, e, mtime, clock) => FindInv(g, w, t, e, mtime, clock);
      case Call(t) => CallInv(g, w, t);
      case Done(t, x) => DoneInv(g, w, t, x);
      case Compare(t) => CompareInv(g, w, t);
      case Bind(t) => BindStep(g, w, t);
      case Check(t, mtime, clock) => CheckInv(g, w, t, mtime, clock);
      case Uncache(t) => UncacheInv(g, w, t);
      case Unlock(t) => QuietInv(g, w, a);
      case NoRoom(t) => QuietInv(g, w, a);
      case New(t) => QuietInv(g, w, a);
      case Read(t) => QuietInv(g, w, a);
      case Use(t) => QuietInv(g, w, a);
    }
  }

  /** Steps that change the thread's phase alone. */
  lemma QuietInv(g: Setting, w: World, a: Step)
    requires WInv(g, w) && Enabled(g, w, a) && (a.Unlock? || a.NoRoom? || a.New? || a.Read? || a.Use?)
    ensures WInv(g, Next(g, w, a))
  {
    var p := w.phases[a.t];
    assert PhaseAt(g, w, a.t);
    var c := if a.New? then g.hash(w.s.role[p.m]) else -1;
    WorksAlone(g, w, a.t, c);
    PhaseOnly(g, w, a.t, Do(g, w, a).1, c);
  }
}
