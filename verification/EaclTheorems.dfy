/** What holds of the EACL cache at every point of every run. */
module EaclTheorems {
  import opened EaclFetch
  import opened EaclState
  import opened EaclTable
  import opened EaclRuns
  import opened EaclRunProofs

  ghost predicate Initial(g: Setting, w: World) {
    w.s == State(map[], seq(g.size, _ => []), seq(g.size, _ => 0), map[], map[], multiset{}) && w.tick == 0 &&
    (forall t :: 0 <= t < |w.phases| ==> w.phases[t].Out?) && Timed(g) && forall k :: g.hash(k) < g.size
  }

  ghost predicate Moves(g: Setting, w: World, a: Step, w': World) { Enabled(g, w, a) && w' == Next(g, w, a) }

  ghost predicate Run(g: Setting, ws: seq<World>, steps: seq<Step>) {
    |ws| == |steps| + 1 && Initial(g, ws[0]) && forall n: nat :: MovesAt(g, ws, steps, n)
  }

  ghost predicate MovesAt(g: Setting, ws: seq<World>, steps: seq<Step>, n: nat) {
    n < |steps| && n + 1 < |ws| ==> Moves(g, ws[n], steps[n], ws[n + 1])
  }

  lemma InitialInv(g: Setting, w: World)
    requires Initial(g, w)
    ensures WInv(g, w)
  {
    var s := w.s;
    forall e ensures RefAt(s, e) && EntryAt(g, s, e) && CarriedAt(w, e) { assert Carriers(w.phases, e) == {}; }
    forall c ensures ChainAt(g, s, c) { }
  }

  /** Every interleaving keeps counts, chains, keys, locks, holds and lists in order. */
  lemma {:induction false} RunInv(g: Setting, ws: seq<World>, steps: seq<Step>, n: nat)
    requires Run(g, ws, steps) && n < |ws|
    ensures WInv(g, ws[n])
  {
    if n == 0 {
      InitialInv(g, ws[0]);
    } else {
      RunInv(g, ws, steps, n - 1);
      assert MovesAt(g, ws, steps, n - 1);
      StepInv(g, ws[n - 1], steps[n - 1]);
    }
  }

  /**
    In every reachable state the count of an entry is the number of mnodes that point at
    it plus the threads that carry a hold; it is in the table exactly while that is
    positive, once, on the chain its key selects; and the chain's count is its length.
   */
  lemma Conserved(g: Setting, ws: seq<World>, steps: seq<Step>, n: nat, e: nat)
    requires Run(g, ws, steps) && n < |ws|
    ensures var s, held := ws[n].s, |Holders(ws[n].s.aclh, e)| + |Carriers(ws[n].phases, e)|;
            (e in s.ent <==> held > 0) && (e in s.ent ==> s.ent[e].refcnt == held && OnChain(g, s, e))
    ensures |ws[n].s.chains| == |ws[n].s.cnt| == g.size
    ensures forall c :: 0 <= c < g.size ==> ws[n].s.cnt[c] == |ws[n].s.chains[c]| && NoDup(ws[n].s.chains[c])
    ensures forall c :: 0 <= c < g.size && e in ws[n].s.chains[c] ==>
            e in ws[n].s.ent && g.hash(ws[n].s.ent[e].key) == c
  {
    var s := ws[n].s;
    RunInv(g, ws, steps, n);
    assert RefAt(s, e) && EntryAt(g, s, e) && CarriedAt(ws[n], e);
    if e !in s.ent {
      forall m | m in s.aclh ensures s.aclh[m] != e { assert HandleAt(s, m); }
      assert Holders(s.aclh, e) == {};
    }
    forall c: nat | c < g.size
      ensures s.cnt[c] == |s.chains[c]| && NoDup(s.chains[c]) &&
              (e in s.chains[c] ==> e in s.ent && g.hash(s.ent[e].key) == c)
    {
      assert ChainAt(g, s, c);
    }
  }

  /** Some thread is in the middle of fetching the entry again. */
  ghost predicate Busy(w: World, e: nat) {
    exists t :: 0 <= t < |w.phases| && w.phases[t].Renewing? && w.phases[t].e == e && !w.phases[t].f.done
  }

  /** A list in an entry is the whole of one that the server had if and only if no thread is fetching it again. */
  lemma WholeIffNotBusy(g: Setting, w: World, e: nat)
    requires WInv(g, w) && e in w.s.ent && w.s.ent[e].h.Some?
    ensures Whole(g, w.s.ent[e], w.tick) <==> !Busy(w, e)
  {
    var x := w.s.ent[e];
    if Busy(w, e) {
      var t: nat :| t < |w.phases| && w.phases[t].Renewing? && w.phases[t].e == e && !w.phases[t].f.done;
      assert PhaseAt(g, w, t);
      PartNotWhole(g, x, w.phases[t].f, w.tick);
    } else if Renewed(w.phases, e) {
      var t: nat :| t < |w.phases| && w.phases[t].Renewing? && w.phases[t].e == e;
      assert PhaseAt(g, w, t);
      CompleteWhole(g, x, w.tick);
    } else {
      assert WholeUnless(g, w, e);
    }
  }

  /** What a scan has accumulated before its end is not the whole of the version whose time the entry has. */
  lemma PartNotWhole(g: Setting, x: Entry, f: Progress, tick: nat)
    requires Timed(g) && Mirrors(x, f) && x.h.Some? && Begun(g.server(x.key), f, tick)
    ensures forall k: nat :: !WholeAt(g, x, k)
  {
    var s := g.server(x.key);
    var n: nat :| n < tick && Partial(s.now(n), f.cursor, f.h) && f.lut == s.now(n).mtime;
    forall k: nat ensures !WholeAt(g, x, k) {
      assert Dated(s) && OneVersion(s, k, n) && s.now(n).mtime > 0;
      assert |x.h.value| < |s.now(n).entries|;
    }
  }

  /**
    At every point of every run, an mnode that no thread has locked has no handle or one
    for its own rolemap; its list, if there is one, is the whole of a list that the server
    had for that rolemap unless a thread is fetching the entry again through another mnode.
   */
  lemma HandlesComplete(g: Setting, ws: seq<World>, steps: seq<Step>, n: nat, m: nat)
    requires Run(g, ws, steps) && n < |ws| && MnodeFree(ws[n].phases, m) && m in ws[n].s.aclh
    ensures m in ws[n].s.role && ws[n].s.aclh[m] in ws[n].s.ent
    ensures var x := ws[n].s.ent[ws[n].s.aclh[m]];
            x.key == ws[n].s.role[m] && (x.h.Some? ==> (Whole(g, x, ws[n].tick) <==> !Busy(ws[n], ws[n].s.aclh[m])))
  {
    RunInv(g, ws, steps, n);
    assert MatchAt(ws[n], m);
    if ws[n].s.ent[ws[n].s.aclh[m]].h.Some? { WholeIffNotBusy(g, ws[n], ws[n].s.aclh[m]); }
  }

  /**
    The look that an access check takes at the list, in every run: it is the list of the
    mnode's own rolemap, and a check that grants has used the whole of a list that the
    server had if and only if no other thread was fetching the entry again just then.
   */
  lemma ReadsWhole(g: Setting, ws: seq<World>, steps: seq<Step>, n: nat, want: Want, dir: bool, who: Who, mode: Mode,
                   grant: (seq<Ace>, set<nat>) -> bool)
    requires Run(g, ws, steps) && n < |steps| && steps[n].Read?
    ensures steps[n].t < |ws[n].phases| && ws[n].phases[steps[n].t].Checking?
    ensures var m, s := ws[n].phases[steps[n].t].m, ws[n].s;
            m in s.role && (m in s.aclh ==>
              s.aclh[m] in s.ent && s.ent[s.aclh[m]].key == s.role[m] &&
              (Grants(s.ent[s.aclh[m]].h, want, dir, who, mode, grant) ==>
                (Whole(g, s.ent[s.aclh[m]], ws[n].tick) <==> !Busy(ws[n], s.aclh[m]))))
  {
    RunInv(g, ws, steps, n);
    assert MovesAt(g, ws, steps, n);
    var w, t := ws[n], steps[n].t;
    assert PhaseAt(g, w, t);
    var m := w.phases[t].m;
    if m in w.s.aclh && w.s.ent[w.s.aclh[m]].h.Some? { WholeIffNotBusy(g, w, w.s.aclh[m]); }
  }

  /** With the chain's lock in hand the look would never meet part of a list. */
  lemma LockedReadsWhole(g: Setting, w: World, e: nat)
    requires WInv(g, w) && e in w.s.ent && ChainFree(g, w.phases, g.hash(w.s.ent[e].key))
    ensures Whole(g, w.s.ent[e], w.tick)
  {
    assert WholeUnless(g, w, e);
    forall t: nat | t < |w.phases| ensures !(w.phases[t].Renewing? && w.phases[t].e == e) {
      assert PhaseAt(g, w, t);
    }
  }

  /** It meets one only through another mnode of the same rolemap. */
  lemma BusyMeansShared(g: Setting, w: World, t: nat)
    requires WInv(g, w) && t < |w.phases| && w.phases[t].Checking? && w.phases[t].m in w.s.aclh
    requires Busy(w, w.s.aclh[w.phases[t].m])
    ensures exists m ::
              m in w.s.role && m != w.phases[t].m && w.phases[t].m in w.s.role && w.s.role[m] == w.s.role[w.phases[t].m]
  {
    var e := w.s.aclh[w.phases[t].m];
    var u: nat :| u < |w.phases| && w.phases[u].Renewing? && w.phases[u].e == e && !w.phases[u].f.done;
    assert PhaseAt(g, w, t) && PhaseAt(g, w, u) && ApartAt(g, w.phases, t, u);
    assert w.phases[u].m in w.s.role;
  }

  // ---- Using the list ----

  /** The step starts to fetch entry e again: its list is freed. */
  ghost predicate Refetches(g: Setting, w: World, a: Step, e: nat) {
    Enabled(g, w, a) && e in w.s.ent &&
    ((a.Find? && a.e == e && Expired(w.s.ent[e], a.mtime, a.clock)) ||
     (a.Check? && Handle(w.s, w.phases[a.t].m) == Some(e) && Expired(w.s.ent[e], a.mtime, a.clock)))
  }

  /** The entry holds a list, and nobody is in the middle of fetching it again. */
  ghost predicate Settled(w: World, e: nat, h: seq<Ace>) {
    e in w.s.ent && w.s.ent[e].h == Some(h) && !Busy(w, e)
  }

  ghost predicate SameList(s: State, s': State, e: nat) {
    e in s.ent && (e in s'.ent ==> s'.ent[e].h == s.ent[e].h)
  }

  /** Only the start of a refetch takes the list from a settled entry. */
  lemma StepSettled(g: Setting, w: World, a: Step, e: nat, h: seq<Ace>)
    requires WInv(g, w) && Enabled(g, w, a) && Settled(w, e, h) && e in Next(g, w, a).s.ent
    ensures if Refetches(g, w, a, e) then Next(g, w, a).s.ent[e].h.None? else Settled(Next(g, w, a), e, h)
  {
    if a.Inval? {
      assert forall t :: 0 <= t < |w.phases| ==> Next(g, w, a).phases[t] == w.phases[t];
    } else {
      assert PhaseAt(g, w, a.t);
      if a.t < |w.phases| && w.phases[a.t].Renewing? && w.phases[a.t].e == e { assert w.phases[a.t].f.done; }
      if !Refetches(g, w, a, e) { StepKeepsList(g, w, a, e); }
      StillIdle(w, Next(g, w, a), a.t, e);
    }
  }

  lemma StillIdle(w: World, w': World, t: nat, e: nat)
    requires t < |w.phases| == |w'.phases| && !Busy(w, e) && w'.phases == w.phases[t := w'.phases[t]]
    ensures Busy(w', e) ==> w'.phases[t].Renewing? && w'.phases[t].e == e && !w'.phases[t].f.done
  {
    if Busy(w', e) {
      var u :| 0 <= u < |w'.phases| && w'.phases[u].Renewing? && w'.phases[u].e == e && !w'.phases[u].f.done;
      assert u != t ==> w.phases[u] == w'.phases[u];
    }
  }

  lemma StepKeepsList(g: Setting, w: World, a: Step, e: nat)
    requires WInv(g, w) && Enabled(g, w, a) && !a.Inval? && e in w.s.ent && !Busy(w, e) && !Refetches(g, w, a, e)
    ensures SameList(w.s, Next(g, w, a).s, e)
    ensures var p := Next(g, w, a).phases[a.t]; p.Renewing? && p.e == e ==> p.f.done
  {
    var p, s := w.phases[a.t], w.s;
    assert PhaseAt(g, w, a.t);
    match a
    case Null(t) => FreeOk(g, s, p.m);
    case Uncache(t) => FreeOk(g, s, p.m);
    case Compare(t) => CompareKeepsList(g, w, t, e);
    case _ =>
  }

  lemma CompareKeepsList(g: Setting, w: World, t: nat, e: nat)
    requires WInv(g, w) && Enabled(g, w, Compare(t)) && e in w.s.ent
    ensures SameList(w.s, Next(g, w, Compare(t)).s, e)
  {
    var p := w.phases[t];
    if Handle(w.s, p.m) != p.got {
      FreeOk(g, w.s, p.m);
    } else if p.got.Some? {
      CarriedHeld(g, w, t, p.got.value);
      ReleasedOk(g, w.s, p.got.value);
    }
  }

  /** Thread t, with mnode x, looks at the handle in step m and uses the list in step n. */
  ghost predicate LooksFrom(ws: seq<World>, steps: seq<Step>, m: nat, n: nat, t: nat, x: nat, e: nat)
    requires n < |steps| < |ws|
  {
    m < n && steps[m] == Read(t) && steps[n] == Use(t) && x in ws[m].s.aclh && ws[m].s.aclh[x] == e &&
    t < |ws[m].phases| && ws[m].phases[t] == Checking(x) &&
    forall j :: m < j <= n ==> t < |ws[j].phases| && ws[j].phases[t] == Looking(x)
  }

  /** The mnode keeps its handle, and the entry stays, while the thread has the mnode locked. */
  lemma {:induction false} StaysBound(g: Setting, ws: seq<World>, steps: seq<Step>, m: nat, n: nat, k: nat, t: nat,
                                      x: nat, e: nat)
    requires Run(g, ws, steps) && n < |steps| && LooksFrom(ws, steps, m, n, t, x, e) && m <= k <= n
    ensures x in ws[k].s.aclh && ws[k].s.aclh[x] == e && e in ws[k].s.ent
    decreases k
  {
    if k > m {
      StaysBound(g, ws, steps, m, n, k - 1, t, x, e);
      assert t < |ws[k - 1].phases| && (ws[k - 1].phases[t] == Looking(x) || ws[k - 1].phases[t] == Checking(x));
      assert x in ws[k].s.aclh && ws[k].s.aclh[x] == e by {
        RunAt(g, ws, steps, k - 1);
        HandleStays(g, ws[k - 1], steps[k - 1], t, x);
      }
    }
    assert e in ws[k].s.ent by {
      RunInv(g, ws, steps, k);
      assert HandleAt(ws[k].s, x);
    }
  }

  lemma RunAt(g: Setting, ws: seq<World>, steps: seq<Step>, n: nat)
    requires Run(g, ws, steps) && n < |steps|
    ensures WInv(g, ws[n]) && Enabled(g, ws[n], steps[n]) && ws[n + 1] == Next(g, ws[n], steps[n])
  {
    RunInv(g, ws, steps, n);
    assert MovesAt(g, ws, steps, n);
  }

  /** No other thread's step changes the handle of a locked mnode, nor do a look and a use. */
  lemma HandleStays(g: Setting, w: World, a: Step, t: nat, x: nat)
    requires WInv(g, w) && Enabled(g, w, a) && t < |w.phases|
    requires w.phases[t] == Looking(x) || w.phases[t] == Checking(x)
    requires x in w.s.aclh
    ensures x in Next(g, w, a).s.aclh && Next(g, w, a).s.aclh[x] == w.s.aclh[x]
  {
    if !a.Inval? {
      var p := w.phases[a.t];
      assert ApartAt(g, w.phases, t, a.t) && PhaseAt(g, w, a.t);
      match a
      case Null(_) => FreeOk(g, w.s, p.m);
      case Uncache(_) => FreeOk(g, w.s, p.m);
      case Compare(_) => CompareHandles(g, w, a.t, x);
      case _ =>
    }
  }

  lemma CompareHandles(g: Setting, w: World, t: nat, x: nat)
    requires WInv(g, w) && Enabled(g, w, Compare(t)) && x != w.phases[t].m && x in w.s.aclh
    ensures x in Next(g, w, Compare(t)).s.aclh && Next(g, w, Compare(t)).s.aclh[x] == w.s.aclh[x]
  {
    var p := w.phases[t];
    if Handle(w.s, p.m) != p.got {
      FreeOk(g, w.s, p.m);
    } else if p.got.Some? {
      CarriedHeld(g, w, t, p.got.value);
      ReleasedOk(g, w.s, p.got.value);
    }
  }

  /** The list that the thread saw has not been freed: the entry has had one ever since. */
  ghost predicate Lives(ws: seq<World>, m: nat, n: nat, e: nat)
    requires n < |ws|
  {
    forall j :: m <= j <= n ==> e in ws[j].s.ent && ws[j].s.ent[e].h.Some?
  }

  lemma NextSettled(g: Setting, ws: seq<World>, steps: seq<Step>, n: nat, e: nat, h: seq<Ace>)
    requires Run(g, ws, steps) && n < |steps| && Settled(ws[n], e, h) && e in ws[n + 1].s.ent
    ensures if Refetches(g, ws[n], steps[n], e) then ws[n + 1].s.ent[e].h.None? else Settled(ws[n + 1], e, h)
  {
    RunAt(g, ws, steps, n);
    StepSettled(g, ws[n], steps[n], e, h);
  }

  lemma {:induction false} StaysSettled(g: Setting, ws: seq<World>, steps: seq<Step>, m: nat, n: nat, k: nat, t: nat,
                                        x: nat, e: nat)
    requires Run(g, ws, steps) && n < |steps| && LooksFrom(ws, steps, m, n, t, x, e) && m <= k <= n
    requires ws[m].s.aclh[x] in ws[m].s.ent && ws[m].s.ent[e].h.Some? && !Busy(ws[m], e)
    requires forall j :: m <= j < k ==> !Refetches(g, ws[j], steps[j], e)
    ensures Settled(ws[k], e, ws[m].s.ent[e].h.value)
    decreases k
  {
    if k > m {
      StaysSettled(g, ws, steps, m, n, k - 1, t, x, e);
      StaysBound(g, ws, steps, m, n, k, t, x, e);
      NextSettled(g, ws, steps, k - 1, e, ws[m].s.ent[e].h.value);
    }
  }

  /**
    A check that has seen a whole list walks that list, unchanged and not freed, if and
    only if no thread starts to fetch the entry again between the look and the use.
   */
  lemma UsesLiveList(g: Setting, ws: seq<World>, steps: seq<Step>, m: nat, n: nat, t: nat, x: nat, e: nat)
    requires Run(g, ws, steps) && n < |steps| && LooksFrom(ws, steps, m, n, t, x, e)
    requires e in ws[m].s.ent && ws[m].s.ent[e].h.Some? && !Busy(ws[m], e)
    ensures e in ws[n].s.ent
    ensures Lives(ws, m, n, e) <==> forall j :: m <= j < n ==> !Refetches(g, ws[j], steps[j], e)
    ensures Lives(ws, m, n, e) ==> ws[n].s.ent[e].h == ws[m].s.ent[e].h
  {
    StaysBound(g, ws, steps, m, n, n, t, x, e);
    if forall j :: m <= j < n ==> !Refetches(g, ws[j], steps[j], e) {
      forall j: nat | m <= j <= n ensures Settled(ws[j], e, ws[m].s.ent[e].h.value) {
        StaysSettled(g, ws, steps, m, n, j, t, x, e);
      }
      assert Settled(ws[n], e, ws[m].s.ent[e].h.value);
    } else {
      var j := FirstRefetch(g, ws, steps, m, n, e);
      StaysSettled(g, ws, steps, m, n, j, t, x, e);
      StaysBound(g, ws, steps, m, n, j + 1, t, x, e);
      NextSettled(g, ws, steps, j, e, ws[m].s.ent[e].h.value);
    }
  }

  lemma {:induction false} FirstRefetch(g: Setting, ws: seq<World>, steps: seq<Step>, m: nat, n: nat, e: nat)
    returns (j: nat)
    requires n <= |steps| < |ws| && exists i :: m <= i < n && Refetches(g, ws[i], steps[i], e)
    ensures m <= j < n && Refetches(g, ws[j], steps[j], e)
    ensures forall i :: m <= i < j ==> !Refetches(g, ws[i], steps[i], e)
    decreases n
  {
    if exists i :: m <= i < n - 1 && Refetches(g, ws[i], steps[i], e) {
      j := FirstRefetch(g, ws, steps, m, n - 1, e);
    } else {
      j := n - 1;
    }
  }

  /** Only another mnode of the same rolemap can start such a fetch. */
  lemma RefetchMeansShared(g: Setting, w: World, a: Step, t: nat, e: nat)
    requires WInv(g, w) && t < |w.phases| && w.phases[t].Looking? && Handle(w.s, w.phases[t].m) == Some(e)
    requires Refetches(g, w, a, e)
    ensures exists m :: m in w.s.role && m != w.phases[t].m && w.phases[t].m in w.s.role &&
              w.s.role[m] == w.s.role[w.phases[t].m]
  {
    assert PhaseAt(g, w, t) && PhaseAt(g, w, a.t) && ApartAt(g, w.phases, t, a.t);
    assert w.phases[a.t].m in w.s.role;
  }
}
