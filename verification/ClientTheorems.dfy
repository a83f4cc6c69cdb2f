/**
  What the cache tells callers about a directory, in every run of every client.
 */
module ClientTheorems {
  import opened BuildHandles
  import opened Client
  import opened ClientAgreement
  import opened ClientCache
  import opened ClientProofs
  import opened DncRun
  import opened DncRunProofs
  import opened DncTable
  import opened DncTheorems
  import opened NameHash

  /** An empty cache, and attributes of some version of every directory. */
  ghost predicate Initial(c: Client.World) {
    c.w.t.geo.hashSize > 0 && c.w == Start(c.w.t.geo, c.w.target) && c.stage == map[] && c.tainted == iset{} &&
    c.broken == iset{} &&
    forall d :: DirOk(c, d)
  }

  ghost predicate Play(cs: seq<Client.World>, acts: seq<Act>) {
    |cs| == |acts| + 1 && Initial(cs[0]) &&
    forall n :: 0 <= n < |acts| ==> Moves(cs[n], acts[n], cs[n + 1])
  }

  ghost predicate Moves(c: Client.World, a: Act, c': Client.World) { Shape(c.w) && CanDo(c, a) && c' == Do(c, a) }

  // ---- The cache's own guarantees hold under the protocol ----

  lemma LockedReachable(w: DncRun.World, tid: nat, call: Call)
    requires Reachable(w) && Shape(w) && Lead(call) !in w.locks && Second(call) !in w.locks
    ensures Reachable(Locked(w, tid, call))
  {
    ReachableStep(w, Step.Lock(tid, Lead(call)));
    if Second(call) != Lead(call) { ReachableStep(Apply(w, Step.Lock(tid, Lead(call))), Step.Lock(tid, Second(call))); }
  }

  lemma UnlockedReachable(w: DncRun.World, tid: nat, call: Call)
    requires Reachable(w) && Shape(w) && tid !in w.phase && Owns(w, tid, Lead(call)) && Owns(w, tid, Second(call))
    ensures Reachable(Unlocked(w, tid, call))
  {
    ReachableStep(w, Step.Unlock(tid, Lead(call)));
    if Second(call) != Lead(call) {
      ReachableStep(Apply(w, Step.Unlock(tid, Lead(call))), Step.Unlock(tid, Second(call)));
    }
  }

  lemma SettlingReachable(c: Client.World, tid: nat, call: Call, reply: Reply)
    requires Reachable(c.w) && Shape(c.w) && !reply.Found?
    ensures Reachable(Settling(c, tid, call, reply).w)
  {
    var d := Lead(call);
    ReachableStep(c.w, InvalVnode(d.view, d.vfs, d.dfid));
  }

  lemma RecheckedReachable(c: Client.World, tid: nat, st: Stage, r: Option<Req>)
    requires Reachable(c.w) && Shape(c.w) && st.Window? && st.call.Lookup?
    requires Lead(st.call) !in c.w.locks && tid !in c.w.phase
    requires r.Some? ==> Fits(c.w, r.value, st.call.key, st.fid)
    ensures Reachable(Rechecked(c, tid, st, r).w)
  {
    LockedReachable(c.w, tid, st.call);
    LockEffect(c.w, tid, st.call);
    if r.Some? { ReachableStep(Locked(c.w, tid, st.call), Add(tid, r.value)); }
  }

  lemma ActReachable(c: Client.World, a: Act)
    requires Reachable(c.w) && Shape(c.w) && CanDo(c, a)
    ensures Reachable(Do(c, a).w)
  {
    match a
    case Begin(tid, call) => LockedReachable(c.w, tid, call);
    case Drop(tid) => ReachableStep(c.w, Step.Remove(tid, c.stage[tid].todo[0]));
    case Settle(tid) => SettlingReachable(c, tid, c.stage[tid].call, c.stage[tid].reply);
    case Enter(tid, r) => if r.Some? { ReachableStep(c.w, Add(tid, r.value)); }
    case Open(tid) => UnlockedReachable(c.w, tid, c.stage[tid].call);
    case Recheck(tid, r) => RecheckedReachable(c, tid, c.stage[tid], r);
    case End(tid) => UnlockedReachable(c.w, tid, c.stage[tid].call);
    case Cache(s) => ReachableStep(c.w, s);
    case _ =>
  }

  // ---- Every run ----

  lemma {:induction false} PlayInv(cs: seq<Client.World>, acts: seq<Act>, n: nat)
    requires Play(cs, acts) && n <= |acts|
    ensures Reachable(cs[n].w) && CInv(cs[n]) && Agree(cs[n])
  {
    if n == 0 {
      ReachableStart(cs[0].w.t.geo, cs[0].w.target);
    } else {
      var c, a := cs[n - 1], acts[n - 1];
      PlayInv(cs, acts, n - 1);
      assert Moves(c, a, cs[n]);
      ActReachable(c, a);
      ActInv(c, a);
      ActAgree(c, a);
    }
  }

  // ---- Invalidations of not-found entries ----

  /** A step of the cache that wrongly skips the invalidation of not-found entries. */
  ghost predicate SkipsAct(c: Client.World, a: Act) { a.Cache? && Skips(c.w, a.step) }

  lemma ActExact(c: Client.World, a: Act)
    requires Shape(c.w) && CanDo(c, a)
    ensures Do(c, a).w.exact <==> c.w.exact && !SkipsAct(c, a)
  {
    match a
    case Drop(tid) => ExactStep(c.w, Step.Remove(tid, c.stage[tid].todo[0]));
    case Settle(tid) => SettlingExact(c, tid, c.stage[tid].call, c.stage[tid].reply);
    case Enter(tid, r) => if r.Some? { ExactStep(c.w, Add(tid, r.value)); }
    case Recheck(tid, r) => RecheckedExact(c, tid, c.stage[tid], r);
    case Cache(s) => ExactStep(c.w, s);
    case _ =>
  }

  lemma SettlingExact(c: Client.World, tid: nat, call: Call, reply: Reply)
    requires Shape(c.w) && !reply.Found?
    ensures Settling(c, tid, call, reply).w.exact == c.w.exact
  {
    ExactStep(c.w, InvalVnode(Lead(call).view, Lead(call).vfs, Lead(call).dfid));
  }

  lemma RecheckedExact(c: Client.World, tid: nat, st: Stage, r: Option<Req>)
    requires Shape(c.w) && st.Window? && st.call.Lookup? && Lead(st.call) !in c.w.locks && tid !in c.w.phase
    requires r.Some? ==> Fits(c.w, r.value, st.call.key, st.fid)
    ensures Rechecked(c, tid, st, r).w.exact == c.w.exact
  {
    LockEffect(c.w, tid, st.call);
    if r.Some? { ExactStep(Locked(c.w, tid, st.call), Add(tid, r.value)); }
  }

  lemma {:induction false} PlayExact(cs: seq<Client.World>, acts: seq<Act>, n: nat)
    requires Play(cs, acts) && n <= |acts| && forall m :: 0 <= m < n ==> !SkipsAct(cs[m], acts[m])
    ensures cs[n].w.exact
  {
    if n > 0 {
      PlayExact(cs, acts, n - 1);
      assert Moves(cs[n - 1], acts[n - 1], cs[n]);
      ActExact(cs[n - 1], acts[n - 1]);
    }
  }

  /** What the cache answers, unless such an invalidation was wrongly skipped, is what was last added. */
  lemma ServedIsCached(cs: seq<Client.World>, acts: seq<Act>, n: nat, k: Key, who: Who, i: nat)
    requires Play(cs, acts) && n <= |acts| && k.name != DOT && Answers(cs, acts, n, k, who, i)
    ensures k in cs[n].w.last && cs[n].w.last[k].fid == cs[n].w.t.slots[i].vfid
  {
    PlayInv(cs, acts, n);
    PlayExact(cs, acts, n);
    ReachableInv(cs[n].w);
    ServedAgrees(cs[n].w, k, who, i);
  }

  /** Slot i may answer for the key in state n of a run without a wrongly skipped invalidation before. */
  ghost predicate Answers(cs: seq<Client.World>, acts: seq<Act>, n: nat, k: Key, who: Who, i: nat)
    requires n <= |acts| < |cs|
  {
    cs[n].w.t.geo.hashSize > 0 && Served(cs[n].w.t, k, who, i) && forall m :: 0 <= m < n ==> !SkipsAct(cs[m], acts[m])
  }

  /**
    Bounded staleness, with other clients changing directories and replies being
    lost: a name the cache answers is right in a version of the directory no older
    than the one whose attributes are cached.  In particular it is right now if the
    cached modification time is that of the directory.
   */
  lemma AnswersAreRecent(cs: seq<Client.World>, acts: seq<Act>, n: nat, k: Key, who: Who, i: nat)
    requires Play(cs, acts) && n <= |acts| && k.name != DOT && k !in cs[n].broken
    requires Answers(cs, acts, n, k, who, i)
    requires forall tid :: !Midway(cs[n], tid, k)
    ensures FreshAt(cs[n], k, cs[n].w.t.slots[i].vfid)
    ensures cs[n].hist(DirOf(k)) != []
    ensures cs[n].attr(DirOf(k)).mtime == Now(cs[n], DirOf(k)).mtime ==> True(cs[n], k, cs[n].w.t.slots[i].vfid)
  {
    var c := cs[n];
    PlayInv(cs, acts, n);
    ServedIsCached(cs, acts, n, k, who, i);
    assert DirOk(c, DirOf(k));
    var v :| c.attr(DirOf(k)).base <= v && SaysAt(c, k, c.w.t.slots[i].vfid, v);
  }

  /** Agreement: a name not changed behind the cache's back is answered as the directory has it now. */
  lemma AnswersAgree(cs: seq<Client.World>, acts: seq<Act>, n: nat, k: Key, who: Who, i: nat)
    requires Play(cs, acts) && n <= |acts| && k.name != DOT && k !in cs[n].tainted
    requires Answers(cs, acts, n, k, who, i)
    requires forall tid :: !InFlight(cs[n], tid, k)
    ensures True(cs[n], k, cs[n].w.t.slots[i].vfid)
  {
    PlayInv(cs, acts, n);
    ServedIsCached(cs, acts, n, k, who, i);
  }

  /** The names of a directory that a version changes. */
  ghost function ChangedIn(c: Client.World, d: Dir, v: Version): iset<Key> {
    iset k | DirOf(k) == d && c.hist(d) != [] && !SameAt(Now(c, d), v, k.name)
  }

  /**
    The names whose listing a step changes without the cache being told: those that
    another client changes, those of a call whose reply is lost, the way up from a
    directory that a rename moves to another parent, and a cached name for whose new
    object no vnode can be made.
   */
  ghost function Unseen(c: Client.World, a: Act): iset<Key>
    requires CanDo(c, a)
  {
    match a
    case Foreign(d, v) => ChangedIn(c, d, v)
    case Rpc(tid, out) => UnseenCall(c, c.stage[tid].call, out)
    case Enter(tid, r) =>
      iset k | r.None? && c.stage[tid].call.Make? && k == c.stage[tid].call.key && k in c.w.last
    case _ => iset{}
  }

  ghost function UnseenCall(c: Client.World, call: Call, out: Outcome): iset<Key>
    requires RpcOk(c, call, out)
  {
    (if out.Lose? then iset k | Touches(call, k) else iset{}) +
    if (out.Lose? || out.Grant?) && out.moved.Some? then ChangedIn(c, Child(call, out.fid), out.moved.value) else iset{}
  }

  /** Nothing else can leave the cache wrong about a name. */
  lemma OnlyTheseTaint(c: Client.World, a: Act)
    requires CInv(c) && Shape(c.w) && CanDo(c, a)
    ensures Do(c, a).tainted <= c.tainted + Unseen(c, a) && Do(c, a).broken <= c.broken + Unseen(c, a)
  {
    match a
    case Rpc(tid, out) => CalledTaints(c, tid, c.stage[tid].call, out);
    case Enter(tid, r) => EnteredTaints(c, tid, c.stage[tid], r);
    case _ =>
  }

  lemma CalledTaints(c: Client.World, tid: nat, call: Call, out: Outcome)
    requires RpcOk(c, call, out)
    ensures Called(c, tid, call, out).tainted <= c.tainted + UnseenCall(c, call, out)
    ensures Called(c, tid, call, out).broken == c.broken
  {
    if (out.Lose? || out.Grant?) && out.moved.Some? {
      var d := Child(call, out.fid);
      assert Answered(c, tid, call, out).hist(d) == c.hist(d);
    }
  }

  /**
    A symlink's name was dropped before the call, so failing to make its vnode harms nothing; a
    lookup changes nothing.
   */
  lemma EnteredTaints(c: Client.World, tid: nat, st: Stage, r: Option<Req>)
    requires CInv(c) && Shape(c.w) && CanDo(c, Enter(tid, r)) && c.stage[tid] == st
    ensures Entered(c, tid, st.call, r).tainted <= c.tainted + Unseen(c, Enter(tid, r))
    ensures Entered(c, tid, st.call, r).broken <= c.broken + Unseen(c, Enter(tid, r))
  {
    if r.None? && !st.call.Make? { FailedEntryKeeps(c, tid, st); }
  }

  lemma FailedEntryKeeps(c: Client.World, tid: nat, st: Stage)
    requires CInv(c) && Shape(c.w) && tid in c.stage && c.stage[tid] == st
    requires Entering(st) && !st.call.Make? && !st.call.Link?
    ensures Entered(c, tid, st.call, None).tainted == c.tainted && Entered(c, tid, st.call, None).broken == c.broken
  {
    if st.call.Symlink? { assert Both(st.call.key)[0] == st.call.key && GivenUp(st, st.call.key); }
  }

  /** A name that no step has changed unseen needs no excuse. */
  lemma {:induction false} UndisturbedRun(cs: seq<Client.World>, acts: seq<Act>, n: nat, k: Key)
    requires Play(cs, acts) && n <= |acts| && Undisturbed(cs, acts, 0, n, k)
    ensures k !in cs[n].tainted && k !in cs[n].broken
  {
    if n > 0 {
      UndisturbedRun(cs, acts, n - 1, k);
      PlayInv(cs, acts, n - 1);
      assert Moves(cs[n - 1], acts[n - 1], cs[n]);
      OnlyTheseTaint(cs[n - 1], acts[n - 1]);
    }
  }

  /** From state m to state n no step changes the name unseen. */
  ghost predicate Undisturbed(cs: seq<Client.World>, acts: seq<Act>, m: nat, n: nat, k: Key)
    requires n <= |acts| < |cs|
  {
    forall j :: m <= j < n && CanDo(cs[j], acts[j]) ==> k !in Unseen(cs[j], acts[j])
  }

  /**
    So every answer of the cache for it is right at every moment no call is in flight on
    it: a found entry names the current object, a not-found entry an absent name.
   */
  lemma UndisturbedAnswers(cs: seq<Client.World>, acts: seq<Act>, n: nat, k: Key, who: Who, i: nat)
    requires Play(cs, acts) && n <= |acts| && k.name != DOT && Answers(cs, acts, n, k, who, i)
    requires Undisturbed(cs, acts, 0, n, k) && forall tid :: !InFlight(cs[n], tid, k)
    ensures True(cs[n], k, cs[n].w.t.slots[i].vfid)
  {
    UndisturbedRun(cs, acts, n, k);
    AnswersAgree(cs, acts, n, k, who, i);
  }

  /** The locks the name cache insists on are held whenever a call is due to use it. */
  lemma LocksHeld(cs: seq<Client.World>, acts: seq<Act>, n: nat, tid: nat)
    requires Play(cs, acts) && n <= |acts| && Idle(cs[n], tid)
    ensures cs[n].stage[tid].Begun? && cs[n].stage[tid].todo != [] ==> CanDo(cs[n], Drop(tid))
    ensures cs[n].stage[tid].Ending? ==> CanDo(cs[n], End(tid))
    ensures forall r ::
              Entering(cs[n].stage[tid]) &&
              Fits(cs[n].w, r, Target(cs[n].stage[tid].call), Fetched(cs[n].stage[tid])) ==>
                CanDo(cs[n], Enter(tid, Some(r)))
  {
    PlayInv(cs, acts, n);
    HeldBy(cs[n], tid, cs[n].stage[tid]);
  }

  lemma HeldBy(c: Client.World, tid: nat, st: Stage)
    requires OwnersOk(c) && StagesOk(c) && tid in c.stage && tid !in c.w.phase && c.stage[tid] == st
    ensures st.Begun? && st.todo != [] ==> Enabled(c.w, Step.Remove(tid, st.todo[0]))
    ensures st.Ending? ==> Owns(c.w, tid, Lead(st.call)) && Owns(c.w, tid, Second(st.call))
    ensures forall r :: Entering(st) && Fits(c.w, r, Target(st.call), Fetched(st)) ==> Enabled(c.w, Add(tid, r))
  {
    assert OwnerOk(c, tid, st) && StageOk(c, st);
    if st.Begun? && st.todo != [] {
      assert st.todo[0] in st.todo;
      TodoInDir(st.call, st.todo[0], c, tid);
    }
  }

  // ---- A create whose vnode cannot be made ----

  /**
    The server made the object, but the vnode could not be made, so nothing is
    entered.  The cache is then wrong about the name if and only if it held another
    translation of it (in practice "not found") and the change was expected, so that
    the directory's names were not dropped.  The cached time is the directory's own:
    fetching attributes again will not repair it.
   */
  lemma FailedMakeIsStale(c: Client.World, tid: nat, k: Key, reply: Reply)
    requires CInv(c) && Shape(c.w) && tid in c.stage && c.stage[tid] == Replied(Make(k), reply)
    requires c.hist(DirOf(k)) != []
    requires reply.Changed? && reply.at == |c.hist(DirOf(k))| - 1 && !reply.fid.IsNull()
    ensures Shape(Settling(c, tid, Make(k), reply).w)
    ensures var c' := Entered(Settling(c, tid, Make(k), reply), tid, Make(k), None);
            ((k in c'.w.last && !True(c', k, c'.w.last[k].fid)) <==>
             reply.expected && k in c.w.last && c.w.last[k].fid != reply.fid) &&
            c'.attr(DirOf(k)).mtime == Now(c', DirOf(k)).mtime
  {
    var d := DirOf(k);
    var c1 := Settling(c, tid, Make(k), reply);
    assert OwnerOk(c, tid, c.stage[tid]) && StageOk(c, c.stage[tid]) && DirOk(c, d);
    RefreshedMoves(c.(attr := Doubted(c.attr, Make(k))), c1, d, reply.at, reply.mtime, reply.expected);
    if reply.expected { assert c1.w == c.w; } else { assert k !in c1.w.last; }
  }
}
