/**
  Looking up the way out of a directory, and moving the directory meanwhile.

  The directory is unlocked while the vnode of its parent is made.  A rename that moves
  the directory itself locks the two parents only, so the test made on locking it again
  does not see the move; and an entry for ".." that is cached stays.
 */
module ClientUpward {
  import opened BuildHandles
  import opened Client
  import opened ClientAgreement
  import opened ClientCache
  import opened ClientProofs
  import opened ClientTheorems
  import opened DncRun
  import opened DncTable
  import opened DncTheorems
  import opened NameHash

  // ---- One lookup, from its reply on ----

  /** The thread has an answer for the key, and has not entered it yet. */
  predicate AskingStage(st: Stage, k: Key) {
    st.call == Lookup(k) && ((st.Replied? && st.reply.Found?) || st.Window?)
  }

  function Answer(st: Stage): Fid
    requires st.Window? || (st.Replied? && st.reply.Found?)
  {
    if st.Window? then st.fid else st.reply.fid
  }

  ghost predicate Asking(c: Client.World, tid: nat, k: Key) { tid in c.stage && AskingStage(c.stage[tid], k) }

  /** All names but one are excused. */
  ghost function Only(c: Client.World, k: Key): Client.World { c.(tainted := iset j: Key | Differs(j, k)) }

  predicate Differs(j: Key, k: Key) { j != k }

  /** What the stages say of one key is true, other open windows aside. */
  ghost predicate Tracked(c: Client.World, tid: nat, k: Key) {
    Asking(c, tid, k) && forall t :: TrackedAt(c, tid, k, t)
  }

  ghost predicate TrackedAt(c: Client.World, tid: nat, k: Key, t: nat) {
    t in c.stage && (t == tid || !c.stage[t].Window?) ==> StageTrue(Only(c, k), c.stage[t])
  }

  /** Excuses do not matter to what the invariant says. */
  lemma OnlyServer(c: Client.World, k: Key)
    requires ServerOk(c)
    ensures ServerOk(Only(c, k))
  {
    forall d ensures DirOk(Only(c, k), d) { assert DirOk(c, d); }
  }

  lemma OnlyOwners(c: Client.World, k: Key)
    requires OwnersOk(c)
    ensures OwnersOk(Only(c, k))
  {
    forall t | t in c.stage ensures OwnerOk(Only(c, k), t, c.stage[t]) { assert OwnerOk(c, t, c.stage[t]); }
  }

  lemma OnlyStages(c: Client.World, k: Key)
    requires StagesOk(c)
    ensures StagesOk(Only(c, k))
  {
    forall t | t in c.stage ensures StageOk(Only(c, k), c.stage[t]) { StageMono(c, Only(c, k), c.stage[t]); }
  }

  /** With the reply in, the answer is true, and no other thread holds the directory. */
  lemma StartsTracked(c: Client.World, tid: nat, k: Key, fid: Fid)
    requires CInv(c) && CanDo(c, Rpc(tid, Read(fid))) && c.stage[tid].call == Lookup(k)
    ensures Tracked(Called(c, tid, Lookup(k), Read(fid)), tid, k)
  {
    var c' := Called(c, tid, Lookup(k), Read(fid));
    forall t ensures TrackedAt(c', tid, k, t) {
      if t in c.stage && t != tid && !c.stage[t].Window? {
        if InDir(c.stage[t].call, DirOf(k)) { OneHolder(c, t, tid, DirOf(k)); }
        assert DirOk(c, Lead(c.stage[t].call));
        OtherDirs(c', c.stage[t], k);
      }
    }
  }

  /** Of the names of another directory all are excused. */
  lemma OtherDirs(c: Client.World, st: Stage, k: Key)
    requires !st.Window? && Lead(st.call) != DirOf(k) && StageShape(c, st)
    ensures StageTrue(Only(c, k), st)
  {
  }

  ghost predicate StageShape(c: Client.World, st: Stage) {
    match st
    case Replied(call, reply) =>
      (match reply
       case Failed => true
       case Found(_, _) => call.Lookup?
       case Changed(_, at, _, _) => at < |c.hist(Lead(call))|
       case Stat(at, _) => at < |c.hist(Lead(call))|)
    case Settled(call, _) => !call.GetAttr?
    case Window(call, _, _, _) => call.Lookup?
    case _ => true
  }

  // ---- Steps that change no listing ----

  /** A step of one thread that changes neither listings nor attributes. */
  lemma StillTracked(c: Client.World, c': Client.World, a: nat, tid: nat, k: Key)
    requires Tracked(c, tid, k) && Asking(c', tid, k) && c'.hist == c.hist && c'.attr == c.attr
    requires Restaged(c, c', a) && !Unsettled(c, a)
    requires a in c'.stage && (a == tid || !c'.stage[a].Window?) ==> StageTrue(Only(c', k), c'.stage[a])
    ensures Tracked(c', tid, k)
  {
    forall t ensures TrackedAt(c', tid, k, t) {
      assert TrackedAt(c, tid, k, t);
      if t != a && t in c'.stage && (t == tid || !c'.stage[t].Window?) {
        OtherStageTrue(Only(c, k), Only(c', k), a, c.stage[t]);
      }
    }
  }

  lemma CacheTracked(c: Client.World, c': Client.World, tid: nat, k: Key)
    requires Tracked(c, tid, k) && c' == c.(w := c'.w)
    ensures Tracked(c', tid, k)
  {
    forall t ensures TrackedAt(c', tid, k, t) {
      assert TrackedAt(c, tid, k, t);
      if t in c.stage && (t == tid || !c.stage[t].Window?) { SameStageTrue(Only(c, k), Only(c', k), c.stage[t]); }
    }
  }

  // ---- Changes ----

  /** A change of some directory that leaves the name alone. */
  lemma ElsewhereTracked(c: Client.World, tid: nat, k: Key, d: Dir, v: Version)
    requires ServerOk(c) && Tracked(c, tid, k) && c.hist(d) != [] && (DirOf(k) == d ==> SameAt(Now(c, d), v, k.name))
    ensures Tracked(Elsewhere(c, d, v), tid, k)
  {
    var c' := Elsewhere(c, d, v);
    forall t ensures TrackedAt(c', tid, k, t) {
      assert TrackedAt(c, tid, k, t) && DirOk(c, d);
      if t in c.stage && (t == tid || !c.stage[t].Window?) {
        OnlyServer(c, k);
        ForeignStage(Only(c, k), Only(c', k), d, v, c.stage[t]);
      }
    }
  }

  /** A call by another thread that changes listings: the caller knows, or the name is not one it touches. */
  lemma MadeTracked(c: Client.World, c': Client.World, a: nat, tid: nat, k: Key, call: Call, reply: Reply)
    requires OwnersOk(c) && Tracked(c, tid, k) && a in c.stage && c.stage[a] == Begun(call, [])
    requires c' == c.(hist := c'.hist, stage := c.stage[a := Replied(call, reply)], tainted := c'.tainted)
    requires Changes(c, c', call) && (reply.Failed? ==> !Touches(call, k))
    requires reply.Failed? || (reply.Changed? && reply.at == |c'.hist(Lead(call))| - 1)
    ensures Tracked(c', tid, k)
  {
    forall t ensures TrackedAt(c', tid, k, t) {
      assert TrackedAt(c, tid, k, t);
      if t != a && t in c.stage && (t == tid || !c.stage[t].Window?) {
        assert StageTrue(Only(c', k), c.stage[t]) by { MadeOther(c, c', a, t, k, call, reply); }
      }
    }
  }

  lemma MadeOther(c: Client.World, c': Client.World, a: nat, t: nat, k: Key, call: Call, reply: Reply)
    requires OwnersOk(c) && a in c.stage && c.stage[a] == Begun(call, []) && t in c.stage && t != a
    requires c' == c.(hist := c'.hist, stage := c.stage[a := Replied(call, reply)], tainted := c'.tainted)
    requires Changes(c, c', call) && (reply.Failed? ==> !Touches(call, k)) && (reply.Failed? || reply.Changed?)
    requires StageTrue(Only(c, k), c.stage[t])
    ensures StageTrue(Only(c', k), c.stage[t])
  {
    OnlyOwners(c, k);
    assert Changes(Only(c, k), Only(c', k), call);
    StageThroughChange(Only(c, k), Only(c', k), a, t, call);
  }

  lemma AnsweredTracked(c: Client.World, a: nat, tid: nat, k: Key, call: Call, out: Outcome)
    requires ServerOk(c) && OwnersOk(c) && Tracked(c, tid, k) && a in c.stage && c.stage[a] == Begun(call, [])
    requires RpcOk(c, call, out)
    requires out.Lose? ==> !Touches(call, k)
    ensures Tracked(Answered(c, a, call, out), tid, k)
  {
    var c' := Answered(c, a, call, out);
    assert OwnerOk(c, a, c.stage[a]) && DirOk(c, Lead(call));
    match out
    case Refuse => StillTracked(c, c', a, tid, k);
    case Read(fid) => StillTracked(c, c', a, tid, k);
    case Lose(fid, times, _) =>
      ServeChanges(c, c', call, fid, times);
      MadeTracked(c, c', a, tid, k, call, Failed);
    case Grant(fid, times, expected, _) =>
      ServeChanges(c, c', call, fid, times);
      assert InDir(call, Lead(call));
      MadeTracked(c, c', a, tid, k, call, c'.stage[a].reply);
  }

  lemma CalledTracked(c: Client.World, a: nat, tid: nat, k: Key, call: Call, out: Outcome)
    requires CInv(c) && Tracked(c, tid, k) && a in c.stage && c.stage[a] == Begun(call, []) && RpcOk(c, call, out)
    requires a !in c.w.phase && k !in UnseenCall(c, call, out)
    ensures Tracked(Called(c, a, call, out), tid, k)
  {
    AnsweredTracked(c, a, tid, k, call, out);
    if (out.Lose? || out.Grant?) && out.moved.Some? {
      AnsweredInv(c, a, call, out);
      ElsewhereTracked(Answered(c, a, call, out), tid, k, Child(call, out.fid), out.moved.value);
    }
  }

  // ---- New attributes ----

  lemma FailedTracked(c: Client.World, c': Client.World, a: nat, tid: nat, k: Key, call: Call)
    requires Tracked(c, tid, k) && a in c.stage && c.stage[a] == Replied(call, Failed)
    requires c' == c.(attr := Doubted(c.attr, call), stage := c.stage[a := Ending(call)])
    ensures Tracked(c', tid, k)
  {
    forall t ensures TrackedAt(c', tid, k, t) {
      assert TrackedAt(c, tid, k, t);
      if t == tid && c.stage[t].Window? && Busy(Only(c, k), Lead(c.stage[t].call)) {
        var u :| Unsettled(Only(c, k), u) && InDir(c.stage[u].call, Lead(c.stage[t].call));
        assert Unsettled(Only(c', k), u);
      }
    }
  }

  lemma MovedTracked(c: Client.World, c': Client.World, a: nat, tid: nat, k: Key, call: Call, reply: Reply)
    requires StagesOk(c) && ServerOk(c) && OrderOk(c) && Tracked(c, tid, k)
    requires a in c.stage && c.stage[a] == Replied(call, reply)
    requires reply.Changed? || reply.Stat?
    requires c'.hist == c.hist && a in c'.stage && Restaged(c, c', a)
    requires c'.stage[a] == if reply.Changed? && Adds(call) then Settled(call, reply.fid) else Ending(call)
    requires forall d :: d != Lead(call) ==> c'.attr(d) == Doubted(c.attr, call)(d)
    requires c'.attr(Lead(call)).mtime == reply.mtime
    ensures Tracked(c', tid, k)
  {
    assert TrackedAt(c, tid, k, a);
    forall t ensures TrackedAt(c', tid, k, t) {
      assert TrackedAt(c, tid, k, t);
      if t == a && t in c'.stage {
        assert StageTrue(Only(c', k), c'.stage[a]) by { MovedSelf(c, c', k, a, call, reply); }
      } else if t == tid && c.stage[t].Window? {
        assert StageTrue(Only(c', k), c'.stage[t]) by { MovedWindow(c, c', a, t, k, call, reply); }
      }
    }
  }

  lemma MovedSelf(c: Client.World, c': Client.World, k: Key, a: nat, call: Call, reply: Reply)
    requires StagesOk(c) && a in c.stage && c.stage[a] == Replied(call, reply) && StageTrue(Only(c, k), c.stage[a])
    requires reply.Changed? || reply.Stat?
    requires c'.hist == c.hist && a in c'.stage
    requires c'.stage[a] == if reply.Changed? && Adds(call) then Settled(call, reply.fid) else Ending(call)
    ensures StageTrue(Only(c', k), c'.stage[a])
  {
    assert StageOk(c, c.stage[a]);
  }

  lemma MovedWindow(c: Client.World, c': Client.World, a: nat, t: nat, k: Key, call: Call, reply: Reply)
    requires StagesOk(c) && ServerOk(c) && OrderOk(c) && a in c.stage && c.stage[a] == Replied(call, reply)
    requires t in c.stage && c.stage[t].Window? && (reply.Changed? || reply.Stat?)
    requires StageTrue(Only(c, k), c.stage[t]) && StageTrue(Only(c, k), c.stage[a])
    requires c'.hist == c.hist && Restaged(c, c', a)
    requires forall d :: d != Lead(call) ==> c'.attr(d) == Doubted(c.attr, call)(d)
    requires c'.attr(Lead(call)).mtime == reply.mtime
    ensures StageTrue(Only(c', k), c.stage[t])
  {
    OnlyStages(c, k);
    OnlyServer(c, k);
    WindowThroughMove(Only(c, k), Only(c', k), a, t, call, reply);
  }

  lemma SettlingTracked(c: Client.World, a: nat, tid: nat, k: Key, call: Call, reply: Reply)
    requires CInv(c) && OrderOk(c) && Shape(c.w) && Tracked(c, tid, k)
    requires a in c.stage && c.stage[a] == Replied(call, reply) && !reply.Found?
    ensures Tracked(Settling(c, a, call, reply), tid, k)
  {
    var c' := Settling(c, a, call, reply);
    if reply.Failed? {
      FailedTracked(c, c', a, tid, k, call);
    } else {
      MovedTracked(c, c', a, tid, k, call, reply);
    }
  }

  // ---- Every step ----

  lemma ActTracked(c: Client.World, a: Act, tid: nat, k: Key)
    requires CInv(c) && OrderOk(c) && Shape(c.w) && CanDo(c, a) && Tracked(c, tid, k)
    requires k !in Unseen(c, a) && Asking(Do(c, a), tid, k)
    ensures Tracked(Do(c, a), tid, k)
  {
    match a
    case Rpc(t, out) => CalledTracked(c, t, tid, k, c.stage[t].call, out);
    case Settle(t) => SettlingTracked(c, t, tid, k, c.stage[t].call, c.stage[t].reply);
    case Foreign(d, v) => ElsewhereTracked(c, tid, k, d, v);
    case Cache(s) => CacheTracked(c, Do(c, a), tid, k);
    case Open(t) => OpenTracked(c, a, tid, k);
    case _ => OwnTracked(c, a, tid, k);
  }

  lemma OpenTracked(c: Client.World, a: Act, tid: nat, k: Key)
    requires Shape(c.w) && CanDo(c, a) && Tracked(c, tid, k) && Asking(Do(c, a), tid, k) && a.Open?
    ensures Tracked(Do(c, a), tid, k)
  {
    assert TrackedAt(c, tid, k, a.tid);
    StillTracked(c, Do(c, a), a.tid, tid, k);
  }

  /** Steps of a call that leave its thread with nothing to be true about. */
  lemma OwnTracked(c: Client.World, a: Act, tid: nat, k: Key)
    requires Shape(c.w) && CanDo(c, a) && Tracked(c, tid, k) && Asking(Do(c, a), tid, k)
    requires a.Begin? || a.Drop? || a.Enter? || a.Recheck? || a.End?
    ensures Tracked(Do(c, a), tid, k)
  {
    var c' := Do(c, a);
    assert c'.hist == c.hist && c'.attr == c.attr && Restaged(c, c', a.tid) && !Unsettled(c, a.tid);
    assert a.tid in c'.stage ==> c'.stage[a.tid].Begun? || c'.stage[a.tid].Ending?;
    StillTracked(c, c', a.tid, tid, k);
  }

  // ---- Runs ----

  /** Thread tid gets an answer for the key in step m, and has it still, unentered, in state n. */
  ghost predicate AsksFrom(cs: seq<Client.World>, acts: seq<Act>, m: nat, n: nat, tid: nat, k: Key, fid: Fid)
    requires n <= |acts| < |cs|
  {
    m < n && acts[m] == Rpc(tid, Read(fid)) && tid in cs[m].stage && cs[m].stage[tid].call == Lookup(k) &&
    forall j :: m < j <= n ==> Asking(cs[j], tid, k) && Answer(cs[j].stage[tid]) == fid
  }

  lemma {:induction false} StaysTracked(cs: seq<Client.World>, acts: seq<Act>, m: nat, n: nat, tid: nat, k: Key,
                                        fid: Fid)
    requires Play(cs, acts) && n <= |acts| && AsksFrom(cs, acts, m, n, tid, k, fid)
    requires Undisturbed(cs, acts, m + 1, n, k)
    ensures Tracked(cs[n], tid, k)
    decreases n
  {
    var c, a := cs[n - 1], acts[n - 1];
    PlayInv(cs, acts, n - 1);
    assert Moves(c, a, cs[n]);
    if n == m + 1 {
      StartsTracked(c, tid, k, fid);
    } else {
      assert Asking(cs[n], tid, k);
      StaysTracked(cs, acts, m, n - 1, tid, k, fid);
      ActTracked(c, a, tid, k);
    }
  }

  /**
    ".." is entered, after its directory was unlocked, only with its current object,
    whatever local operations and other clients did meanwhile, unless since the reply
    the way up was changed unseen: by another client, by a call whose reply was lost, or
    by a rename of the directory itself to another parent.
   */
  lemma UpwardEntersTruth(cs: seq<Client.World>, acts: seq<Act>, m: nat, n: nat, tid: nat, r: Req, fid: Fid)
    requires Play(cs, acts) && n < |acts| && acts[n] == Recheck(tid, Some(r)) && CanDo(cs[n], acts[n])
    requires AsksFrom(cs, acts, m, n, tid, r.key, fid) && Undisturbed(cs, acts, m + 1, n, r.key)
    requires StillGood(cs[n].attr(DirOf(r.key)), cs[n].stage[tid].mtime)
    ensures True(cs[n], r.key, r.fid)
  {
    PlayInv(cs, acts, n);
    assert Moves(cs[n], acts[n], cs[n + 1]);
    StaysTracked(cs, acts, m, n, tid, r.key, fid);
    assert TrackedAt(cs[n], tid, r.key, tid);
    OnlyOwners(cs[n], r.key);
    RecheckTrue(Only(cs[n], r.key), cs[n].stage[tid]);
  }

  // ---- Moving the directory ----

  /** The cache has a wrong translation of the name, or some thread is adding one. */
  ghost predicate WrongAbout(c: Client.World, k: Key) {
    (k in c.w.last && !True(c, k, c.w.last[k].fid)) ||
    exists t, r :: Pends(c.w, t, r) && r.key == k && !True(c, k, r.fid)
  }

  /** The cache has a translation of the name to another object, or some thread is adding one. */
  ghost predicate HasOther(c: Client.World, k: Key, fid: Fid) {
    (k in c.w.last && c.w.last[k].fid != fid) || exists t, r :: Pends(c.w, t, r) && r.key == k && r.fid != fid
  }

  function UpFrom(d: Dir): Key { Key(d.view, d.vfs, d.dfid, DOTDOT) }

  /** The step is a rename that moves directory d to the given parent, whether or not the reply arrives. */
  ghost predicate MovesDir(c: Client.World, a: Act, d: Dir, parent: Fid) {
    CanDo(c, a) && a.Rpc? && (a.out.Lose? || a.out.Grant?) && a.out.moved.Some? && c.stage[a.tid].call.Rename? &&
    d == Child(c.stage[a.tid].call, a.out.fid) && parent == c.stage[a.tid].call.to.dfid
  }

  lemma MovedNow(c: Client.World, a: Act, d: Dir, parent: Fid)
    requires CInv(c) && Shape(c.w) && MovesDir(c, a, d, parent)
    ensures c.hist(d) != [] && Do(c, a).hist(d) == c.hist(d) + [a.out.moved.value] && Do(c, a).w == c.w
    ensures !d.root && Reparents(Now(c, d), Now(Do(c, a), d), parent)
    ensures forall fid :: True(Do(c, a), UpFrom(d), fid) <==> fid == parent
  {
    assert Answered(c, a.tid, c.stage[a.tid].call, a.out).hist(d) == c.hist(d);
    assert UpFrom(d).name != DOT && DirOf(UpFrom(d)) == d;
  }

  /**
    A rename that moves a directory leaves the cache wrong about its ".." if and only if
    the cache has, or is about to have, another parent than the new one for it.
   */
  lemma MoveWrongs(c: Client.World, a: Act, d: Dir, parent: Fid)
    requires CInv(c) && Shape(c.w) && MovesDir(c, a, d, parent)
    ensures WrongAbout(Do(c, a), UpFrom(d)) <==> HasOther(c, UpFrom(d), parent)
  {
    MovedNow(c, a, d, parent);
  }

  /**
    So, if the cache was right about "..", which led to the directory the rename takes
    the name from, it is wrong afterwards if and only if it had a translation of ".."
    at all: the attributes of the moved directory and its names are not touched.
   */
  lemma MoveWrongsCached(c: Client.World, a: Act, d: Dir, parent: Fid)
    requires CInv(c) && Shape(c.w) && MovesDir(c, a, d, parent) && !WrongAbout(c, UpFrom(d))
    requires c.hist(d) != [] && Says(Now(c, d), DOTDOT, c.stage[a.tid].call.from.dfid)
    requires DOTDOT in Now(c, d).names
    ensures WrongAbout(Do(c, a), UpFrom(d)) <==>
            UpFrom(d) in c.w.last || exists t, r :: Pends(c.w, t, r) && r.key == UpFrom(d)
    ensures Do(c, a).attr == c.attr && Do(c, a).w == c.w
  {
    var k, call := UpFrom(d), c.stage[a.tid].call;
    MoveWrongs(c, a, d, parent);
    assert OwnerOk(c, a.tid, c.stage[a.tid]);
    assert call.from.dfid != parent;
    if k in c.w.last { assert True(c, k, c.w.last[k].fid); }
    forall t, r | Pends(c.w, t, r) && r.key == k ensures r.fid != parent { assert True(c, k, r.fid); }
  }

  /** About every name that the rename neither touches nor leads up from the moved directory nothing changes. */
  lemma MoveLeavesOthers(c: Client.World, a: Act, d: Dir, parent: Fid, k: Key)
    requires CInv(c) && Shape(c.w) && MovesDir(c, a, d, parent) && k.name != DOT
    requires !Touches(c.stage[a.tid].call, k) && !(DirOf(k) == d && Upward(k))
    ensures WrongAbout(Do(c, a), k) <==> WrongAbout(c, k)
  {
    var call, c1, c' := c.stage[a.tid].call, Answered(c, a.tid, c.stage[a.tid].call, a.out), Do(c, a);
    MovedNow(c, a, d, parent);
    assert OwnerOk(c, a.tid, c.stage[a.tid]);
    ServeChanges(c, c1, call, a.out.fid, a.out.times);
    assert SameAt(Now(c, DirOf(k)), Now(c1, DirOf(k)), k.name);
    assert SameAt(Now(c, DirOf(k)), Now(c', DirOf(k)), k.name) && c.hist(DirOf(k)) != [] && c'.hist(DirOf(k)) != [];
    assert forall fid :: True(c', k, fid) <==> True(c, k, fid);
  }

  /** Entering the answer of an open lookup after the test leaves the cache wrong exactly if the answer is. */
  lemma RecheckWrongs(c: Client.World, tid: nat, r: Req)
    requires CInv(c) && Shape(c.w) && CanDo(c, Recheck(tid, Some(r)))
    ensures WrongAbout(Do(c, Recheck(tid, Some(r))), r.key) <==>
            if StillGood(c.attr(DirOf(r.key)), c.stage[tid].mtime) then !True(c, r.key, r.fid) else WrongAbout(c, r.key)
  {
    var st, c' := c.stage[tid], Do(c, Recheck(tid, Some(r)));
    LockEffect(c.w, tid, st.call);
    assert OwnerOk(c, tid, st);
    forall fid ensures True(c', r.key, fid) <==> True(c, r.key, fid) { }
    if StillGood(c.attr(DirOf(r.key)), st.mtime) {
      RecheckAdds(c, tid, r);
    } else {
      assert forall t, q :: Pends(c'.w, t, q) <==> Pends(c.w, t, q);
    }
  }

  lemma RecheckAdds(c: Client.World, tid: nat, r: Req)
    requires CInv(c) && Shape(c.w) && CanDo(c, Recheck(tid, Some(r)))
    requires StillGood(c.attr(DirOf(r.key)), c.stage[tid].mtime) && r.key.name != DOT
    ensures var w' := Do(c, Recheck(tid, Some(r))).w;
            (if r.key in w'.last then w'.last[r.key].fid == r.fid else Pends(w', tid, r)) &&
            forall t, q :: Pends(w', t, q) && q.key == r.key ==> q == r
  {
    var w1 := Locked(c.w, tid, c.stage[tid].call);
    LockEffect(c.w, tid, c.stage[tid].call);
    AddEffect(w1, tid, r);
    NoPends(c, r.key);
    assert forall t, q :: Pends(w1, t, q) ==> Pends(c.w, t, q);
  }

  /** To a directory that is not locked no thread is adding. */
  lemma NoPends(c: Client.World, k: Key)
    requires PendsOk(c) && OwnersOk(c) && DirOf(k) !in c.w.locks && k.name != DOT
    ensures forall t, q :: Pends(c.w, t, q) ==> q.key != k
  {
    forall t, q | Pends(c.w, t, q) ensures q.key != k {
      if q.key.name != DOT { assert OwnerOk(c, t, c.stage[t]); }
    }
  }

  // ---- Runs ----

  /** The way up from a directory is not listed differently from state a to state b. */
  ghost predicate SameUp(cs: seq<Client.World>, k: Key, a: nat, b: nat)
    requires a <= b < |cs|
  {
    cs[a].hist(DirOf(k)) != [] &&
    forall j :: a <= j <= b ==> cs[j].hist(DirOf(k)) != [] && SameAt(Now(cs[a], DirOf(k)), Now(cs[j], DirOf(k)), k.name)
  }

  /**
    A lookup of ".." gets its answer in step m, in step p a rename moves the directory to
    another parent than that, and in step n the lookup's thread has locked the directory
    again; ".." is listed the same otherwise.  Then the cache is wrong about ".." after
    that if and only if the test is passed, or it was wrong before.
   */
  lemma MoveInWindow(cs: seq<Client.World>, acts: seq<Act>, m: nat, p: nat, n: nat, tid: nat, r: Req, d: Dir,
                     parent: Fid, fid: Fid)
    requires Play(cs, acts) && m < p < n < |acts| && r.key == UpFrom(d) && AsksFrom(cs, acts, m, n, tid, r.key, fid)
    requires MovesDir(cs[p], acts[p], d, parent) && parent != fid && SameUp(cs, r.key, p + 1, n)
    requires acts[n] == Recheck(tid, Some(r)) && CanDo(cs[n], acts[n])
    ensures WrongAbout(cs[n + 1], r.key) <==>
            StillGood(cs[n].attr(d), cs[n].stage[tid].mtime) || WrongAbout(cs[n], r.key)
  {
    PlayInv(cs, acts, p);
    assert Moves(cs[p], acts[p], cs[p + 1]);
    MovedNow(cs[p], acts[p], d, parent);
    PlayInv(cs, acts, n);
    assert Moves(cs[n], acts[n], cs[n + 1]);
    assert Asking(cs[n], tid, r.key) && Answer(cs[n].stage[tid]) == fid && r.fid == fid;
    assert !True(cs[n], r.key, fid);
    RecheckWrongs(cs[n], tid, r);
  }
}
