/**
  Agreement: a cached name whose listing did not change behind the cache's back is
  right in the current version of its directory.
 */
module ClientAgreement {
  import opened BuildHandles
  import opened Client
  import opened ClientCache
  import opened ClientProofs
  import opened DncRun
  import opened DncTable
  import opened DncTheorems
  import opened NameHash

  // ---- The invariant ----

  ghost predicate True(c: Client.World, k: Key, fid: Fid) {
    c.hist(DirOf(k)) != [] && Says(Now(c, DirOf(k)), k.name, fid)
  }

  /** The server has carried out a call that touches the name; the cache does not know yet. */
  ghost predicate InFlight(c: Client.World, tid: nat, k: Key) {
    tid in c.stage && Touches(c.stage[tid].call, k) && (Unsettled(c, tid) || c.stage[tid].Settled?)
  }

  ghost predicate Unsettled(c: Client.World, tid: nat) {
    tid in c.stage && c.stage[tid].Replied? && c.stage[tid].reply.Changed?
  }

  /** A change of the directory is not yet reflected in its attributes. */
  ghost predicate Busy(c: Client.World, d: Dir) {
    exists tid :: Unsettled(c, tid) && InDir(c.stage[tid].call, d)
  }

  ghost predicate CachedTrue(c: Client.World) {
    forall k :: k in c.w.last && k.name != DOT && k !in c.tainted && (forall tid :: !InFlight(c, tid, k)) ==>
        True(c, k, c.w.last[k].fid)
  }

  ghost predicate PendsTrue(c: Client.World) {
    forall tid, r :: Pends(c.w, tid, r) && r.key.name != DOT && r.key !in c.tainted ==> True(c, r.key, r.fid)
  }

  /** Since version `at`, a directory has changed only in tainted names. */
  ghost predicate QuietSince(c: Client.World, d: Dir, at: nat) {
    at < |c.hist(d)| && forall k :: DirOf(k) == d && k !in c.tainted ==> SameAt(c.hist(d)[at], Now(c, d), k.name)
  }

  ghost predicate StageTrue(c: Client.World, st: Stage) {
    match st
    case Replied(call, reply) =>
      (match reply
       case Failed => true
       case Found(fid, at) => call.Lookup? && (call.key !in c.tainted ==> True(c, call.key, fid))
       case Changed(_, at, _, _) => QuietSince(c, Lead(call), at)
       case Stat(at, _) => QuietSince(c, Lead(call), at))
    case Settled(call, fid) => !call.GetAttr? && (Target(call) !in c.tainted ==> True(c, Target(call), fid))
    case Window(call, fid, at, mtime) =>
      call.Lookup? && (call.key in c.tainted || True(c, call.key, fid) || !StillGood(c.attr(Lead(call)), mtime) ||
          Busy(c, Lead(call)))
    case _ => true
  }

  ghost predicate StagesTrue(c: Client.World) { forall tid :: tid in c.stage ==> StageTrue(c, c.stage[tid]) }

  /** A reply received while a ".." lookup has its directory unlocked is of a later version than the answer. */
  ghost predicate After(a: Stage, b: Stage) {
    a.Window? && b.Replied? && Lead(a.call) == Lead(b.call) ==>
      (b.reply.Changed? ==> a.at < b.reply.at) && (b.reply.Stat? ==> a.at <= b.reply.at)
  }

  ghost predicate OrderOk(c: Client.World) {
    forall s, t :: s in c.stage && t in c.stage ==> After(c.stage[s], c.stage[t])
  }

  ghost predicate Agree(c: Client.World) {
    CachedTrue(c) && PendsTrue(c) && StagesTrue(c) && OrderOk(c)
  }

  // ---- Steps that change no listing ----

  lemma OtherStageTrue(c: Client.World, c': Client.World, tid: nat, st: Stage)
    requires StageTrue(c, st) && c'.hist == c.hist && c'.attr == c.attr && c.tainted <= c'.tainted
    requires Restaged(c, c', tid) && !Unsettled(c, tid)
    ensures StageTrue(c', st)
  {
    if st.Window? && Busy(c, Lead(st.call)) {
      var t :| Unsettled(c, t) && InDir(c.stage[t].call, Lead(st.call));
      assert Unsettled(c', t);
    }
  }

  lemma StillCached(c: Client.World, c': Client.World, tid: nat)
    requires CachedTrue(c) && Kept(c.w, c'.w) && c'.hist == c.hist && c.tainted <= c'.tainted && Restaged(c, c', tid)
    requires forall k :: InFlight(c, tid, k) && k in c'.w.last ==> InFlight(c', tid, k) || k in c'.tainted
    ensures CachedTrue(c')
  {
    forall k | k in c'.w.last && k.name != DOT && k !in c'.tainted && (forall t :: !InFlight(c', t, k))
      ensures True(c', k, c'.w.last[k].fid)
    {
      assert forall t :: InFlight(c, t, k) ==> InFlight(c', t, k);
    }
  }

  lemma StepAgree(c: Client.World, c': Client.World, tid: nat)
    requires Agree(c) && c'.hist == c.hist && c'.attr == c.attr && c.tainted <= c'.tainted
    requires Kept(c.w, c'.w) && SamePends(c.w, c'.w) && Restaged(c, c', tid) && !Unsettled(c, tid)
    requires forall k :: InFlight(c, tid, k) && k in c'.w.last ==> k in c'.tainted
    requires tid in c'.stage ==> StageTrue(c', c'.stage[tid])
    requires tid in c'.stage ==> forall t :: t in c'.stage ==>
             After(c'.stage[tid], c'.stage[t]) && After(c'.stage[t], c'.stage[tid])
    ensures Agree(c')
  {
    StillCached(c, c', tid);
    forall t | t in c'.stage ensures StageTrue(c', c'.stage[t]) {
      if t != tid { OtherStageTrue(c, c', tid, c.stage[t]); }
    }
  }

  lemma BeginAgree(c: Client.World, tid: nat, call: Call)
    requires Agree(c) && tid !in c.stage && Shape(c.w) && Lead(call) !in c.w.locks && Second(call) !in c.w.locks
    ensures Agree(c.(w := Locked(c.w, tid, call), stage := c.stage[tid := Begun(call, Todo(call))]))
  {
    LockEffect(c.w, tid, call);
    StepAgree(c, c.(w := Locked(c.w, tid, call), stage := c.stage[tid := Begun(call, Todo(call))]), tid);
  }

  lemma DropAgree(c: Client.World, tid: nat, call: Call, todo: seq<Key>)
    requires Agree(c) && Shape(c.w) && tid !in c.w.phase && todo != []
    requires tid in c.stage && c.stage[tid] == Begun(call, todo)
    ensures Agree(c.(w := RemoveStep(c.w, tid, todo[0]), stage := c.stage[tid := Begun(call, todo[1..])]))
  {
    RemoveEffect(c.w, tid, todo[0]);
    StepAgree(c, c.(w := RemoveStep(c.w, tid, todo[0]), stage := c.stage[tid := Begun(call, todo[1..])]), tid);
  }

  lemma EndAgree(c: Client.World, c': Client.World, tid: nat, call: Call)
    requires Agree(c) && Shape(c.w) && tid !in c.w.phase && tid in c.stage && c.stage[tid] == Ending(call)
    requires Owns(c.w, tid, Lead(call)) && Owns(c.w, tid, Second(call))
    requires c' == c.(w := Unlocked(c.w, tid, call), stage := c.stage - {tid})
    ensures Agree(c')
  {
    UnlockEffect(c.w, tid, call);
    StepAgree(c, c', tid);
  }

  lemma OpenAgree(c: Client.World, c': Client.World, tid: nat, call: Call, fid: Fid, at: nat)
    requires Agree(c) && OwnersOk(c) && Shape(c.w) && tid !in c.w.phase && tid in c.stage
    requires c.stage[tid] == Replied(call, Found(fid, at)) && call.Lookup?
    requires Owns(c.w, tid, Lead(call)) && Owns(c.w, tid, Second(call))
    requires c' == c.(w := Unlocked(c.w, tid, call),
                      stage := c.stage[tid := Window(call, fid, at, c.attr(Lead(call)).mtime)])
    ensures Agree(c')
  {
    UnlockEffect(c.w, tid, call);
    assert StageTrue(c, c.stage[tid]);
    forall t | t in c'.stage ensures After(c'.stage[tid], c'.stage[t]) {
      if t != tid && c.stage[t].Replied? && Lead(c.stage[t].call) == Lead(call) { OneHolder(c, t, tid, Lead(call)); }
    }
    StepAgree(c, c', tid);
  }

  // ---- Entering ----

  lemma AddedAgree(c: Client.World, c': Client.World, tid: nat, call: Call, fid: Fid)
    requires Agree(c) && !call.GetAttr? && tid in c.stage && c.stage[tid].call == call && !Unsettled(c, tid)
    requires c'.hist == c.hist && c'.attr == c.attr && c'.tainted == c.tainted
    requires c'.stage == c.stage[tid := Ending(call)]
    requires Added(c, c', tid, Target(call), fid) && (Target(call) !in c.tainted ==> True(c, Target(call), fid))
    requires call.Lookup? || Adds(call)
    ensures Agree(c')
  {
    forall k | k in c'.w.last && k.name != DOT && k !in c'.tainted && (forall t :: !InFlight(c', t, k))
      ensures True(c', k, c'.w.last[k].fid)
    {
      if k != Target(call) { assert forall t :: InFlight(c, t, k) ==> InFlight(c', t, k); }
    }
    forall t | t in c'.stage ensures StageTrue(c', c'.stage[t]) {
      if t != tid { OtherStageTrue(c, c', tid, c.stage[t]); }
    }
  }

  /** A name entered as the directory has it needs no excuse any more. */
  lemma UntaintAgree(c: Client.World, tid: nat, k: Key)
    requires Agree(c) && OwnersOk(c) && PendsOk(c) && tid in c.stage
    requires c.stage[tid].Ending? && InDir(c.stage[tid].call, DirOf(k))
    requires NoWindow(c, k) && (k in c.w.last ==> True(c, k, c.w.last[k].fid))
    requires forall r :: Pends(c.w, tid, r) && r.key == k ==> True(c, k, r.fid)
    ensures Agree(c.(tainted := c.tainted - iset{k}))
  {
    var c' := c.(tainted := c.tainted - iset{k});
    assert forall t, j :: InFlight(c', t, j) <==> InFlight(c, t, j);
    forall t, r | Pends(c'.w, t, r) && r.key.name != DOT && r.key !in c'.tainted ensures True(c', r.key, r.fid) {
      if r.key == k && t != tid { OneHolder(c, t, tid, DirOf(k)); }
    }
    forall t | t in c'.stage ensures StageTrue(c', c'.stage[t]) {
      UntaintStage(c, tid, t, k);
    }
  }

  lemma UntaintStage(c: Client.World, tid: nat, t: nat, k: Key)
    requires StagesTrue(c) && OwnersOk(c) && tid in c.stage && c.stage[tid].Ending?
    requires InDir(c.stage[tid].call, DirOf(k))
    requires NoWindow(c, k) && t in c.stage
    ensures StageTrue(c.(tainted := c.tainted - iset{k}), c.stage[t])
  {
    var c', st := c.(tainted := c.tainted - iset{k}), c.stage[t];
    assert StageTrue(c, st);
    if st.Window? {
      if Busy(c, Lead(st.call)) {
        var u :| Unsettled(c, u) && InDir(c.stage[u].call, Lead(st.call));
        assert Unsettled(c', u);
      }
    } else if t != tid && Lead(st.call) == DirOf(k) {
      OneHolder(c, t, tid, DirOf(k));
    }
  }

  lemma EnteredAgree(c: Client.World, tid: nat, st: Stage, r: Option<Req>)
    requires CInv(c) && Agree(c) && Shape(c.w) && tid !in c.w.phase
    requires tid in c.stage && c.stage[tid] == st && Entering(st)
    requires r.Some? ==> Fits(c.w, r.value, Target(st.call), Fetched(st))
    ensures Agree(Entered(c, tid, st.call, r))
  {
    assert StageTrue(c, st);
    if r.Some? {
      var c1 := c.(w := AddStep(c.w, tid, r.value), stage := c.stage[tid := Ending(st.call)],
                   broken := c.broken - iset{Target(st.call)});
      AddEffect(c.w, tid, r.value);
      AddedAgree(c, c1, tid, st.call, Fetched(st));
      VouchedAgree(c, c1, tid, st, r.value);
    } else {
      StepAgree(c, Entered(c, tid, st.call, r), tid);
    }
  }

  lemma VouchedAgree(c: Client.World, c1: Client.World, tid: nat, st: Stage, r: Req)
    requires CInv(c) && Agree(c1) && Shape(c.w) && tid !in c.w.phase
    requires tid in c.stage && c.stage[tid] == st && Entering(st)
    requires Fits(c.w, r, Target(st.call), Fetched(st))
    requires c1 == c.(w := AddStep(c.w, tid, r), stage := c.stage[tid := Ending(st.call)],
                      broken := c.broken - iset{Target(st.call)})
    ensures Agree(Vouched(c1, Target(st.call), r.fid))
  {
    assert Entered(c, tid, st.call, Some(r)) == Vouched(c1, Target(st.call), r.fid);
    assert OwnersOk(c1) && PendsOk(c1) by {
      EnteredInv(c, tid, st, Some(r));
      SameOwners(Entered(c, tid, st.call, Some(r)), c1);
    }
    AddEffect(c.w, tid, r);
    if Vouched(c1, Target(st.call), r.fid) != c1 { UntaintAgree(c1, tid, Target(st.call)); }
  }

  lemma SameOwners(c: Client.World, c': Client.World)
    requires OwnersOk(c) && PendsOk(c) && c' == c.(tainted := c'.tainted)
    ensures OwnersOk(c') && PendsOk(c')
  {
    forall t | t in c'.stage ensures OwnerOk(c', t, c'.stage[t]) { assert OwnerOk(c, t, c.stage[t]); }
    PendsMono(c, c');
  }

  /** With the directory locked again, nothing is unsettled in it; so if the test succeeds the answer still holds. */
  lemma RecheckTrue(c: Client.World, st: Stage)
    requires OwnersOk(c) && st.Window? && StageTrue(c, st) && Lead(st.call) !in c.w.locks
    requires StillGood(c.attr(Lead(st.call)), st.mtime)
    ensures st.call.key in c.tainted || True(c, st.call.key, st.fid)
  {
    forall t | Unsettled(c, t) ensures !InDir(c.stage[t].call, Lead(st.call)) {
      assert OwnerOk(c, t, c.stage[t]);
    }
  }

  lemma RecheckedAgree(c: Client.World, tid: nat, st: Stage, r: Option<Req>)
    requires Agree(c) && OwnersOk(c) && Shape(c.w) && tid !in c.w.phase
    requires tid in c.stage && c.stage[tid] == st && st.Window?
    requires st.call.Lookup? && Lead(st.call) !in c.w.locks && (r.Some? ==> Fits(c.w, r.value, st.call.key, st.fid))
    ensures Agree(Rechecked(c, tid, st, r))
  {
    var w1 := Locked(c.w, tid, st.call);
    LockEffect(c.w, tid, st.call);
    assert StageTrue(c, st);
    if r.Some? && StillGood(c.attr(Lead(st.call)), st.mtime) {
      RecheckTrue(c, st);
      ReenterAgree(c, w1, tid, st, r.value);
    } else {
      StepAgree(c, Rechecked(c, tid, st, r), tid);
    }
  }

  lemma ReenterAgree(c: Client.World, w1: DncRun.World, tid: nat, st: Stage, r: Req)
    requires Agree(c) && tid !in c.w.phase && tid in c.stage && c.stage[tid] == st && st.Window? && st.call.Lookup?
    requires Shape(w1) && SameCache(c.w, w1) && r.key == st.call.key && r.fid == st.fid
    requires r.key in c.tainted || True(c, r.key, r.fid)
    ensures Agree(c.(w := AddStep(w1, tid, r), stage := c.stage[tid := Ending(st.call)]))
  {
    var c' := c.(w := AddStep(w1, tid, r), stage := c.stage[tid := Ending(st.call)]);
    AddEffect(w1, tid, r);
    assert forall t, q :: Pends(w1, t, q) ==> Pends(c.w, t, q);
    AddedAgree(c, c', tid, st.call, st.fid);
  }

  // ---- Cache steps ----

  lemma GentleAgree(c: Client.World, c': Client.World)
    requires Agree(c) && PendsOk(c) && c' == c.(w := c'.w) && Gentle(c, c'.w)
    ensures Agree(c')
  {
    forall k | k in c'.w.last && k.name != DOT && k !in c'.tainted && (forall t :: !InFlight(c', t, k))
      ensures True(c', k, c'.w.last[k].fid)
    {
      assert forall t :: InFlight(c, t, k) ==> InFlight(c', t, k);
    }
    forall t | t in c'.stage ensures StageTrue(c', c'.stage[t]) {
      SameStageTrue(c, c', c.stage[t]);
    }
  }

  lemma SameStageTrue(c: Client.World, c': Client.World, st: Stage)
    requires StageTrue(c, st) && c' == c.(w := c'.w)
    ensures StageTrue(c', st)
  {
    if st.Window? && Busy(c, Lead(st.call)) {
      var t :| Unsettled(c, t) && InDir(c.stage[t].call, Lead(st.call));
      assert Unsettled(c', t);
    }
  }

  // ---- Replies without a change ----

  lemma ReplyAgree(c: Client.World, tid: nat, call: Call, reply: Reply)
    requires Agree(c) && StagesOk(c) && tid in c.stage && c.stage[tid] == Begun(call, [])
    requires StageTrue(c, Replied(call, reply))
    requires reply.Failed? || reply.Found? || (reply.Stat? && reply.at == |c.hist(Lead(call))| - 1)
    ensures Agree(c.(stage := c.stage[tid := Replied(call, reply)]))
  {
    var c' := c.(stage := c.stage[tid := Replied(call, reply)]);
    forall t | t in c'.stage ensures After(c'.stage[t], c'.stage[tid]) {
      if t != tid && c.stage[t].Window? { assert StageOk(c, c.stage[t]); }
    }
    StepAgree(c, c', tid);
  }

  // ---- Changes ----

  /** Listings change for the touched names of the call's directories at most. */
  ghost predicate Changes(c: Client.World, c': Client.World, call: Call) {
    (forall d :: c.hist(d) != [] && c'.hist(d) != []) &&
    (forall d :: !InDir(call, d) ==> c'.hist(d) == c.hist(d)) &&
    (forall k: Key :: k.name != DOT && !Touches(call, k) ==> SameAt(Now(c, DirOf(k)), Now(c', DirOf(k)), k.name))
  }

  lemma ServeChanges(c: Client.World, c': Client.World, call: Call, fid: Fid, times: Dir -> Time)
    requires ServerOk(c) && CallOk(call) && Modifies(call) && CanServe(c, call, fid, times)
    requires c'.hist == Serve(c, call, fid, times)
    ensures Changes(c, c', call)
  {
    forall d ensures c.hist(d) != [] && c'.hist(d) != [] { assert DirOk(c, d); }
    forall k: Key | k.name != DOT && !Touches(call, k) ensures SameAt(Now(c, DirOf(k)), Now(c', DirOf(k)), k.name) {
      var d := DirOf(k);
      if InDir(call, d) {
        assert c'.hist(d) == c.hist(d) + [Version(Names(call, fid, d, Now(c, d).names), times(d))];
        NamesTouched(call, fid, d, Now(c, d).names, k);
      }
    }
  }

  /** Another thread's stage: its directory is its own, unless it has it unlocked. */
  lemma StageThroughChange(c: Client.World, c': Client.World, tid: nat, t: nat, call: Call)
    requires OwnersOk(c) && tid in c.stage && c.stage[tid].call == call
    requires c.stage[tid].Begun? && t in c.stage && t != tid
    requires StageTrue(c, c.stage[t]) && Changes(c, c', call) && c'.attr == c.attr
    requires c.tainted <= c'.tainted && Restaged(c, c', tid)
    requires (Unsettled(c', tid) && c'.stage[tid].call == call) || forall k :: Touches(call, k) ==> k in c'.tainted
    ensures StageTrue(c', c.stage[t])
  {
    var st := c.stage[t];
    assert OwnerOk(c, t, st);
    if !st.Window? {
      if InDir(call, Lead(st.call)) { OneHolder(c, t, tid, Lead(st.call)); }
    } else {
      WindowThroughChange(c, c', tid, st, call);
    }
  }

  lemma WindowThroughChange(c: Client.World, c': Client.World, tid: nat, st: Stage, call: Call)
    requires st.Window? && CallOk(st.call) && StageTrue(c, st) && Changes(c, c', call)
    requires c'.attr == c.attr && c.tainted <= c'.tainted
    requires Restaged(c, c', tid) && tid in c.stage && c.stage[tid].Begun?
    requires (Unsettled(c', tid) && c'.stage[tid].call == call) || forall k :: Touches(call, k) ==> k in c'.tainted
    ensures StageTrue(c', st)
  {
    var d := Lead(st.call);
    if Busy(c, d) {
      var t :| Unsettled(c, t) && InDir(c.stage[t].call, d);
      assert Unsettled(c', t);
    } else if Touches(call, st.call.key) && Unsettled(c', tid) && c'.stage[tid].call == call {
      assert InDir(call, d);
    }
  }

  /** The server has made the change; the caller knows of it, or the touched names are tainted. */
  ghost predicate Made(c: Client.World, c': Client.World, tid: nat, call: Call, reply: Reply) {
    c' == c.(hist := c'.hist, stage := c.stage[tid := Replied(call, reply)], tainted := c'.tainted) &&
    c.tainted <= c'.tainted && Changes(c, c', call) &&
    (if reply.Changed? then reply.at == |c.hist(Lead(call))| == |c'.hist(Lead(call))| - 1
     else reply.Failed? && forall k :: Touches(call, k) ==> k in c'.tainted)
  }

  lemma ChangeCached(c: Client.World, c': Client.World, tid: nat, call: Call, reply: Reply)
    requires CachedTrue(c) && tid in c.stage && c.stage[tid] == Begun(call, []) && Made(c, c', tid, call, reply)
    ensures CachedTrue(c')
  {
    forall k | k in c'.w.last && k.name != DOT && k !in c'.tainted && (forall t :: !InFlight(c', t, k))
      ensures True(c', k, c'.w.last[k].fid)
    {
      assert forall t :: InFlight(c, t, k) ==> InFlight(c', t, k);
      assert !InFlight(c', tid, k);
      assert !Touches(call, k);
    }
  }

  lemma ChangePends(c: Client.World, c': Client.World, tid: nat, call: Call, reply: Reply)
    requires PendsTrue(c) && CInv(c) && tid !in c.w.phase && tid in c.stage
    requires c.stage[tid] == Begun(call, []) && Made(c, c', tid, call, reply)
    ensures PendsTrue(c')
  {
    assert OwnerOk(c, tid, c.stage[tid]);
    NoOtherPends(c, tid, Lead(call));
    NoOtherPends(c, tid, Second(call));
    forall t, r | Pends(c'.w, t, r) && r.key.name != DOT && r.key !in c'.tainted ensures True(c', r.key, r.fid) {
      assert Pends(c.w, t, r) && c'.hist(DirOf(r.key)) == c.hist(DirOf(r.key));
    }
  }

  lemma ChangeOrder(c: Client.World, c': Client.World, tid: nat, call: Call, reply: Reply)
    requires OrderOk(c) && StagesOk(c) && tid in c.stage && c.stage[tid] == Begun(call, [])
    requires Made(c, c', tid, call, reply)
    ensures OrderOk(c')
  {
    forall s, t | s in c'.stage && t in c'.stage ensures After(c'.stage[s], c'.stage[t]) {
      if s != tid && c.stage[s].Window? { assert StageOk(c, c.stage[s]); }
      assert s != tid && t != tid ==> After(c.stage[s], c.stage[t]);
    }
  }

  lemma ChangeAgree(c: Client.World, c': Client.World, tid: nat, call: Call, reply: Reply)
    requires Agree(c) && CInv(c) && tid !in c.w.phase && tid in c.stage
    requires c.stage[tid] == Begun(call, []) && Made(c, c', tid, call, reply)
    ensures Agree(c')
  {
    ChangeCached(c, c', tid, call, reply);
    ChangePends(c, c', tid, call, reply);
    ChangeOrder(c, c', tid, call, reply);
    forall t | t in c'.stage ensures StageTrue(c', c'.stage[t]) {
      if t != tid { StageThroughChange(c, c', tid, t, call); }
    }
  }

  lemma CalledAgree(c: Client.World, tid: nat, call: Call, out: Outcome)
    requires Agree(c) && CInv(c) && tid !in c.w.phase && tid in c.stage
    requires c.stage[tid] == Begun(call, []) && RpcOk(c, call, out)
    ensures Agree(Called(c, tid, call, out))
  {
    AnsweredAgree(c, tid, call, out);
    if (out.Lose? || out.Grant?) && out.moved.Some? {
      var c1, d := Answered(c, tid, call, out), Child(call, out.fid);
      AnsweredInv(c, tid, call, out);
      assert DirOk(c1, d);
      ForeignAgree(c1, Called(c, tid, call, out), d, out.moved.value);
    }
  }

  lemma AnsweredAgree(c: Client.World, tid: nat, call: Call, out: Outcome)
    requires Agree(c) && CInv(c) && tid !in c.w.phase && tid in c.stage
    requires c.stage[tid] == Begun(call, []) && RpcOk(c, call, out)
    ensures Agree(Answered(c, tid, call, out))
  {
    var c' := Answered(c, tid, call, out);
    assert OwnerOk(c, tid, c.stage[tid]);
    match out
    case Refuse => ReplyAgree(c, tid, call, Failed);
    case Read(fid) => ReplyAgree(c, tid, call, c'.stage[tid].reply);
    case Lose(fid, times, _) =>
      ServeChanges(c, c', call, fid, times);
      ChangeAgree(c, c', tid, call, c'.stage[tid].reply);
    case Grant(fid, times, expected, _) =>
      ServeChanges(c, c', call, fid, times);
      assert InDir(call, Lead(call));
      ChangeAgree(c, c', tid, call, c'.stage[tid].reply);
  }

  // ---- Changes made elsewhere ----

  lemma ForeignAgree(c: Client.World, c': Client.World, d: Dir, v: Version)
    requires Agree(c) && ServerOk(c) && !d.root && c' == c.(hist := c'.hist, tainted := c'.tainted)
    requires forall e :: c'.hist(e) == if e == d then c.hist(d) + [v] else c.hist(e)
    requires DirOk(c, d) && c'.tainted == c.tainted + iset k | DirOf(k) == d && !SameAt(Now(c, d), v, k.name)
    ensures Agree(c')
  {
    forall k | k !in c'.tainted
      ensures k !in c.tainted && c.hist(DirOf(k)) != [] && c'.hist(DirOf(k)) != []
      ensures SameAt(Now(c, DirOf(k)), Now(c', DirOf(k)), k.name)
    {
      assert DirOk(c, DirOf(k));
    }
    assert forall t, k :: InFlight(c', t, k) <==> InFlight(c, t, k);
    forall t | t in c'.stage ensures StageTrue(c', c'.stage[t]) { ForeignStage(c, c', d, v, c.stage[t]); }
  }

  /** A stage goes through a change of a directory whose changed names are tainted. */
  lemma ForeignStage(c: Client.World, c': Client.World, d: Dir, v: Version, st: Stage)
    requires StageTrue(c, st) && ServerOk(c) && c'.attr == c.attr && c'.stage == c.stage && c.tainted <= c'.tainted
    requires DirOk(c, d) && forall e :: c'.hist(e) == if e == d then c.hist(d) + [v] else c.hist(e)
    requires forall k :: DirOf(k) == d && !SameAt(Now(c, d), v, k.name) ==> k in c'.tainted
    ensures StageTrue(c', st)
  {
    forall k | k !in c'.tainted
      ensures c.hist(DirOf(k)) != [] && c'.hist(DirOf(k)) != []
      ensures SameAt(Now(c, DirOf(k)), Now(c', DirOf(k)), k.name)
    {
      assert DirOk(c, DirOf(k));
    }
    if st.Window? && Busy(c, Lead(st.call)) {
      var u :| Unsettled(c, u) && InDir(c.stage[u].call, Lead(st.call));
      assert Unsettled(c', u);
    }
  }

  // ---- New attributes ----

  /** A ".." lookup with its directory unlocked, as the attributes of a directory move to a version. */
  lemma WindowThroughMove(c: Client.World, c': Client.World, tid: nat, t: nat, call: Call, reply: Reply)
    requires StagesOk(c) && ServerOk(c) && OrderOk(c) && tid in c.stage && c.stage[tid] == Replied(call, reply)
    requires t in c.stage && c.stage[t].Window? && (reply.Changed? || reply.Stat?)
    requires StageTrue(c, c.stage[t]) && StageTrue(c, c.stage[tid])
    requires c'.hist == c.hist && c'.tainted == c.tainted && Restaged(c, c', tid)
    requires forall d :: d != Lead(call) ==> c'.attr(d) == Doubted(c.attr, call)(d)
    requires c'.attr(Lead(call)).mtime == reply.mtime
    ensures StageTrue(c', c.stage[t])
  {
    var st := c.stage[t];
    var d := Lead(st.call);
    assert StageTrue(c, st) && StageOk(c, st) && StageOk(c, c.stage[tid]) && StageTrue(c, c.stage[tid]) && DirOk(c, d);
    if d == Lead(call) {
      assert After(st, c.stage[tid]);
      SettledUnderWindow(c, st, reply.at, reply.mtime, reply.Changed?);
    } else if Busy(c, d) {
      var b :| Unsettled(c, b) && InDir(c.stage[b].call, d);
      if b != tid { assert Unsettled(c', b); }
    }
  }

  /**
    Attributes of a version no older than the answer: if their time is the saved one, the answer
    is of that very version.
   */
  lemma SettledUnderWindow(c: Client.World, st: Stage, at: nat, mtime: Time, later: bool)
    requires st.Window? && StageOk(c, st) && DirOk(c, Lead(st.call)) && QuietSince(c, Lead(st.call), at)
    requires c.hist(Lead(st.call))[at].mtime == mtime && (if later then st.at < at else st.at <= at)
    ensures st.mtime == mtime ==> st.call.key in c.tainted || True(c, st.call.key, st.fid)
  {
    var h := c.hist(Lead(st.call));
    var u :| 0 <= u <= st.at && u < |h| && h[u].mtime == st.mtime;
    if st.mtime == mtime { assert u == at; }
  }

  /** Invalidating attributes can only make the test on a ".." lookup fail. */
  lemma FailedAgree(c: Client.World, c': Client.World, tid: nat, call: Call)
    requires Agree(c) && tid in c.stage && c.stage[tid] == Replied(call, Failed)
    requires c' == c.(attr := Doubted(c.attr, call), stage := c.stage[tid := Ending(call)])
    ensures Agree(c')
  {
    StillCached(c, c', tid);
    forall t | t in c'.stage ensures StageTrue(c', c'.stage[t]) {
      var st := c'.stage[t];
      if st.Window? && Busy(c, Lead(st.call)) {
        var u :| Unsettled(c, u) && InDir(c.stage[u].call, Lead(st.call));
        assert Unsettled(c', u);
      }
    }
  }

  lemma MovedAgree(c: Client.World, c': Client.World, tid: nat, call: Call, reply: Reply, st: Stage)
    requires Agree(c) && CInv(c) && tid in c.stage && c.stage[tid] == Replied(call, reply)
    requires reply.Changed? || reply.Stat?
    requires c'.hist == c.hist && c'.tainted == c.tainted && c'.stage == c.stage[tid := st]
    requires Kept(c.w, c'.w) && SamePends(c.w, c'.w)
    requires forall d :: d != Lead(call) ==> c'.attr(d) == Doubted(c.attr, call)(d)
    requires c'.attr(Lead(call)).mtime == reply.mtime
    requires st == if reply.Changed? && Adds(call) then Settled(call, reply.fid) else Ending(call)
    ensures Agree(c')
  {
    MovedStillCached(c, c', tid, call, reply, st);
    MovedStagesTrue(c, c', tid, call, reply, st);
  }

  lemma MovedStagesTrue(c: Client.World, c': Client.World, tid: nat, call: Call, reply: Reply, st: Stage)
    requires StagesTrue(c) && OrderOk(c) && CInv(c) && tid in c.stage && c.stage[tid] == Replied(call, reply)
    requires reply.Changed? || reply.Stat?
    requires c'.hist == c.hist && c'.tainted == c.tainted && c'.stage == c.stage[tid := st]
    requires forall d :: d != Lead(call) ==> c'.attr(d) == Doubted(c.attr, call)(d)
    requires c'.attr(Lead(call)).mtime == reply.mtime
    requires st == if reply.Changed? && Adds(call) then Settled(call, reply.fid) else Ending(call)
    ensures StagesTrue(c')
  {
    forall t | t in c'.stage ensures StageTrue(c', c'.stage[t]) {
      if t == tid {
        MovedOwn(c, c', tid, call, reply, st);
      } else if c.stage[t].Window? {
        WindowThroughMove(c, c', tid, t, call, reply);
      }
    }
  }

  lemma MovedOwn(c: Client.World, c': Client.World, tid: nat, call: Call, reply: Reply, st: Stage)
    requires StagesOk(c) && StagesTrue(c) && tid in c.stage && c.stage[tid] == Replied(call, reply)
    requires reply.Changed? || reply.Stat?
    requires c'.hist == c.hist && c'.tainted == c.tainted
    requires st == if reply.Changed? && Adds(call) then Settled(call, reply.fid) else Ending(call)
    ensures StageTrue(c', st)
  {
    assert StageOk(c, c.stage[tid]) && StageTrue(c, c.stage[tid]);
  }

  lemma MovedStillCached(c: Client.World, c': Client.World, tid: nat, call: Call, reply: Reply, st: Stage)
    requires CachedTrue(c) && GoneOk(c) && tid in c.stage && c.stage[tid] == Replied(call, reply)
    requires reply.Changed? || reply.Stat?
    requires c'.hist == c.hist && c'.tainted == c.tainted && c'.stage == c.stage[tid := st] && Kept(c.w, c'.w)
    requires st == if reply.Changed? && Adds(call) then Settled(call, reply.fid) else Ending(call)
    ensures CachedTrue(c')
  {
    forall k | k in Todo(call) ensures k !in c'.w.last { assert GivenUp(c.stage[tid], k); }
    forall k | InFlight(c, tid, k) && k in c'.w.last ensures InFlight(c', tid, k) { TouchedTodo(call, k); }
    StillCached(c, c', tid);
  }

  lemma SettlingAgree(c: Client.World, tid: nat, call: Call, reply: Reply)
    requires Agree(c) && CInv(c) && Shape(c.w) && tid in c.stage
    requires c.stage[tid] == Replied(call, reply) && !reply.Found?
    ensures Agree(Settling(c, tid, call, reply))
  {
    var c' := Settling(c, tid, call, reply);
    assert OwnerOk(c, tid, c.stage[tid]);
    if reply.Failed? {
      FailedAgree(c, c', tid, call);
    } else {
      var c1 := c.(attr := Doubted(c.attr, call));
      var expected := reply.Changed? && reply.expected;
      RefreshedMoves(c1, c', Lead(call), reply.at, reply.mtime, expected);
      MovedAgree(c, c', tid, call, reply, c'.stage[tid]);
    }
  }

  /** Every step of every client keeps agreement. */
  lemma ActAgree(c: Client.World, a: Act)
    requires Agree(c) && CInv(c) && Shape(c.w) && CanDo(c, a)
    ensures Agree(Do(c, a))
  {
    match a
    case Begin(tid, call) => BeginAgree(c, tid, call);
    case Drop(tid) => DropAgree(c, tid, c.stage[tid].call, c.stage[tid].todo);
    case Rpc(tid, out) => CalledAgree(c, tid, c.stage[tid].call, out);
    case Settle(tid) => SettlingAgree(c, tid, c.stage[tid].call, c.stage[tid].reply);
    case Enter(tid, r) => EnteredAgree(c, tid, c.stage[tid], r);
    case Open(tid) => OpenAgree(c, Do(c, a), tid, c.stage[tid].call, c.stage[tid].reply.fid, c.stage[tid].reply.at);
    case Recheck(tid, r) => RecheckedAgree(c, tid, c.stage[tid], r);
    case End(tid) => EndAgree(c, Do(c, a), tid, c.stage[tid].call);
    case Foreign(d, v) =>
      assert DirOk(c, d);
      ForeignAgree(c, Do(c, a), d, v);
    case Cache(s) =>
      GentleStep(c, s);
      GentleAgree(c, Do(c, a));
  }
}
