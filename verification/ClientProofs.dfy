/**
  Bounded staleness: a cached name was right in some version of its directory not
  older than the one the directory's cached attributes belong to.
 */
module ClientProofs {
  import opened BuildHandles
  import opened Client
  import opened ClientCache
  import opened DncRun
  import opened DncTable
  import opened DncTheorems
  import opened NameHash

  // ---- The invariant ----

  predicate Distinct(h: seq<Version>) {
    forall u, v :: 0 <= u < v < |h| ==> h[u].mtime != h[v].mtime
  }

  /** Cached attributes are those of a version of the directory, which their time identifies. */
  ghost predicate DirOk(c: Client.World, d: Dir) {
    Distinct(c.hist(d)) && c.attr(d).base < |c.hist(d)| && c.hist(d)[c.attr(d).base].mtime == c.attr(d).mtime
  }

  ghost predicate ServerOk(c: Client.World) { forall d :: DirOk(c, d) }

  ghost predicate SaysAt(c: Client.World, k: Key, fid: Fid, v: nat) {
    v < |c.hist(DirOf(k))| && Says(c.hist(DirOf(k))[v], k.name, fid)
  }

  ghost predicate FreshAt(c: Client.World, k: Key, fid: Fid) {
    exists v :: c.attr(DirOf(k)).base <= v && SaysAt(c, k, fid, v)
  }

  ghost predicate OwnerOk(c: Client.World, tid: nat, st: Stage) {
    CallOk(st.call) && (st.Window? || (Owns(c.w, tid, Lead(st.call)) && Owns(c.w, tid, Second(st.call))))
  }

  ghost predicate OwnersOk(c: Client.World) { forall tid :: tid in c.stage ==> OwnerOk(c, tid, c.stage[tid]) }

  /** An add in flight belongs to a call that is over but for the unlock. */
  ghost predicate PendsOk(c: Client.World) {
    forall tid, r :: Pends(c.w, tid, r) && r.key.name != DOT ==>
      tid in c.stage && c.stage[tid].Ending? && !c.stage[tid].call.GetAttr? && r.key == Target(c.stage[tid].call) &&
      FreshAt(c, r.key, r.fid)
  }

  /** The names a call has dropped from the cache. */
  predicate GivenUp(st: Stage, k: Key) {
    k in Todo(st.call) && ((st.Begun? && k !in st.todo) || st.Replied? || st.Settled?)
  }

  ghost predicate GoneOk(c: Client.World) {
    forall tid, k :: tid in c.stage && GivenUp(c.stage[tid], k) ==> k !in c.w.last
  }

  /** The attributes already count the new name, the cache not yet. */
  ghost predicate Midway(c: Client.World, tid: nat, k: Key) {
    tid in c.stage && c.stage[tid].Settled? && Adds(c.stage[tid].call) && k == Target(c.stage[tid].call)
  }

  ghost predicate CachedOk(c: Client.World) {
    forall k :: k in c.w.last && k.name != DOT && k !in c.broken && (forall tid :: !Midway(c, tid, k)) ==>
        FreshAt(c, k, c.w.last[k].fid)
  }

  ghost predicate ChangedOk(c: Client.World, call: Call, reply: Reply)
    requires reply.Changed?
  {
    var h, base := c.hist(Lead(call)), c.attr(Lead(call)).base;
    Modifies(call) && base < reply.at < |h| && h[reply.at].mtime == reply.mtime &&
    (Adds(call) ==> Says(h[reply.at], Target(call).name, reply.fid)) &&
    (reply.expected ==> reply.at == base + 1 && OnlyTouched(h[base], h[reply.at], call))
  }

  /** Apart from the names a call touches, two versions of its directory agree. */
  ghost predicate OnlyTouched(a: Version, b: Version, call: Call) {
    forall k :: DirOf(k) == Lead(call) && !Touches(call, k) ==> SameAt(a, b, k.name)
  }

  ghost predicate StageOk(c: Client.World, st: Stage) {
    match st
    case Begun(call, todo) => forall k :: k in todo ==> k in Todo(call)
    case Replied(call, reply) =>
      (match reply
       case Failed => true
       case Found(fid, at) => call.Lookup? && c.attr(Lead(call)).base <= at && SaysAt(c, call.key, fid, at)
       case Changed(_, _, _, _) => ChangedOk(c, call, reply)
       case Stat(at, mtime) =>
         call.GetAttr? && c.attr(call.dir).base <= at < |c.hist(call.dir)| && c.hist(call.dir)[at].mtime == mtime)
    case Settled(call, fid) => Adds(call) && FreshAt(c, Target(call), fid)
    case Window(call, fid, at, mtime) => call.Lookup? && SaysAt(c, call.key, fid, at) &&
        TimeBefore(c, Lead(call), mtime, at)
    case Ending(call) => true
  }

  /** The time is that of a version no later than v. */
  ghost predicate TimeBefore(c: Client.World, d: Dir, mtime: Time, v: nat) {
    exists u :: 0 <= u <= v && u < |c.hist(d)| && c.hist(d)[u].mtime == mtime
  }

  ghost predicate StagesOk(c: Client.World) { forall tid :: tid in c.stage ==> StageOk(c, c.stage[tid]) }

  ghost predicate CInv(c: Client.World) {
    ServerOk(c) && OwnersOk(c) && PendsOk(c) && GoneOk(c) && CachedOk(c) && StagesOk(c)
  }

  // ---- What persists when versions are only added ----

  ghost predicate Extends(c: Client.World, c': Client.World) {
    (forall d :: c'.attr(d).base == c.attr(d).base && c'.attr(d).mtime == c.attr(d).mtime) &&
    forall d :: |c.hist(d)| <= |c'.hist(d)| && forall v :: 0 <= v < |c.hist(d)| ==> c'.hist(d)[v] == c.hist(d)[v]
  }

  lemma FreshMono(c: Client.World, c': Client.World, k: Key, fid: Fid)
    requires Extends(c, c') && FreshAt(c, k, fid)
    ensures FreshAt(c', k, fid)
  {
    var v :| c.attr(DirOf(k)).base <= v && SaysAt(c, k, fid, v);
    assert SaysAt(c', k, fid, v);
  }

  lemma StageMono(c: Client.World, c': Client.World, st: Stage)
    requires Extends(c, c') && StageOk(c, st)
    ensures StageOk(c', st)
  {
    match st
    case Settled(call, fid) => FreshMono(c, c', Target(call), fid);
    case Window(call, fid, at, mtime) =>
      var d := Lead(call);
      var u :| 0 <= u <= at && u < |c.hist(d)| && c.hist(d)[u].mtime == mtime;
      assert c'.hist(d)[u].mtime == mtime;
      assert SaysAt(c', call.key, fid, at);
    case Replied(call, reply) =>
      var d := Lead(call);
      assert |c.hist(d)| <= |c'.hist(d)|;
      if reply.Changed? { assert ChangedOk(c', call, reply); }
    case _ =>
  }

  /** A step that adds no translation and moves no attributes keeps what is known of cached names. */
  lemma CachedMono(c: Client.World, c': Client.World)
    requires CachedOk(c) && Extends(c, c') && Kept(c.w, c'.w)
    requires forall tid, k :: Midway(c, tid, k) ==> Midway(c', tid, k) || k in c'.broken || k !in c'.w.last
    requires forall k :: k in c.broken ==> k in c'.broken
    ensures CachedOk(c')
  {
    forall k | k in c'.w.last && k.name != DOT && k !in c'.broken && (forall tid :: !Midway(c', tid, k))
      ensures FreshAt(c', k, c'.w.last[k].fid)
    {
      FreshMono(c, c', k, c.w.last[k].fid);
    }
  }

  lemma PendsMono(c: Client.World, c': Client.World)
    requires PendsOk(c) && Extends(c, c') && SamePends(c.w, c'.w)
    requires forall tid, r :: Pends(c.w, tid, r) && r.key.name != DOT && tid in c.stage ==>
             tid in c'.stage && c'.stage[tid] == c.stage[tid]
    ensures PendsOk(c')
  {
    forall tid, r | Pends(c'.w, tid, r) && r.key.name != DOT
      ensures tid in c'.stage && c'.stage[tid].Ending? && !c'.stage[tid].call.GetAttr?
      ensures r.key == Target(c'.stage[tid].call) && FreshAt(c', r.key, r.fid)
    {
      assert Pends(c.w, tid, r);
      FreshMono(c, c', r.key, r.fid);
    }
  }

  /** All but one stage stay as they were. */
  ghost predicate Restaged(c: Client.World, c': Client.World, tid: nat) {
    forall t :: t != tid ==> (t in c'.stage <==> t in c.stage) && (t in c.stage ==> c'.stage[t] == c.stage[t])
  }

  lemma StagesMono(c: Client.World, c': Client.World, tid: nat)
    requires StagesOk(c) && Extends(c, c') && Restaged(c, c', tid)
    requires tid in c'.stage ==> StageOk(c', c'.stage[tid])
    ensures StagesOk(c')
  {
    forall t | t in c'.stage ensures StageOk(c', c'.stage[t]) {
      if t != tid { StageMono(c, c', c.stage[t]); }
    }
  }

  lemma ServerMono(c: Client.World, c': Client.World)
    requires ServerOk(c) && Extends(c, c') && (c'.hist == c.hist || forall d :: Distinct(c'.hist(d)))
    ensures ServerOk(c')
  {
    forall d ensures DirOk(c', d) { assert DirOk(c, d); }
  }

  lemma OwnersMono(c: Client.World, c': Client.World, tid: nat)
    requires OwnersOk(c) && Restaged(c, c', tid)
    requires forall t, d :: t != tid && Owns(c.w, t, d) ==> Owns(c'.w, t, d)
    requires tid in c'.stage ==> OwnerOk(c', tid, c'.stage[tid])
    ensures OwnersOk(c')
  {
    forall t | t in c'.stage ensures OwnerOk(c', t, c'.stage[t]) {
      if t != tid { assert OwnerOk(c, t, c.stage[t]); }
    }
  }

  lemma GoneMono(c: Client.World, c': Client.World, tid: nat)
    requires GoneOk(c) && Kept(c.w, c'.w) && Restaged(c, c', tid)
    requires tid in c'.stage ==> forall k :: GivenUp(c'.stage[tid], k) ==> k !in c'.w.last
    ensures GoneOk(c')
  {
  }

  /** The cache, the stages of other threads and what is known of this thread's stage go through a step together. */
  lemma StepMono(c: Client.World, c': Client.World, tid: nat)
    requires CInv(c) && Extends(c, c') && (c'.hist == c.hist || forall d :: Distinct(c'.hist(d)))
    requires Kept(c.w, c'.w) && SamePends(c.w, c'.w) && Restaged(c, c', tid) && tid !in c.w.phase
    requires forall t, d :: t != tid && Owns(c.w, t, d) ==> Owns(c'.w, t, d)
    requires tid in c'.stage ==> StageOk(c', c'.stage[tid]) && OwnerOk(c', tid, c'.stage[tid])
    requires tid in c'.stage ==> forall k :: GivenUp(c'.stage[tid], k) ==> k !in c'.w.last
    requires forall k :: Midway(c, tid, k) ==> k in c'.broken || k !in c'.w.last
    requires forall k :: k in c.broken ==> k in c'.broken
    ensures CInv(c')
  {
    ServerMono(c, c');
    OwnersMono(c, c', tid);
    PendsMono(c, c');
    GoneMono(c, c', tid);
    CachedMono(c, c');
    StagesMono(c, c', tid);
  }

  /** The same for a step that belongs to no call. */
  lemma QuietMono(c: Client.World, c': Client.World)
    requires CInv(c) && Extends(c, c') && (c'.hist == c.hist || forall d :: Distinct(c'.hist(d)))
    requires Kept(c.w, c'.w) && SamePends(c.w, c'.w) && c'.stage == c.stage && c'.broken == c.broken
    requires forall t: nat, d: Dir :: !d.root && Owns(c.w, t, d) ==> Owns(c'.w, t, d)
    ensures CInv(c')
  {
    ServerMono(c, c');
    PendsMono(c, c');
    assert forall tid, k :: Midway(c', tid, k) <==> Midway(c, tid, k);
    CachedMono(c, c');
    forall t | t in c'.stage ensures OwnerOk(c', t, c'.stage[t]) && StageOk(c', c'.stage[t]) {
      assert OwnerOk(c, t, c.stage[t]);
      StageMono(c, c', c.stage[t]);
    }
  }

  // ---- The steps ----

  ghost predicate SameCache(w: DncRun.World, w': DncRun.World) {
    w'.last == w.last && w'.phase == w.phase && w'.target == w.target
  }

  lemma LockEffect(w: DncRun.World, tid: nat, call: Call)
    requires Shape(w) && Lead(call) !in w.locks && Second(call) !in w.locks
    ensures var w' := Locked(w, tid, call);
            Shape(w') && SameCache(w, w') && Owns(w', tid, Lead(call)) && Owns(w', tid, Second(call)) &&
            forall t, d :: Owns(w, t, d) ==> Owns(w', t, d)
  {
  }

  lemma UnlockEffect(w: DncRun.World, tid: nat, call: Call)
    requires Shape(w) && tid !in w.phase && Owns(w, tid, Lead(call)) && Owns(w, tid, Second(call))
    ensures var w' := Unlocked(w, tid, call);
            Shape(w') && SameCache(w, w') && forall t, d :: t != tid && Owns(w, t, d) ==> Owns(w', t, d)
  {
  }

  lemma BeginInv(c: Client.World, tid: nat, call: Call)
    requires CInv(c) && tid !in c.stage && CallOk(call) && Shape(c.w)
    requires Lead(call) !in c.w.locks && Second(call) !in c.w.locks
    requires tid !in c.w.phase
    ensures CInv(c.(w := Locked(c.w, tid, call), stage := c.stage[tid := Begun(call, Todo(call))]))
  {
    var c' := c.(w := Locked(c.w, tid, call), stage := c.stage[tid := Begun(call, Todo(call))]);
    LockEffect(c.w, tid, call);
    assert OwnerOk(c', tid, c'.stage[tid]);
    StepMono(c, c', tid);
  }

  lemma DropInv(c: Client.World, tid: nat, call: Call, todo: seq<Key>)
    requires CInv(c) && Shape(c.w) && tid !in c.w.phase && todo != []
    requires tid in c.stage && c.stage[tid] == Begun(call, todo)
    ensures CInv(c.(w := RemoveStep(c.w, tid, todo[0]), stage := c.stage[tid := Begun(call, todo[1..])]))
  {
    var c' := c.(w := RemoveStep(c.w, tid, todo[0]), stage := c.stage[tid := Begun(call, todo[1..])]);
    RemoveEffect(c.w, tid, todo[0]);
    assert OwnerOk(c, tid, c.stage[tid]) && StageOk(c, c.stage[tid]);
    forall j | GivenUp(c'.stage[tid], j) ensures j !in c'.w.last {
      if j != todo[0] { assert GivenUp(c.stage[tid], j); }
    }
    StepMono(c, c', tid);
  }

  // ---- Calls to the server ----

  lemma DistinctMore(h: seq<Version>, v: Version)
    requires Distinct(h) && NewTime(h, v.mtime)
    ensures Distinct(h + [v])
  {
  }

  lemma ServeExtends(c: Client.World, c': Client.World, call: Call, fid: Fid, times: Dir -> Time)
    requires ServerOk(c) && CanServe(c, call, fid, times) && c'.hist == Serve(c, call, fid, times) && c'.attr == c.attr
    ensures Extends(c, c') && forall d :: Distinct(c'.hist(d))
  {
    forall d ensures Distinct(c'.hist(d)) {
      assert DirOk(c, d);
      if InDir(call, d) { DistinctMore(c.hist(d), Version(Names(call, fid, d, Now(c, d).names), times(d))); }
    }
  }

  /** The server changes the touched names of a directory and no others. */
  lemma NamesTouched(call: Call, fid: Fid, d: Dir, names: map<Name, Fid>, k: Key)
    requires DirOf(k) == d && !d.root && CallOk(call) && Modifies(call) && !Touches(call, k)
    ensures var after := Names(call, fid, d, names);
            (k.name in after <==> k.name in names) &&
            (k.name in names ==> after[k.name] == names[k.name])
  {
  }

  lemma GrantOk(c: Client.World, c': Client.World, call: Call, fid: Fid, times: Dir -> Time, expected: bool)
    requires ServerOk(c) && CallOk(call) && RpcOk(c, call, Grant(fid, times, expected, None))
    requires c'.hist == Serve(c, call, fid, times) && c'.attr == c.attr
    ensures ChangedOk(c', call, Changed(fid, |c.hist(Lead(call))|, times(Lead(call)), expected))
  {
    var d := Lead(call);
    var h := c.hist(d);
    assert DirOk(c, d) && InDir(call, d);
    var names := Names(call, fid, d, Now(c, d).names);
    assert c'.hist(d) == h + [Version(names, times(d))];
    if expected {
      assert c.attr(d).base == |h| - 1;
      forall k | DirOf(k) == d && !Touches(call, k) ensures SameAt(h[|h| - 1], c'.hist(d)[|h|], k.name) {
        NamesTouched(call, fid, d, h[|h| - 1].names, k);
      }
    }
  }

  /** A call that has its names dropped is still without them when the reply is in. */
  lemma StillGone(c: Client.World, tid: nat)
    requires CInv(c) && tid in c.stage && c.stage[tid].Begun? && c.stage[tid].todo == []
    ensures forall k :: k in Todo(c.stage[tid].call) ==> k !in c.w.last
  {
    forall k | k in Todo(c.stage[tid].call) ensures k !in c.w.last { assert GivenUp(c.stage[tid], k); }
  }

  lemma CalledInv(c: Client.World, tid: nat, call: Call, out: Outcome)
    requires CInv(c) && tid !in c.w.phase && tid in c.stage && c.stage[tid] == Begun(call, []) && RpcOk(c, call, out)
    ensures CInv(Called(c, tid, call, out))
  {
    AnsweredInv(c, tid, call, out);
    if (out.Lose? || out.Grant?) && out.moved.Some? {
      var c1, d := Answered(c, tid, call, out), Child(call, out.fid);
      ForeignInv(c1, Called(c, tid, call, out), d, out.moved.value);
    }
  }

  lemma AnsweredInv(c: Client.World, tid: nat, call: Call, out: Outcome)
    requires CInv(c) && tid !in c.w.phase && tid in c.stage && c.stage[tid] == Begun(call, []) && RpcOk(c, call, out)
    ensures CInv(Answered(c, tid, call, out))
  {
    match out
    case Lose(fid, times, moved) => LoseInv(c, tid, call, fid, times, moved);
    case Grant(fid, times, expected, moved) => GrantInv(c, tid, call, fid, times, expected, moved);
    case Refuse => ReplyInv(c, tid, call, Failed);
    case Read(fid) =>
      var d := Lead(call);
      var at := |c.hist(d)| - 1;
      var reply := if call.Lookup? then Found(fid, at) else Stat(at, Now(c, d).mtime);
      assert DirOk(c, d);
      assert StageOk(c, Replied(call, reply));
      ReplyInv(c, tid, call, reply);
  }

  lemma ReplyInv(c: Client.World, tid: nat, call: Call, reply: Reply)
    requires CInv(c) && tid !in c.w.phase && tid in c.stage && c.stage[tid] == Begun(call, [])
    requires StageOk(c, Replied(call, reply))
    ensures CInv(c.(stage := c.stage[tid := Replied(call, reply)]))
  {
    var c' := c.(stage := c.stage[tid := Replied(call, reply)]);
    StillGone(c, tid);
    assert OwnerOk(c, tid, c.stage[tid]);
    StageMono(c, c', Replied(call, reply));
    StepMono(c, c', tid);
  }

  lemma LoseInv(c: Client.World, tid: nat, call: Call, fid: Fid, times: Dir -> Time, moved: Option<Version>)
    requires CInv(c) && tid !in c.w.phase && tid in c.stage && c.stage[tid] == Begun(call, [])
    requires RpcOk(c, call, Lose(fid, times, moved))
    ensures CInv(Answered(c, tid, call, Lose(fid, times, moved)))
  {
    var c' := Answered(c, tid, call, Lose(fid, times, moved));
    StillGone(c, tid);
    assert OwnerOk(c, tid, c.stage[tid]);
    ServeExtends(c, c', call, fid, times);
    StepMono(c, c', tid);
  }

  lemma GrantInv(c: Client.World, tid: nat, call: Call, fid: Fid, times: Dir -> Time, expected: bool,
                 moved: Option<Version>)
    requires CInv(c) && tid !in c.w.phase && tid in c.stage && c.stage[tid] == Begun(call, [])
    requires RpcOk(c, call, Grant(fid, times, expected, moved))
    ensures CInv(Answered(c, tid, call, Grant(fid, times, expected, moved)))
  {
    var c' := Answered(c, tid, call, Grant(fid, times, expected, moved));
    StillGone(c, tid);
    assert OwnerOk(c, tid, c.stage[tid]);
    ServeExtends(c, c', call, fid, times);
    GrantOk(c, c', call, fid, times, expected);
    StepMono(c, c', tid);
  }

  lemma ForeignInv(c: Client.World, c': Client.World, d: Dir, v: Version)
    requires CInv(c) && NewTime(c.hist(d), v.mtime) && c' == c.(hist := c'.hist, tainted := c'.tainted)
    requires forall e :: c'.hist(e) == if e == d then c.hist(d) + [v] else c.hist(e)
    ensures CInv(c')
  {
    assert DirOk(c, d);
    DistinctMore(c.hist(d), v);
    forall e ensures Distinct(c'.hist(e)) { assert DirOk(c, e); }
    QuietMono(c, c');
  }

  // ---- Entering a translation ----

  lemma OpenInv(c: Client.World, c': Client.World, tid: nat, call: Call, fid: Fid, at: nat)
    requires CInv(c) && Shape(c.w) && tid !in c.w.phase && tid in c.stage
    requires c.stage[tid] == Replied(call, Found(fid, at)) && call.Lookup?
    requires Owns(c.w, tid, Lead(call)) && Owns(c.w, tid, Second(call))
    requires c' == c.(w := Unlocked(c.w, tid, call),
                      stage := c.stage[tid := Window(call, fid, at, c.attr(Lead(call)).mtime)])
    ensures CInv(c')
  {
    var d := Lead(call);
    assert DirOk(c, d) && StageOk(c, c.stage[tid]) && OwnerOk(c, tid, c.stage[tid]);
    assert c'.hist(d)[c.attr(d).base].mtime == c.attr(d).mtime;
    assert SaysAt(c', call.key, fid, at);
    UnlockEffect(c.w, tid, call);
    StepMono(c, c', tid);
  }

  lemma EndInv(c: Client.World, c': Client.World, tid: nat, call: Call)
    requires CInv(c) && Shape(c.w) && tid !in c.w.phase && tid in c.stage && c.stage[tid] == Ending(call)
    requires Owns(c.w, tid, Lead(call)) && Owns(c.w, tid, Second(call))
    requires c' == c.(w := Unlocked(c.w, tid, call), stage := c.stage - {tid})
    ensures CInv(c')
  {
    UnlockEffect(c.w, tid, call);
    StepMono(c, c', tid);
  }

  /** What a key's directory is locked by, no other thread can be adding to. */
  lemma NoOtherPends(c: Client.World, tid: nat, d: Dir)
    requires CInv(c) && Owns(c.w, tid, d) && tid !in c.w.phase
    ensures forall t, r :: Pends(c.w, t, r) && r.key.name != DOT ==> DirOf(r.key) != d
  {
    forall t, r | Pends(c.w, t, r) && r.key.name != DOT ensures DirOf(r.key) != d {
      assert OwnerOk(c, t, c.stage[t]);
    }
  }

  /** Two calls never hold the same directory. */
  lemma OneHolder(c: Client.World, a: nat, b: nat, d: Dir)
    requires OwnersOk(c) && a in c.stage && b in c.stage && !c.stage[a].Window? && !c.stage[b].Window?
    requires InDir(c.stage[a].call, d) && InDir(c.stage[b].call, d)
    ensures a == b
  {
    assert OwnerOk(c, a, c.stage[a]) && OwnerOk(c, b, c.stage[b]);
  }

  /** An add of a translation that is right in a version recent enough. */
  ghost predicate Added(c: Client.World, c': Client.World, tid: nat, k: Key, fid: Fid) {
    (forall j :: j in c'.w.last ==>
       if j == k then c'.w.last[j].fid == fid
       else j in c.w.last && c'.w.last[j].fid == c.w.last[j].fid) &&
    (forall t, q :: Pends(c'.w, t, q) ==> Pends(c.w, t, q) || (t == tid && q.key == k && q.fid == fid))
  }

  lemma AddedInv(c: Client.World, c': Client.World, tid: nat, call: Call, fid: Fid)
    requires CInv(c) && tid !in c.w.phase && tid in c.stage && !call.GetAttr? && CallOk(call)
    requires c'.hist == c.hist && c'.attr == c.attr && c'.stage == c.stage[tid := Ending(call)]
    requires forall k :: k in c.broken && k != Target(call) ==> k in c'.broken
    requires Added(c, c', tid, Target(call), fid) && FreshAt(c, Target(call), fid)
    requires forall k :: Midway(c, tid, k) ==> k == Target(call)
    requires Owns(c'.w, tid, Lead(call)) && Owns(c'.w, tid, Second(call))
    requires forall t, d :: t != tid && Owns(c.w, t, d) ==> Owns(c'.w, t, d)
    ensures CInv(c')
  {
    ServerMono(c, c');
    OwnersMono(c, c', tid);
    AddedPends(c, c', tid, call, fid);
    AddedGone(c, c', tid, call, fid);
    AddedCached(c, c', tid, call, fid);
    StagesMono(c, c', tid);
  }

  lemma AddedPends(c: Client.World, c': Client.World, tid: nat, call: Call, fid: Fid)
    requires PendsOk(c) && tid !in c.w.phase && tid in c.stage && !call.GetAttr? && Extends(c, c')
    requires c'.stage == c.stage[tid := Ending(call)] && Added(c, c', tid, Target(call), fid)
    requires FreshAt(c, Target(call), fid)
    ensures PendsOk(c')
  {
    forall t, r | Pends(c'.w, t, r) && r.key.name != DOT
      ensures t in c'.stage && c'.stage[t].Ending? && !c'.stage[t].call.GetAttr?
      ensures r.key == Target(c'.stage[t].call) && FreshAt(c', r.key, r.fid)
    {
      if Pends(c.w, t, r) { assert t != tid; }
      FreshMono(c, c', r.key, r.fid);
    }
  }

  lemma AddedGone(c: Client.World, c': Client.World, tid: nat, call: Call, fid: Fid)
    requires GoneOk(c) && OwnersOk(c') && tid in c.stage && !call.GetAttr?
    requires c'.stage == c.stage[tid := Ending(call)] && Added(c, c', tid, Target(call), fid)
    ensures GoneOk(c')
  {
    forall t, k | t in c'.stage && GivenUp(c'.stage[t], k) ensures k !in c'.w.last {
      assert t != tid && GivenUp(c.stage[t], k);
      if k == Target(call) {
        assert InDir(c'.stage[t].call, DirOf(k)) by { TodoInDir(c'.stage[t].call, k, c', t); }
        OneHolder(c', t, tid, DirOf(k));
      }
    }
  }

  lemma TodoInDir(call: Call, k: Key, c: Client.World, t: nat)
    requires k in Todo(call) && OwnersOk(c) && t in c.stage && c.stage[t].call == call
    ensures InDir(call, DirOf(k))
  {
    assert OwnerOk(c, t, c.stage[t]);
    if call.Rename? { assert k in Both(call.from) || k in Both(call.to); }
  }

  lemma AddedCached(c: Client.World, c': Client.World, tid: nat, call: Call, fid: Fid)
    requires CachedOk(c) && !call.GetAttr? && Extends(c, c') && tid in c.stage
    requires forall k :: k in c.broken && k != Target(call) ==> k in c'.broken
    requires c'.stage == c.stage[tid := Ending(call)] && Added(c, c', tid, Target(call), fid)
    requires FreshAt(c, Target(call), fid)
    requires forall k :: Midway(c, tid, k) ==> k == Target(call)
    ensures CachedOk(c')
  {
    forall k | k in c'.w.last && k.name != DOT && k !in c'.broken && (forall t :: !Midway(c', t, k))
      ensures FreshAt(c', k, c'.w.last[k].fid)
    {
      if k != Target(call) { assert forall t :: Midway(c, t, k) ==> Midway(c', t, k); }
      FreshMono(c, c', k, c'.w.last[k].fid);
    }
  }

  lemma EnteredInv(c: Client.World, tid: nat, st: Stage, r: Option<Req>)
    requires CInv(c) && Shape(c.w) && tid !in c.w.phase && tid in c.stage && c.stage[tid] == st && Entering(st)
    requires r.Some? ==> Fits(c.w, r.value, Target(st.call), Fetched(st))
    ensures CInv(Entered(c, tid, st.call, r))
  {
    var c' := Entered(c, tid, st.call, r);
    if r.Some? {
      EnteredAdd(c, c', tid, st, r.value);
    } else {
      assert OwnerOk(c, tid, st) && StageOk(c, st);
      StepMono(c, c', tid);
    }
  }

  lemma EnteredAdd(c: Client.World, c': Client.World, tid: nat, st: Stage, r: Req)
    requires CInv(c) && Shape(c.w) && tid !in c.w.phase && tid in c.stage && c.stage[tid] == st && Entering(st)
    requires Fits(c.w, r, Target(st.call), Fetched(st)) && c'.w == AddStep(c.w, tid, r)
    requires c'.hist == c.hist && c'.attr == c.attr && c'.stage == c.stage[tid := Ending(st.call)]
    requires c'.broken == c.broken - iset{Target(st.call)}
    ensures CInv(c')
  {
    assert OwnerOk(c, tid, st) && StageOk(c, st);
    assert FreshAt(c, Target(st.call), Fetched(st)) by {
      if st.Replied? { assert SaysAt(c, st.call.key, st.reply.fid, st.reply.at); }
    }
    assert Added(c, c', tid, Target(st.call), Fetched(st)) by { AddEffect(c.w, tid, r); }
    assert c'.w.locks == c.w.locks by { AddEffect(c.w, tid, r); }
    AddedInv(c, c', tid, st.call, Fetched(st));
  }

  /** The time saved before unlocking is still the cached one, so the answer is of a version recent enough. */
  lemma WindowFresh(c: Client.World, st: Stage)
    requires ServerOk(c) && st.Window? && StageOk(c, st) && StillGood(c.attr(Lead(st.call)), st.mtime)
    ensures FreshAt(c, st.call.key, st.fid)
  {
    var d := Lead(st.call);
    assert DirOk(c, d);
    var u :| 0 <= u <= st.at && u < |c.hist(d)| && c.hist(d)[u].mtime == st.mtime;
    assert u == c.attr(d).base;
    assert SaysAt(c, st.call.key, st.fid, st.at);
  }

  lemma RecheckedInv(c: Client.World, tid: nat, st: Stage, r: Option<Req>)
    requires CInv(c) && Shape(c.w) && tid !in c.w.phase && tid in c.stage && c.stage[tid] == st && st.Window?
    requires st.call.Lookup? && Lead(st.call) !in c.w.locks && (r.Some? ==> Fits(c.w, r.value, st.call.key, st.fid))
    ensures CInv(Rechecked(c, tid, st, r))
  {
    var w1 := Locked(c.w, tid, st.call);
    LockEffect(c.w, tid, st.call);
    assert OwnerOk(c, tid, st) && StageOk(c, st);
    if r.Some? && StillGood(c.attr(Lead(st.call)), st.mtime) {
      WindowFresh(c, st);
      ReenterInv(c, w1, tid, st, r.value);
    } else {
      StepMono(c, Rechecked(c, tid, st, r), tid);
    }
  }

  lemma ReenterInv(c: Client.World, w1: DncRun.World, tid: nat, st: Stage, r: Req)
    requires CInv(c) && tid !in c.w.phase && tid in c.stage && c.stage[tid] == st
    requires st.Window? && st.call.Lookup? && CallOk(st.call)
    requires Shape(w1) && SameCache(c.w, w1) && r.key == st.call.key && r.fid == st.fid && FreshAt(c, r.key, r.fid)
    requires Owns(w1, tid, Lead(st.call)) && forall t, d :: Owns(c.w, t, d) ==> Owns(w1, t, d)
    ensures CInv(c.(w := AddStep(w1, tid, r), stage := c.stage[tid := Ending(st.call)]))
  {
    var c' := c.(w := AddStep(w1, tid, r), stage := c.stage[tid := Ending(st.call)]);
    AddEffect(w1, tid, r);
    assert forall t, q :: Pends(w1, t, q) ==> Pends(c.w, t, q);
    AddedInv(c, c', tid, st.call, st.fid);
  }

  // ---- New attributes ----

  /** The directory's cached attributes move on to a later version, and its names go or were right before the change. */
  ghost predicate Moved(c: Client.World, c': Client.World, d: Dir, at: nat, gone: bool) {
    c'.hist == c.hist && c'.broken == c.broken &&
    (forall e ::
       if e == d then c'.attr(e).base == at
       else c'.attr(e).base == c.attr(e).base && c'.attr(e).mtime == c.attr(e).mtime) &&
    Kept(c.w, c'.w) && SamePends(c.w, c'.w) && c'.w.locks == c.w.locks &&
    (gone ==> forall k :: DirOf(k) == d ==> k !in c'.w.last)
  }

  lemma FreshElsewhere(c: Client.World, c': Client.World, d: Dir, at: nat, gone: bool, k: Key, fid: Fid)
    requires Moved(c, c', d, at, gone) && FreshAt(c, k, fid) && DirOf(k) != d
    ensures FreshAt(c', k, fid)
  {
    var v :| c.attr(DirOf(k)).base <= v && SaysAt(c, k, fid, v);
    assert SaysAt(c', k, fid, v);
  }

  /** A name the call did not touch was right just before the change, so it is right just after. */
  lemma FreshAcross(c: Client.World, c': Client.World, call: Call, at: nat, k: Key, fid: Fid)
    requires Moved(c, c', Lead(call), at, false) && FreshAt(c, k, fid) && DirOf(k) == Lead(call)
    requires at < |c.hist(Lead(call))| && (at == c.attr(Lead(call)).base ||
      (at == c.attr(Lead(call)).base + 1 && OnlyTouched(c.hist(Lead(call))[at - 1], c.hist(Lead(call))[at], call) &&
       !Touches(call, k)))
    ensures FreshAt(c', k, fid)
  {
    var v :| c.attr(DirOf(k)).base <= v && SaysAt(c, k, fid, v);
    assert SaysAt(c', k, fid, v);
    if v < at { assert SaysAt(c', k, fid, at); }
  }

  /** Why names outside the call survive the move: all gone, or nothing changed, or only the call's own names did. */
  ghost predicate Covered(c: Client.World, call: Call, at: nat, gone: bool) {
    var h, base := c.hist(Lead(call)), c.attr(Lead(call)).base;
    at < |h| && (gone || at == base || (at == base + 1 && OnlyTouched(h[base], h[at], call)))
  }

  lemma MovedCached(c: Client.World, c': Client.World, tid: nat, call: Call, at: nat, gone: bool)
    requires CachedOk(c) && Moved(c, c', Lead(call), at, gone) && Covered(c, call, at, gone) && Restaged(c, c', tid)
    requires forall k :: !Midway(c, tid, k)
    requires forall k :: Touches(call, k) && k in c'.w.last ==> Midway(c', tid, k)
    ensures CachedOk(c')
  {
    forall k | k in c'.w.last && k.name != DOT && k !in c'.broken && (forall t :: !Midway(c', t, k))
      ensures FreshAt(c', k, c'.w.last[k].fid)
    {
      assert forall t :: Midway(c, t, k) ==> Midway(c', t, k);
      if DirOf(k) != Lead(call) {
        FreshElsewhere(c, c', Lead(call), at, gone, k, c.w.last[k].fid);
      } else {
        FreshAcross(c, c', call, at, k, c.w.last[k].fid);
      }
    }
  }

  lemma MovedPends(c: Client.World, c': Client.World, tid: nat, call: Call, at: nat, gone: bool)
    requires CInv(c) && Moved(c, c', Lead(call), at, gone) && Restaged(c, c', tid)
    requires tid !in c.w.phase && Owns(c.w, tid, Lead(call))
    ensures PendsOk(c')
  {
    NoOtherPends(c, tid, Lead(call));
    forall t, r | Pends(c'.w, t, r) && r.key.name != DOT
      ensures t in c'.stage && c'.stage[t].Ending? && !c'.stage[t].call.GetAttr?
      ensures r.key == Target(c'.stage[t].call) && FreshAt(c', r.key, r.fid)
    {
      assert Pends(c.w, t, r) && t != tid;
      FreshElsewhere(c, c', Lead(call), at, gone, r.key, r.fid);
    }
  }

  lemma StageElsewhere(c: Client.World, c': Client.World, d: Dir, at: nat, gone: bool, st: Stage)
    requires Moved(c, c', d, at, gone) && StageOk(c, st) && (st.Window? || Lead(st.call) != d)
    ensures StageOk(c', st)
  {
    match st
    case Settled(call, fid) => FreshElsewhere(c, c', d, at, gone, Target(call), fid);
    case Window(call, fid, v, mtime) =>
      var e := Lead(call);
      var u :| 0 <= u <= v && u < |c.hist(e)| && c.hist(e)[u].mtime == mtime;
      assert c'.hist(e)[u].mtime == mtime;
      assert SaysAt(c', call.key, fid, v);
    case Replied(call, reply) =>
      if reply.Changed? { assert ChangedOk(c', call, reply); }
    case _ =>
  }

  lemma MovedStages(c: Client.World, c': Client.World, tid: nat, call: Call, at: nat, gone: bool)
    requires StagesOk(c) && OwnersOk(c) && Moved(c, c', Lead(call), at, gone) && Restaged(c, c', tid)
    requires tid in c.stage && c.stage[tid].call == call && !c.stage[tid].Window?
    requires tid in c'.stage && StageOk(c', c'.stage[tid])
    ensures StagesOk(c')
  {
    forall t | t in c'.stage ensures StageOk(c', c'.stage[t]) {
      if t != tid {
        if !c.stage[t].Window? && Lead(c.stage[t].call) == Lead(call) { OneHolder(c, t, tid, Lead(call)); }
        StageElsewhere(c, c', Lead(call), at, gone, c.stage[t]);
      }
    }
  }

  lemma MovedInv(c: Client.World, c': Client.World, tid: nat, call: Call, at: nat, gone: bool, st: Stage)
    requires CInv(c) && Moved(c, c', Lead(call), at, gone) && Covered(c, call, at, gone)
    requires tid !in c.w.phase && tid in c.stage && c.stage[tid].Replied? && c.stage[tid].call == call
    requires c'.stage == c.stage[tid := st] && st.call == call && StageOk(c', st) && (st.Ending? || st.Settled?)
    requires Modifies(call) ==> if Adds(call) then st.Settled? else st.Ending?
    requires c.hist(Lead(call))[at].mtime == c'.attr(Lead(call)).mtime
    ensures CInv(c')
  {
    assert OwnerOk(c, tid, c.stage[tid]);
    forall d ensures DirOk(c', d) { assert DirOk(c, d); }
    OwnersMono(c, c', tid);
    MovedPends(c, c', tid, call, at, gone);
    forall k | k in Todo(call) ensures k !in c'.w.last { assert GivenUp(c.stage[tid], k); }
    GoneMono(c, c', tid);
    forall k | Touches(call, k) && k in c'.w.last ensures Midway(c', tid, k) {
      TouchedTodo(call, k);
    }
    MovedCached(c, c', tid, call, at, gone);
    MovedStages(c, c', tid, call, at, gone);
  }

  lemma TouchedTodo(call: Call, k: Key)
    requires Touches(call, k)
    ensures if Adds(call) then k == Target(call) else k in Todo(call)
  {
    if call.Unlink? { assert Both(k)[0] == k; }
    if call.Rename? { assert Both(call.from)[0] == call.from && Both(call.to)[0] == call.to; }
  }

  lemma RefreshedMoves(c: Client.World, c': Client.World, d: Dir, at: nat, mtime: Time, expected: bool)
    requires Shape(c.w) && !d.root && c'.(stage := c.stage) == Refreshed(c, d, at, mtime, expected)
    ensures Moved(c, c', d, at, c.attr(d).mtime != mtime && !expected) && c'.attr(d).mtime == mtime
  {
    var w' := Apply(c.w, InvalVnode(d.view, d.vfs, d.dfid));
    assert Kept(c.w, w') && SamePends(c.w, w') && w'.locks == c.w.locks by {
      InvalEffect(c.w, InvalVnode(d.view, d.vfs, d.dfid));
    }
    forall k | DirOf(k) == d ensures k !in w'.last { InvalDirEffect(c.w, d, k); }
  }

  lemma SettlingInv(c: Client.World, tid: nat, call: Call, reply: Reply)
    requires CInv(c) && Shape(c.w) && tid !in c.w.phase && tid in c.stage
    requires c.stage[tid] == Replied(call, reply) && !reply.Found?
    ensures CInv(Settling(c, tid, call, reply))
  {
    assert OwnerOk(c, tid, c.stage[tid]) && StageOk(c, c.stage[tid]) && DirOk(c, Lead(call));
    var c1 := c.(attr := Doubted(c.attr, call));
    match reply
    case Failed => StepMono(c, c1.(stage := c.stage[tid := Ending(call)]), tid);
    case Changed(fid, at, mtime, expected) =>
      var st := if Adds(call) then Settled(call, fid) else Ending(call);
      SettleAt(c, c1, tid, call, at, mtime, expected, st);
    case Stat(at, mtime) => SettleAt(c, c1, tid, call, at, mtime, false, Ending(call));
  }

  lemma SettleAt(c: Client.World, c1: Client.World, tid: nat, call: Call, at: nat, mtime: Time, expected: bool,
                 st: Stage)
    requires CInv(c) && Shape(c.w) && tid !in c.w.phase && tid in c.stage
    requires c.stage[tid].Replied? && c.stage[tid].call == call
    requires c1 == c.(attr := Doubted(c.attr, call)) && CallOk(call) && DirOk(c, Lead(call))
    requires var h := c.hist(Lead(call)); at < |h| && h[at].mtime == mtime
    requires expected ==> Covered(c, call, at, false)
    requires if Adds(call) then st.Settled? && st.call == call else st == Ending(call)
    requires Adds(call) ==> SaysAt(c, Target(call), st.fid, at)
    ensures CInv(Refreshed(c1, Lead(call), at, mtime, expected).(stage := c.stage[tid := st]))
  {
    var d := Lead(call);
    var c' := Refreshed(c1, d, at, mtime, expected).(stage := c.stage[tid := st]);
    RefreshedMoves(c1, c', d, at, mtime, expected);
    var gone := c.attr(d).mtime != mtime && !expected;
    assert Moved(c, c', d, at, gone);
    if Adds(call) { assert SaysAt(c', Target(call), st.fid, at); }
    MovedInv(c, c', tid, call, at, gone, st);
  }

  // ---- Cache steps that belong to no call ----

  /** Apart from VOB roots, nothing is entered but what some thread is adding, and calls keep their locks. */
  ghost predicate Gentle(c: Client.World, w': DncRun.World) {
    var w := c.w;
    (forall k :: k in w'.last && k.name != DOT ==>
       (k in w.last && w'.last[k].fid == w.last[k].fid) ||
       exists t, r :: Pends(w, t, r) && r.key == k && w'.last[k].fid == r.fid) &&
    (forall t, r :: Pends(w', t, r) && r.key.name != DOT ==> Pends(w, t, r)) &&
    (forall t: nat, d: Dir :: t in c.stage && !d.root && Owns(w, t, d) ==> Owns(w', t, d))
  }

  lemma GentleStep(c: Client.World, s: Step)
    requires Shape(c.w) && Enabled(c.w, s) && Aside(c, s)
    ensures Gentle(c, Apply(c.w, s))
  {
    var w := c.w;
    match s
    case Add(tid, r) => AddEffect(w, tid, r);
    case Continue(tid) => ContinueEffect(w, tid);
    case AddFlag(_, k, f) => FlagEffect(w, k, f);
    case InvalVnode(_, _, _) => InvalEffect(w, s);
    case InvalView(_) => InvalEffect(w, s);
    case InvalNotFound => InvalEffect(w, s);
    case RootFlush(_, _) => InvalEffect(w, s);
    case _ =>
  }

  lemma GentleInv(c: Client.World, c': Client.World)
    requires CInv(c) && c' == c.(w := c'.w) && Gentle(c, c'.w)
    ensures CInv(c')
  {
    GentlePends(c, c');
    GentleGone(c, c');
    GentleCached(c, c');
    forall d ensures DirOk(c', d) { assert DirOk(c, d); }
    forall t | t in c'.stage ensures OwnerOk(c', t, c'.stage[t]) && StageOk(c', c'.stage[t]) {
      assert OwnerOk(c, t, c.stage[t]);
      StageMono(c, c', c.stage[t]);
    }
  }

  lemma GentlePends(c: Client.World, c': Client.World)
    requires PendsOk(c) && c' == c.(w := c'.w) && Gentle(c, c'.w)
    ensures PendsOk(c')
  {
    forall t, r | Pends(c'.w, t, r) && r.key.name != DOT
      ensures t in c'.stage && c'.stage[t].Ending? && !c'.stage[t].call.GetAttr?
      ensures r.key == Target(c'.stage[t].call) && FreshAt(c', r.key, r.fid)
    {
      FreshMono(c, c', r.key, r.fid);
    }
  }

  lemma GentleGone(c: Client.World, c': Client.World)
    requires GoneOk(c) && PendsOk(c) && OwnersOk(c) && c' == c.(w := c'.w) && Gentle(c, c'.w)
    ensures GoneOk(c')
  {
    forall t, k | t in c'.stage && GivenUp(c'.stage[t], k) ensures k !in c'.w.last {
      TodoInDir(c.stage[t].call, k, c, t);
      assert OwnerOk(c, t, c.stage[t]) && k.name != DOT;
      if k in c'.w.last {
        var u, r :| Pends(c.w, u, r) && r.key == k;
        OneHolder(c, t, u, DirOf(k));
      }
    }
  }

  lemma GentleCached(c: Client.World, c': Client.World)
    requires CachedOk(c) && PendsOk(c) && c' == c.(w := c'.w) && Gentle(c, c'.w)
    ensures CachedOk(c')
  {
    forall k | k in c'.w.last && k.name != DOT && k !in c'.broken && (forall t :: !Midway(c', t, k))
      ensures FreshAt(c', k, c'.w.last[k].fid)
    {
      assert forall t :: Midway(c, t, k) ==> Midway(c', t, k);
      FreshMono(c, c', k, c'.w.last[k].fid);
    }
  }

  /** Every step of every client keeps the invariant. */
  lemma ActInv(c: Client.World, a: Act)
    requires CInv(c) && Shape(c.w) && CanDo(c, a)
    ensures CInv(Do(c, a))
  {
    match a
    case Begin(tid, call) => BeginInv(c, tid, call);
    case Drop(tid) => DropInv(c, tid, c.stage[tid].call, c.stage[tid].todo);
    case Rpc(tid, out) => CalledInv(c, tid, c.stage[tid].call, out);
    case Settle(tid) => SettlingInv(c, tid, c.stage[tid].call, c.stage[tid].reply);
    case Enter(tid, r) => EnteredInv(c, tid, c.stage[tid], r);
    case Open(tid) => OpenInv(c, Do(c, a), tid, c.stage[tid].call, c.stage[tid].reply.fid, c.stage[tid].reply.at);
    case Recheck(tid, r) => RecheckedInv(c, tid, c.stage[tid], r);
    case End(tid) => EndInv(c, Do(c, a), tid, c.stage[tid].call);
    case Foreign(d, v) => ForeignInv(c, Do(c, a), d, v);
    case Cache(s) =>
      GentleStep(c, s);
      GentleInv(c, Do(c, a));
  }
}
