/**
  The client's directory operations against a view server.

  A thread locks the directory, drops cached names where the operation does so
  before the call, calls the server, settles the directory's cached attributes from
  the reply, enters the resulting translation and unlocks.  Between any two of these
  steps other threads act, and so do other clients of the server.

  The server keeps every version of a directory listing; each change has a
  modification time not used before for that directory.  `tainted` collects the
  names whose listing changed without the cache being told: by another client, by a
  call whose reply was lost, because no vnode could be made for a new object, or, for
  "..", because a rename moved the directory itself to another parent.
  `broken` collects the last kind alone.  A name leaves both when it is entered again.
 */
module Client {
  import opened BuildHandles
  import opened DncRun
  import opened DncTable
  import opened DncTheorems
  import opened NameHash

  datatype Version = Version(names: map<Name, Fid>, mtime: Time)

  /** Cached attributes: `base` is the version that the cached time belongs to. */
  datatype Attr = Attr(mtime: Time, valid: bool, base: nat)

  datatype Call =
    | Lookup(key: Key)
    | Make(key: Key)             // create and mkdir
    | Link(key: Key)
    | Symlink(key: Key)
    | Unlink(key: Key)           // remove and rmdir
    | Rename(from: Key, to: Key)
    | GetAttr(dir: Dir)

  datatype Reply =
    | Failed                                                      // any error
    | Changed(fid: Fid, at: nat, mtime: Time, expected: bool)     // a directory change, with new attributes
    | Found(fid: Fid, at: nat)                                    // a lookup; the null fid if there is none
    | Stat(at: nat, mtime: Time)

  datatype Stage =
    | Begun(call: Call, todo: seq<Key>)
    | Replied(call: Call, reply: Reply)
    | Settled(call: Call, fid: Fid)
    | Window(call: Call, fid: Fid, at: nat, mtime: Time)   // ".." answered, directory unlocked
    | Ending(call: Call)

  datatype World = World(
    w: DncRun.World, hist: Dir -> seq<Version>, attr: Dir -> Attr, stage: map<nat, Stage>,
    tainted: iset<Key>, broken: iset<Key>)

  const DOTDOT: Name := [46, 46]
  const HISTORY: Name := [64, 64]

  // ---- Calls ----

  function Target(call: Call): Key
    requires !call.GetAttr?
  {
    if call.Rename? then call.to else call.key
  }

  /** The directory whose attributes the reply carries. */
  function Lead(call: Call): Dir { if call.GetAttr? then call.dir else DirOf(Target(call)) }

  function Second(call: Call): Dir { if call.Rename? then DirOf(call.from) else Lead(call) }

  predicate InDir(call: Call, d: Dir) { d == Lead(call) || d == Second(call) }

  /** The names the server changes. */
  predicate Touches(call: Call, k: Key) {
    !call.GetAttr? && !call.Lookup? && (k == Target(call) || (call.Rename? && k == call.from))
  }

  predicate Adds(call: Call) { call.Make? || call.Link? || call.Symlink? }

  /** mfs_dncremove drops a name and its history-mode form. */
  function Both(k: Key): seq<Key> { [k, k.(name := k.name + HISTORY)] }

  function Todo(call: Call): seq<Key> {
    match call
    case Symlink(k) => Both(k)
    case Unlink(k) => Both(k)
    case Rename(a, b) => Both(a) + Both(b)
    case _ => []
  }

  predicate NameOk(k: Key) { k.name != [] && k.name != DOT }

  predicate CallOk(call: Call) {
    !Lead(call).root && !Second(call).root &&
    match call
    case GetAttr(_) => true
    case Rename(a, b) => NameOk(a) && NameOk(b) && a.view == b.view && a.vfs == b.vfs
    case _ => NameOk(call.key)
  }

  /** Names whose translation leads up the tree: the directory is unlocked while the vnode is made. */
  predicate Upward(k: Key) { k.name == DOTDOT || k.name == DOTDOT + HISTORY }

  // ---- The server ----

  predicate Says(v: Version, n: Name, fid: Fid) {
    if n in v.names then fid == v.names[n] else fid.IsNull()
  }

  predicate SameAt(a: Version, b: Version, n: Name) {
    (n in a.names <==> n in b.names) && (n in a.names ==> a.names[n] == b.names[n])
  }

  ghost function Now(c: World, d: Dir): Version
    requires c.hist(d) != []
  {
    c.hist(d)[|c.hist(d)| - 1]
  }

  function Names(call: Call, fid: Fid, d: Dir, names: map<Name, Fid>): map<Name, Fid> {
    var less := if call.Unlink? && d == DirOf(call.key) then names - {call.key.name}
                else if call.Rename? && d == DirOf(call.from) then names - {call.from.name} else names;
    if (Adds(call) || call.Rename?) && d == DirOf(Target(call)) then less[Target(call).name := fid] else less
  }

  predicate NewTime(h: seq<Version>, t: Time) { forall v :: 0 <= v < |h| ==> h[v].mtime != t }

  ghost predicate CanServe(c: World, call: Call, fid: Fid, times: Dir -> Time) {
    forall d :: InDir(call, d) ==> c.hist(d) != [] && NewTime(c.hist(d), times(d))
  }

  /** The listing after the server carries out a call. */
  ghost function Serve(c: World, call: Call, fid: Fid, times: Dir -> Time): Dir -> seq<Version>
    requires CanServe(c, call, fid, times)
  {
    (d: Dir) => if InDir(call, d) && c.hist(d) != [] then
                  c.hist(d) + [Version(Names(call, fid, d, c.hist(d)[|c.hist(d)| - 1].names), times(d))]
                else c.hist(d)
  }

  /** `moved` is the new listing of a directory that a rename moves to another parent. */
  datatype Outcome =
    | Refuse
    | Lose(fid: Fid, times: Dir -> Time, moved: Option<Version>)
    | Grant(fid: Fid, times: Dir -> Time, expected: bool, moved: Option<Version>)
    | Read(fid: Fid)

  /** The renamed object, as a directory. */
  function Child(call: Call, fid: Fid): Dir
    requires call.Rename?
  {
    Dir(call.to.view, call.to.vfs, fid, false)
  }

  /** Only the way up has changed, and leads to the new parent. */
  ghost predicate Reparents(a: Version, b: Version, parent: Fid) {
    DOTDOT in b.names && b.names[DOTDOT] == parent &&
    forall n :: n != DOTDOT && n != DOTDOT + HISTORY ==> SameAt(a, b, n)
  }

  ghost predicate MoveOk(c: World, call: Call, fid: Fid, moved: Option<Version>) {
    moved.Some? ==>
      call.Rename? && DirOf(call.from) != DirOf(call.to) && !InDir(call, Child(call, fid)) &&
      c.hist(Child(call, fid)) != [] && NewTime(c.hist(Child(call, fid)), moved.value.mtime) &&
      Reparents(Now(c, Child(call, fid)), moved.value, call.to.dfid)
  }

  // ---- Steps ----

  datatype Act =
    | Begin(tid: nat, call: Call)
    | Drop(tid: nat)
    | Rpc(tid: nat, out: Outcome)
    | Settle(tid: nat)
    | Enter(tid: nat, req: Option<Req>)     // no request when the vnode could not be made
    | Open(tid: nat)
    | Recheck(tid: nat, req: Option<Req>)
    | End(tid: nat)
    | Foreign(dir: Dir, version: Version)
    | Cache(step: Step)

  predicate Modifies(call: Call) { !call.Lookup? && !call.GetAttr? }

  /** A request that enters the translation of a key. */
  ghost predicate Fits(w: DncRun.World, r: Req, k: Key, fid: Fid) {
    r.key == k && r.fid == fid && ReqOk(w.target, r)
  }

  /**
    A cache step that is not part of a directory operation.  A thread without one may
    lock a directory by itself, to flag its entries.
   */
  ghost predicate Aside(c: World, s: Step) {
    match s
    case Lock(tid, d) => d.root || tid !in c.stage
    case Unlock(tid, d) => d.root || tid !in c.stage
    case Add(_, r) => r.key.name == DOT
    case Remove(_, _) => false
    case _ => true
  }

  ghost predicate Idle(c: World, tid: nat) { tid in c.stage && tid !in c.w.phase }

  ghost predicate RpcOk(c: World, call: Call, out: Outcome) {
    match out
    case Refuse => true
    case Lose(fid, times, moved) => Modifies(call) && CanServe(c, call, fid, times) && MoveOk(c, call, fid, moved)
    case Grant(fid, times, expected, moved) =>
      Modifies(call) && CanServe(c, call, fid, times) && MoveOk(c, call, fid, moved) &&
      (expected ==> Now(c, Lead(call)).mtime == c.attr(Lead(call)).mtime)
    case Read(fid) =>
      !Modifies(call) && c.hist(Lead(call)) != [] && (call.Lookup? ==> Says(Now(c, Lead(call)), call.key.name, fid))
  }

  /** A lookup that may be entered without giving up the lock. */
  predicate Direct(k: Key, fid: Fid) { fid.IsNull() || fid == k.dfid || !Upward(k) }

  ghost predicate CanDo(c: World, a: Act) {
    match a
    case Begin(tid, call) =>
      tid !in c.stage && tid !in c.w.phase && CallOk(call) && Lead(call) !in c.w.locks && Second(call) !in c.w.locks
    case Drop(tid) =>
      Idle(c, tid) && c.stage[tid].Begun? && c.stage[tid].todo != [] &&
      Enabled(c.w, Step.Remove(tid, c.stage[tid].todo[0]))
    case Rpc(tid, out) =>
      Idle(c, tid) && c.stage[tid].Begun? && c.stage[tid].todo == [] && RpcOk(c, c.stage[tid].call, out)
    case Settle(tid) =>
      Idle(c, tid) && c.stage[tid].Replied? && !c.stage[tid].reply.Found?
    case Enter(tid, r) =>
      Idle(c, tid) && !c.stage[tid].Begun? && Entering(c.stage[tid]) &&
      (r.Some? ==> Fits(c.w, r.value, Target(c.stage[tid].call), Fetched(c.stage[tid])) &&
                   Enabled(c.w, Add(tid, r.value))) &&
      (r.None? ==> !c.stage[tid].call.Link?)
    case Open(tid) =>
      Idle(c, tid) && c.stage[tid].Replied? && c.stage[tid].reply.Found? && c.stage[tid].call.Lookup? &&
      !Direct(c.stage[tid].call.key, c.stage[tid].reply.fid) && Owns(c.w, tid, Lead(c.stage[tid].call))
    case Recheck(tid, r) =>
      Idle(c, tid) && c.stage[tid].Window? && c.stage[tid].call.Lookup? && Lead(c.stage[tid].call) !in c.w.locks &&
      (r.Some? ==> Fits(c.w, r.value, c.stage[tid].call.key, c.stage[tid].fid))
    case End(tid) =>
      Idle(c, tid) && c.stage[tid].Ending? && Owns(c.w, tid, Lead(c.stage[tid].call)) &&
      Owns(c.w, tid, Second(c.stage[tid].call))
    case Foreign(d, v) => !d.root && c.hist(d) != [] && NewTime(c.hist(d), v.mtime)
    case Cache(s) => Aside(c, s) && Enabled(c.w, s)
  }

  predicate Entering(st: Stage) {
    if st.Settled? then Adds(st.call)
    else st.Replied? && st.reply.Found? && st.call.Lookup? && Direct(st.call.key, st.reply.fid)
  }

  function Fetched(st: Stage): Fid
    requires Entering(st)
  {
    if st.Settled? then st.fid else st.reply.fid
  }

  ghost function Locked(w: DncRun.World, tid: nat, call: Call): DncRun.World
    requires Shape(w) && Lead(call) !in w.locks && Second(call) !in w.locks
  {
    var w1 := Apply(w, Step.Lock(tid, Lead(call)));
    if Second(call) == Lead(call) then w1 else Apply(w1, Step.Lock(tid, Second(call)))
  }

  ghost function Unlocked(w: DncRun.World, tid: nat, call: Call): DncRun.World
    requires Shape(w) && tid !in w.phase && Owns(w, tid, Lead(call)) && Owns(w, tid, Second(call))
  {
    var w1 := Apply(w, Step.Unlock(tid, Lead(call)));
    if Second(call) == Lead(call) then w1 else Apply(w1, Step.Unlock(tid, Second(call)))
  }

  /** The listing of a directory changes behind the cache's back. */
  ghost function Elsewhere(c: World, d: Dir, v: Version): World
    requires c.hist(d) != []
  {
    c.(hist := (e: Dir) => if e == d then c.hist(d) + [v] else c.hist(e),
       tainted := c.tainted + iset k | DirOf(k) == d && !SameAt(Now(c, d), v, k.name))
  }

  ghost function Called(c: World, tid: nat, call: Call, out: Outcome): World
    requires RpcOk(c, call, out)
  {
    var c1 := Answered(c, tid, call, out);
    if (out.Lose? || out.Grant?) && out.moved.Some? then Elsewhere(c1, Child(call, out.fid), out.moved.value) else c1
  }

  /** What a call does to the directories it names, and the reply. */
  ghost function Answered(c: World, tid: nat, call: Call, out: Outcome): World
    requires RpcOk(c, call, out)
  {
    match out
    case Refuse => c.(stage := c.stage[tid := Replied(call, Failed)])
    case Lose(fid, times, _) =>
      c.(hist := Serve(c, call, fid, times), stage := c.stage[tid := Replied(call, Failed)],
         tainted := c.tainted + iset k | Touches(call, k))
    case Grant(fid, times, expected, _) =>
      c.(hist := Serve(c, call, fid, times),
         stage := c.stage[tid := Replied(call, Changed(fid, |c.hist(Lead(call))|, times(Lead(call)), expected))])
    case Read(fid) =>
      var at := |c.hist(Lead(call))| - 1;
      var reply := if call.Lookup? then Found(fid, at) else Stat(at, Now(c, Lead(call)).mtime);
      c.(stage := c.stage[tid := Replied(call, reply)])
  }

  /** MFS_ATTRINVAL, after any reply: creating calls on their directory, rename on the one it takes the name from. */
  function Doubted(attr: Dir -> Attr, call: Call): Dir -> Attr {
    if call.Make? || call.Symlink? || call.Rename? then
      (d: Dir) => if d == Second(call) then attr(d).(valid := false) else attr(d)
    else attr
  }

  /** mvfs_attrcache: keep the new attributes, and drop the directory's names on a change nobody here made. */
  ghost function Refreshed(c: World, d: Dir, at: nat, mtime: Time, expected: bool): World
    requires Shape(c.w)
  {
    c.(attr := (e: Dir) => if e == d then Attr(mtime, true, at) else c.attr(e),
       w := if c.attr(d).mtime != mtime && !expected then Apply(c.w, InvalVnode(d.view, d.vfs, d.dfid)) else c.w)
  }

  ghost function Settling(c: World, tid: nat, call: Call, reply: Reply): World
    requires Shape(c.w) && !reply.Found?
  {
    var c1 := c.(attr := Doubted(c.attr, call));
    match reply
    case Failed => c1.(stage := c.stage[tid := Ending(call)])
    case Changed(fid, at, mtime, expected) =>
      var st := if Adds(call) then Settled(call, fid) else Ending(call);
      Refreshed(c1, Lead(call), at, mtime, expected).(stage := c.stage[tid := st])
    case Stat(at, mtime) => Refreshed(c1, Lead(call), at, mtime, false).(stage := c.stage[tid := Ending(call)])
  }

  /** No ".." lookup of this name has its directory unlocked. */
  ghost predicate NoWindow(c: World, k: Key) {
    forall t :: t in c.stage && c.stage[t].Window? && !c.stage[t].call.GetAttr? ==> Target(c.stage[t].call) != k
  }

  /** A name just entered as the directory has it now is no longer tainted. */
  ghost function Vouched(c: World, k: Key, fid: Fid): World {
    if c.hist(DirOf(k)) != [] && Says(Now(c, DirOf(k)), k.name, fid) && NoWindow(c, k) then
      c.(tainted := c.tainted - iset{k})
    else
      c
  }

  ghost function Entered(c: World, tid: nat, call: Call, r: Option<Req>): World
    requires Shape(c.w) && !call.GetAttr?
  {
    if r.Some? then Vouched(c.(w := AddStep(c.w, tid, r.value), stage := c.stage[tid := Ending(call)],
                               broken := c.broken - iset{Target(call)}), Target(call), r.value.fid)
    else
      var lost := iset k | k == Target(call) && Modifies(call) && k in c.w.last;
      c.(stage := c.stage[tid := Ending(call)], tainted := c.tainted + lost, broken := c.broken + lost)
  }

  /** The test made on locking the directory again: its attributes are valid, with the time saved before. */
  predicate StillGood(attr: Attr, mtime: Time) { attr.valid && attr.mtime == mtime }

  ghost function Rechecked(c: World, tid: nat, st: Stage, r: Option<Req>): World
    requires Shape(c.w) && st.Window? && st.call.Lookup? && Lead(st.call) !in c.w.locks
  {
    var c1 := c.(w := Locked(c.w, tid, st.call), stage := c.stage[tid := Ending(st.call)]);
    if r.Some? && StillGood(c.attr(Lead(st.call)), st.mtime) then c1.(w := AddStep(c1.w, tid, r.value)) else c1
  }

  ghost function Do(c: World, a: Act): World
    requires Shape(c.w) && CanDo(c, a)
  {
    match a
    case Begin(tid, call) => c.(w := Locked(c.w, tid, call), stage := c.stage[tid := Begun(call, Todo(call))])
    case Drop(tid) =>
      var st := c.stage[tid];
      c.(w := Apply(c.w, Step.Remove(tid, st.todo[0])), stage := c.stage[tid := Begun(st.call, st.todo[1..])])
    case Rpc(tid, out) => Called(c, tid, c.stage[tid].call, out)
    case Settle(tid) => Settling(c, tid, c.stage[tid].call, c.stage[tid].reply)
    case Enter(tid, r) => Entered(c, tid, c.stage[tid].call, r)
    case Open(tid) =>
      var st := c.stage[tid];
      c.(w := Unlocked(c.w, tid, st.call),
         stage := c.stage[tid := Window(st.call, st.reply.fid, st.reply.at, c.attr(Lead(st.call)).mtime)])
    case Recheck(tid, r) => Rechecked(c, tid, c.stage[tid], r)
    case End(tid) => c.(w := Unlocked(c.w, tid, c.stage[tid].call), stage := c.stage - {tid})
    case Foreign(d, v) => Elsewhere(c, d, v)
    case Cache(s) => c.(w := Apply(c.w, s))
  }
}
