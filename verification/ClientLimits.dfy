/**
  Runs that end with the cache wrong about a name, without another client and without
  a lost reply: a create whose vnode cannot be made, and a ".." lookup during which its
  directory is moved.
 */
module ClientLimits {
  import opened BuildHandles
  import opened Client
  import opened ClientAgreement
  import opened ClientCache
  import opened ClientProofs
  import opened ClientTheorems
  import opened ClientUpward
  import opened DncLimits
  import opened DncRun
  import opened DncTable
  import opened DncTheorems
  import opened NameHash

  ghost predicate Played(c: Client.World) { exists cs, acts :: PlaysTo(cs, acts, c) }

  ghost predicate PlaysTo(cs: seq<Client.World>, acts: seq<Act>, c: Client.World) { Play(cs, acts) && cs[|acts|] == c }

  lemma PlayedInv(c: Client.World)
    requires Played(c)
    ensures Reachable(c.w) && Shape(c.w)
  {
    var cs, acts :| PlaysTo(cs, acts, c);
    PlayInv(cs, acts, |acts|);
    assert Shape(c.w) by { ReachableInv(c.w); }
  }

  lemma PlayedOn(c: Client.World, a: Act, c': Client.World)
    requires Played(c) && Shape(c.w) && CanDo(c, a) && c' == Do(c, a)
    ensures Played(c') && Shape(c'.w)
  {
    assert Played(c') by { PlayedMore(c, a, c'); }
    PlayedInv(c');
  }

  lemma PlayedMore(c: Client.World, a: Act, c': Client.World)
    requires Played(c) && Shape(c.w) && CanDo(c, a) && c' == Do(c, a)
    ensures Played(c')
  {
    var cs, acts :| PlaysTo(cs, acts, c);
    var ds, bs := cs + [c'], acts + [a];
    forall n | 0 <= n < |bs| ensures Moves(ds[n], bs[n], ds[n + 1]) {
      if n < |acts| { assert Moves(cs[n], acts[n], cs[n + 1]); } else { assert Moves(c, a, c'); }
    }
    assert PlaysTo(ds, bs, c');
  }

  /** Everything but the cache is as in c, and so are the cache's locks. */
  ghost predicate Outside(c: Client.World, c': Client.World) { c' == c.(w := c'.w) && c'.w.locks == c.w.locks }

  /** One stretch of a thread's cache operation. */
  lemma Stretch(c: Client.World, tid: nat) returns (c': Client.World)
    requires Played(c) && Shape(c.w) && tid in c.w.phase
    ensures Played(c') && Shape(c'.w) && c' == c.(w := ContinueStep(c.w, tid)) && Outside(c, c')
  {
    c' := c.(w := ContinueStep(c.w, tid));
    assert c'.w.locks == c.w.locks by { ContinueEffect(c.w, tid); }
    assert Played(c') && Shape(c'.w) by { PlayedOn(c, Cache(Continue(tid)), c'); }
  }

  lemma TakeNext(w: DncRun.World, tid: nat, r: Req, i: nat)
    requires Shape(w) && tid in w.phase && w.phase[tid] == AddTake(r)
    requires r.kind < 3 && w.t.lru[r.kind] != [] && i == w.t.lru[r.kind][0]
    requires i < |w.t.slots|
    ensures ContinueStep(w, tid).phase == w.phase[tid := AddSynonyms(r, i)]
    ensures |ContinueStep(w, tid).t.slots| == |w.t.slots|
  {
  }

  lemma FillNext(w: DncRun.World, tid: nat, r: Req, i: nat)
    requires Shape(w) && tid in w.phase && w.phase[tid] == AddSynonyms(r, i) && i < |w.t.slots|
    ensures ContinueStep(w, tid).phase == w.phase[tid := AddInsert(r, i)]
    ensures |ContinueStep(w, tid).t.slots| == |w.t.slots|
  {
  }

  lemma EnterNext(w: DncRun.World, tid: nat, r: Req, i: nat)
    requires Shape(w) && tid in w.phase && w.phase[tid] == AddInsert(r, i) && i < |w.t.slots|
    ensures ContinueStep(w, tid).phase == w.phase - {tid} && ContinueStep(w, tid).last == w.last[r.key := BindingOf(r)]
  {
  }

  /** An add that found nothing, left alone, ends with its translation in the reference map. */
  lemma AddRunsOut(c: Client.World, tid: nat, r: Req, i: nat) returns (c': Client.World)
    requires Played(c) && Shape(c.w) && tid in c.w.phase && c.w.phase[tid] == AddTake(r) && r.kind < 3
    requires c.w.t.lru[r.kind] != [] && i == c.w.t.lru[r.kind][0] && i < |c.w.t.slots|
    ensures Played(c') && Shape(c'.w) && Outside(c, c') && c'.w.phase == c.w.phase - {tid}
    ensures r.key in c'.w.last && c'.w.last[r.key].fid == r.fid
  {
    TakeNext(c.w, tid, r, i);
    var c1 := Stretch(c, tid);
    FillNext(c1.w, tid, r, i);
    var c2 := Stretch(c1, tid);
    EnterNext(c2.w, tid, r, i);
    c' := Stretch(c2, tid);
    assert c2.w.phase - {tid} == c.w.phase - {tid};
  }

  const ZERO := Time(0, 0)
  const ONE := Time(1, 0)
  const MADE := Fid(2, 2)

  /** An empty cache with room for one not-found entry, and empty directories. */
  ghost function Empty(): Client.World {
    Client.World(Start(Geometry(0, 0, 1, 1), (k: Key) => k.view), _ => [Version(map[], ZERO)],
        _ => Attr(ZERO, true, 0), map[], iset{}, iset{})
  }

  lemma EmptyPlayed()
    ensures Played(Empty())
  {
    var c := Empty();
    assert forall d :: DirOk(c, d);
    assert PlaysTo([c], [], c);
  }

  /** The directory is empty on the server, and its attributes are up to date. */
  ghost predicate Bare(c: Client.World) {
    c.hist(DirOf(KEY)) == [Version(map[], ZERO)] && c.attr(DirOf(KEY)) == Attr(ZERO, true, 0)
  }

  /** A lookup has locked the directory and asked for the name. */
  lemma LookupBegun() returns (c: Client.World)
    ensures Played(c) && Shape(c.w) && c == Empty().(w := c.w, stage := map[0 := Begun(Lookup(KEY), [])])
    ensures c.w == Empty().w.(locks := map[DirOf(KEY) := 0])
  {
    EmptyPlayed();
    PlayedInv(Empty());
    c := Do(Empty(), Begin(0, Lookup(KEY)));
    PlayedOn(Empty(), Begin(0, Lookup(KEY)), c);
  }

  lemma Asked() returns (c: Client.World)
    ensures Played(c) && Shape(c.w) && c.stage == map[0 := Replied(Lookup(KEY), Found(Fid(0, 0), 0))] && Bare(c)
    ensures c.w == Empty().w.(locks := map[DirOf(KEY) := 0])
  {
    var c1 := LookupBegun();
    c := c1.(stage := map[0 := Replied(Lookup(KEY), Found(Fid(0, 0), 0))]);
    assert Called(c1, 0, Lookup(KEY), Read(Fid(0, 0))) == c;
    PlayedOn(c1, Rpc(0, Read(Fid(0, 0))), c);
  }

  /** The first stretch of entering "not found" into the empty cache. */
  lemma Misses(w: DncRun.World)
    requires Shape(w) && w == Empty().w.(locks := map[DirOf(KEY) := 0])
    ensures Enabled(w, Add(0, NotFound(true)))
    ensures AddStep(w, 0, NotFound(true)) == w.(phase := map[0 := AddTake(NotFound(true))])
    ensures w.t.lru[NOENT] == [0] && |w.t.slots| == 1
  {
    assert w.t.slots[0] == Blank();
    assert Find(w.t, KEY).None?;
    assert w.last - {KEY} == w.last;
  }

  lemma LookupEntering() returns (c: Client.World)
    ensures Played(c) && Shape(c.w) && c.stage == map[0 := Ending(Lookup(KEY))] && Bare(c)
    ensures c.w == Empty().w.(locks := map[DirOf(KEY) := 0], phase := map[0 := AddTake(NotFound(true))])
    ensures c.w.t.lru[NOENT] == [0] && |c.w.t.slots| == 1
  {
    var c2 := Asked();
    Misses(c2.w);
    c := Entered(c2, 0, Lookup(KEY), Some(NotFound(true)));
    PlayedOn(c2, Enter(0, Some(NotFound(true))), c);
  }

  /** A lookup of the name caches that it is not there. */
  lemma LookedUp() returns (c: Client.World)
    ensures Played(c) && Shape(c.w) && c.stage == map[] && c.w.phase == map[] && DirOf(KEY) !in c.w.locks && Bare(c)
    ensures KEY in c.w.last && c.w.last[KEY].fid == Fid(0, 0)
  {
    var c3 := LookupEntering();
    var c4 := AddRunsOut(c3, 0, NotFound(true), 0);
    c := c4.(w := Unlocked(c4.w, 0, Lookup(KEY)), stage := c4.stage - {0});
    PlayedOn(c4, End(0), c);
  }

  /** Creating the name then, with the reply in but no vnode to be had, leaves the cache saying it is not there. */
  lemma StaleAfterFailedMake() returns (c: Client.World)
    ensures Played(c) && KEY in c.w.last && c.w.last[KEY].fid.IsNull()
    ensures True(c, KEY, MADE) && !True(c, KEY, c.w.last[KEY].fid)
  {
    var c1 := LookedUp();
    var c2 := c1.(w := Locked(c1.w, 0, Make(KEY)), stage := c1.stage[0 := Begun(Make(KEY), [])]);
    PlayedOn(c1, Begin(0, Make(KEY)), c2);
    LockEffect(c1.w, 0, Make(KEY));
    var c3 := Granted(c2);
    c := WithoutVnode(c3);
  }

  const REPLY := Changed(MADE, 1, ONE, true)

  /** The server has made the object. */
  lemma Granted(c: Client.World) returns (c': Client.World)
    requires Played(c) && Shape(c.w) && 0 in c.stage && c.stage[0] == Begun(Make(KEY), []) && 0 !in c.w.phase && Bare(c)
    ensures Played(c') && Shape(c'.w) && c'.w == c.w && 0 in c'.stage && c'.stage[0] == Replied(Make(KEY), REPLY)
    ensures c'.hist(DirOf(KEY)) == [Version(map[], ZERO), Version(map[KEY.name := MADE], ONE)]
  {
    var out := Grant(MADE, (_: Dir) => ONE, true, None);
    c' := Called(c, 0, Make(KEY), out);
    assert Names(Make(KEY), MADE, DirOf(KEY), map[]) == map[KEY.name := MADE];
    PlayedOn(c, Rpc(0, out), c');
  }

  lemma WithoutVnode(c: Client.World) returns (c': Client.World)
    requires Played(c) && Shape(c.w) && 0 in c.stage && c.stage[0] == Replied(Make(KEY), REPLY) && 0 !in c.w.phase
    requires c.hist(DirOf(KEY)) == [Version(map[], ZERO), Version(map[KEY.name := MADE], ONE)]
    requires KEY in c.w.last && c.w.last[KEY].fid == Fid(0, 0)
    ensures Played(c') && c'.w == c.w && True(c', KEY, MADE) && !True(c', KEY, c.w.last[KEY].fid)
  {
    var c1 := Settling(c, 0, Make(KEY), REPLY);
    assert c1.w == c.w && c1.stage[0] == Settled(Make(KEY), MADE);
    PlayedOn(c, Settle(0), c1);
    c' := Entered(c1, 0, Make(KEY), None);
    PlayedOn(c1, Enter(0, None), c');
  }

  // ---- A directory moved while its ".." is looked up ----

  const OLD := Fid(5, 5)
  const NEW := Fid(6, 6)
  const SUB: Name := [100]
  const UP := Key(KEY.view, KEY.vfs, MADE, DOTDOT)
  const FROM := Key(KEY.view, KEY.vfs, OLD, SUB)
  const TO := Key(KEY.view, KEY.vfs, NEW, SUB)
  const MOVE := Rename(FROM, TO)
  const MOVED := Version(map[DOTDOT := NEW], ONE)

  function Parent(): Req { Req(UP, OLD, ZERO, Flags(false, false, false, false), DIR, NOBODY, 0, 0) }

  /** The directory is in the old parent; the cache is empty, with room for one directory entry. */
  ghost function Nested(): Client.World {
    var names := (d: Dir) =>
      if d == DirOf(UP) then map[DOTDOT := OLD] else if d == DirOf(FROM) then map[SUB := MADE] else map[];
    Client.World(Start(Geometry(1, 0, 0, 1), (k: Key) => k.view), (d: Dir) => [Version(names(d), ZERO)],
        _ => Attr(ZERO, true, 0), map[], iset{}, iset{})
  }

  lemma NestedPlayed()
    ensures Played(Nested()) && Shape(Nested().w)
  {
    var c := Nested();
    assert forall d :: DirOk(c, d);
    assert PlaysTo([c], [], c);
    PlayedInv(c);
  }

  /** The cache is still empty, and the directory's attributes are as they were. */
  ghost predicate Untouched(c: Client.World) {
    c.w == Nested().w.(locks := c.w.locks) && c.attr == Nested().attr && c.broken == iset{} && c.tainted == iset{}
  }

  lemma UpBegun() returns (c: Client.World)
    ensures Played(c) && Shape(c.w) && c.hist == Nested().hist && Untouched(c)
    ensures c.stage == map[0 := Begun(Lookup(UP), [])] && c.w.locks == map[DirOf(UP) := 0]
  {
    NestedPlayed();
    c := Do(Nested(), Begin(0, Lookup(UP)));
    PlayedOn(Nested(), Begin(0, Lookup(UP)), c);
  }

  lemma UpAsked() returns (c: Client.World)
    ensures Played(c) && Shape(c.w) && c.hist == Nested().hist && Untouched(c)
    ensures c.stage == map[0 := Replied(Lookup(UP), Found(OLD, 0))] && c.w.locks == map[DirOf(UP) := 0]
  {
    var c1 := UpBegun();
    c := Called(c1, 0, Lookup(UP), Read(OLD));
    PlayedOn(c1, Rpc(0, Read(OLD)), c);
  }

  /** Thread 0 has its answer, and the directory unlocked. */
  lemma Opened() returns (c: Client.World)
    ensures Played(c) && Shape(c.w) && c.w == Nested().w && c.hist == Nested().hist && Untouched(c)
    ensures c.stage == map[0 := Window(Lookup(UP), OLD, 0, ZERO)]
  {
    var c2 := UpAsked();
    c := Do(c2, Open(0));
    PlayedOn(c2, Open(0), c);
    assert c.w.locks == map[];
  }

  /** Dropping a name from the empty cache changes nothing. */
  lemma DropNone(c: Client.World, todo: seq<Key>) returns (c': Client.World)
    requires Played(c) && Shape(c.w) && 1 in c.stage && c.stage[1] == Begun(MOVE, todo) && todo != []
    requires Untouched(c) && Enabled(c.w, Step.Remove(1, todo[0]))
    ensures Played(c') && Shape(c'.w) && c' == c.(stage := c.stage[1 := Begun(MOVE, todo[1..])])
  {
    c' := Do(c, Drop(1));
    assert c.w.t.slots == [Blank()];
    assert SweepSynonyms(c.w.t, todo[0]).slots == [Blank()];
    assert c.w.last - {todo[0]} == c.w.last;
    PlayedOn(c, Drop(1), c');
  }

  lemma {:induction false} DropAll(c: Client.World, todo: seq<Key>) returns (c': Client.World)
    requires Played(c) && Shape(c.w) && 1 in c.stage && c.stage[1] == Begun(MOVE, todo) && Untouched(c)
    requires c.w.locks == map[DirOf(TO) := 1, DirOf(FROM) := 1]
    requires forall k :: k in todo ==> NameOk(k) && (DirOf(k) == DirOf(TO) || DirOf(k) == DirOf(FROM))
    ensures Played(c') && Shape(c'.w) && c' == c.(stage := c.stage[1 := Begun(MOVE, [])])
    decreases |todo|
  {
    if todo == [] {
      c' := c;
      assert c.stage[1 := Begun(MOVE, [])] == c.stage;
    } else {
      MayDrop(c.w, todo[0]);
      var c1 := DropNone(c, todo);
      var rest := todo[1..];
      assert forall k :: k in rest ==> k in todo;
      c' := DropAll(c1, rest);
      assert c1.stage[1 := Begun(MOVE, [])] == c.stage[1 := Begun(MOVE, [])];
    }
  }

  lemma MayDrop(w: DncRun.World, k: Key)
    requires w.phase == map[] && w.locks == map[DirOf(TO) := 1, DirOf(FROM) := 1]
    requires NameOk(k) && (DirOf(k) == DirOf(TO) || DirOf(k) == DirOf(FROM))
    ensures Enabled(w, Step.Remove(1, k))
  {
  }

  /** Thread 1 has locked both parents and dropped the two names. */
  lemma MoveBegun() returns (c: Client.World)
    ensures Played(c) && Shape(c.w) && Untouched(c) && c.hist == Nested().hist
    ensures c.stage == map[0 := Window(Lookup(UP), OLD, 0, ZERO), 1 := Begun(MOVE, [])]
    ensures c.w.locks == map[DirOf(TO) := 1, DirOf(FROM) := 1]
  {
    var c0 := Opened();
    var c1 := Do(c0, Begin(1, MOVE));
    PlayedOn(c0, Begin(1, MOVE), c1);
    assert c1.w.locks == map[DirOf(TO) := 1, DirOf(FROM) := 1];
    c := DropAll(c1, Todo(MOVE));
  }

  /** The server has moved the directory. */
  lemma DirMoved() returns (c: Client.World)
    ensures Played(c) && Shape(c.w) && c.w == Nested().w.(locks := map[DirOf(TO) := 1, DirOf(FROM) := 1])
    ensures 0 in c.stage && c.stage[0] == Window(Lookup(UP), OLD, 0, ZERO) && c.attr == Nested().attr
    ensures c.hist(DirOf(UP)) == [Version(map[DOTDOT := OLD], ZERO), MOVED]
  {
    var c1 := MoveBegun();
    var out := Grant(MADE, (_: Dir) => ONE, true, Some(MOVED));
    c := Called(c1, 1, MOVE, out);
    PlayedOn(c1, Rpc(1, out), c);
  }

  /** Thread 0 locks the directory again, finds its attributes as they were, and starts to enter the old parent. */
  lemma Reentered() returns (c: Client.World)
    ensures Played(c) && Shape(c.w) && 0 in c.w.phase && c.w.phase[0] == AddTake(Parent())
    ensures c.w.t.lru[DIR] == [0] && |c.w.t.lru| == 3 && |c.w.t.slots| == 1
    ensures c.hist(DirOf(UP)) == [Version(map[DOTDOT := OLD], ZERO), MOVED]
  {
    var c1 := DirMoved();
    assert c1.w.target == Nested().w.target && DirOf(UP) !in c1.w.locks;
    c := Do(c1, Recheck(0, Some(Parent())));
    PlayedOn(c1, Recheck(0, Some(Parent())), c);
    UpMisses(Locked(c1.w, 0, Lookup(UP)));
  }

  lemma UpMisses(w: DncRun.World)
    requires Shape(w) && w == Nested().w.(locks := w.locks)
    ensures AddStep(w, 0, Parent()) == w.(phase := map[0 := AddTake(Parent())])
    ensures w.t.lru[DIR] == [0] && |w.t.slots| == 1
  {
    assert w.t.slots[0] == Blank();
    assert Find(w.t, UP).None?;
    assert w.last - {UP} == w.last;
  }

  /** Left to finish, it has cached the old parent for "..". */
  lemma StaleParent() returns (c: Client.World)
    ensures Played(c) && UP in c.w.last && c.w.last[UP].fid == OLD && True(c, UP, NEW) && WrongAbout(c, UP)
  {
    var c1 := Reentered();
    c := AddRunsOut(c1, 0, Parent(), 0);
  }
}
