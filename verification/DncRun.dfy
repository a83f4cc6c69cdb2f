/**
  The name cache as a protocol.  Threads add, remove, look up, flush and
  invalidate; every lock-protected stretch of code is one atomic step, and the
  steps of different threads interleave in any order.

  `last` is the reference: the translation last added for each key, with no later
  removal, invalidation or flush of it.  `stamp` records when a slot was last
  filled or hit, `drift` by how much in-place flag changes moved the number of
  "other" not-found entries without the counter being told, and `exact` whether no
  invalidation of such entries was skipped while there was one.

  VOB roots, whose keys have the name ".", are added without a lock; every other add
  and remove runs under the lock of its directory.  `sure` are the keys for which
  uniqueness and agreement are claimed: all keys that are not VOB roots, and any set of
  roots of which no two adds overlap.
 */
module DncRun {
  import opened BuildHandles
  import opened DncTable
  import opened NameHash
  import opened Rings

  datatype Binding = Binding(fid: Fid, evtime: Time, notInDir: bool)

  /** One call of mvfs_dncadd_subr. `kind` is the partition the vnode type selects. */
  datatype Req = Req(key: Key, fid: Fid, evtime: Time, flags: Flags, kind: nat, who: Who, dncgen: nat, now: nat)

  /** The lock an add or remove of a key runs under: the directory's mnode lock. */
  datatype Dir = Dir(view: View, vfs: Vfs, dfid: Fid, root: bool)

  function DirOf(k: Key): Dir { Dir(k.view, k.vfs, k.dfid, k.name == DOT) }

  /** Where a thread is between two locked stretches; a thread without a phase is idle. */
  datatype Phase =
    | AddReturn(req: Req, slot: nat)    // releasing the superseded entry
    | AddTake(req: Req)                 // about to take the least recently used slot
    | AddSynonyms(req: Req, slot: nat)  // about to invalidate synonyms
    | AddInsert(req: Req, slot: nat)    // filling the private slot
    | RemoveRoot(key: Key, slot: nat, fid: Fid)  // about to look for a VOB root alias
    | Return(slot: nat)                 // releasing a removed or flushed entry

  datatype World = World(
    t: Table, phase: map<nat, Phase>, locks: map<Dir, nat>, target: Key -> View,
    last: map<Key, Binding>, stamp: seq<nat>, clock: nat, drift: int, exact: bool, sure: iset<Key>)

  // ---- Requests and entries ----

  /** A found vnode has a type and a fid; a VOB root translates to itself in its view. */
  predicate ReqOk(target: Key -> View, r: Req) {
    r.key.name != [] && (r.flags.rvc <==> r.key.name == DOT) && r.kind <= NOENT &&
    (r.fid.IsNull() <==> r.kind == NOENT) && (r.flags.rvc ==> r.kind == DIR && target(r.key) == r.key.view)
  }

  function BindingOf(r: Req): Binding { Binding(r.fid, r.evtime, r.flags.notInDir) }

  /** The private fill of a slot. */
  function Filled(target: Key -> View, size: nat, r: Req): Entry
    requires size > 0
  {
    var ring := Reset(r.who.bh);
    Entry(false, false, if r.flags.bhInvariant then ring.(nullbh := true) else ring, r.flags,
          if r.flags.rvc then None else Some(r.key.view), r.key.vfs, r.key.dfid, r.dncgen, r.key.name,
          if r.fid.IsNull() then None else Some(target(r.key)), r.fid, r.evtime, r.now, KeyChain(r.key, size))
  }

  /** Re-adding an unchanged translation. */
  function Mended(e: Entry, r: Req): Entry {
    var ring0 := if e.invalid then Reset(r.who.bh) else e.ring;
    var ring1 := if r.flags.bhInvariant then ring0.(nullbh := true) else ring0;
    e.(invalid := false, dncgen := if e.invalid then r.dncgen else e.dncgen,
       flags := r.flags, ring := Record(ring1, e.evtime, r.who))
  }

  predicate Unchanged(e: Entry, r: Req) { e.vfid == r.fid && e.evtime == r.evtime }

  function Flagged(e: Entry, f: Flags): Entry {
    e.(flags := Flags(e.flags.bhInvariant || f.bhInvariant, e.flags.notInDir || f.notInDir,
                      e.flags.ci || f.ci, e.flags.rvc),
       ring := if f.bhInvariant then e.ring.(nullbh := true) else e.ring)
  }

  // ---- Searching one chain ----

  predicate Hit(t: Table, k: Key, i: nat)
    requires t.geo.hashSize > 0
  {
    i < |t.slots| && t.slots[i].hash == KeyChain(k, t.geo.hashSize) && Matches(t.slots[i], k)
  }

  ghost function Find(t: Table, k: Key): (o: Option<nat>)
    requires t.geo.hashSize > 0
    ensures o.Some? ==> Hit(t, k, o.value)
    ensures o.None? ==> forall i :: !Hit(t, k, i)
  {
    if i :| Hit(t, k, i) then Some(i) else None
  }

  /** An entry that matches a key is on the key's chain, so one chain answers for the whole table. */
  lemma ChainAnswersForTable(t: Table, k: Key, i: nat)
    requires SlotsOk(t) && i < |t.slots| && Hashed(t.slots[i])
    ensures Matches(t.slots[i], k) <==> KeyOf(t.slots[i]) == k
    ensures Matches(t.slots[i], k) <==> Hit(t, k, i)
  {
    assert SlotOk(t.geo, i, t.slots[i]);
  }

  lemma FindNoneIsAbsent(t: Table, k: Key)
    requires SlotsOk(t)
    ensures Find(t, k).None? <==> Absent(t, k)
  {
    forall i | 0 <= i < |t.slots| && Hashed(t.slots[i]) ensures Matches(t.slots[i], k) <==> Hit(t, k, i) {
      ChainAnswersForTable(t, k, i);
    }
  }

  // ---- The steps ----

  datatype Step =
    | Lock(tid: nat, dir: Dir)
    | Unlock(tid: nat, dir: Dir)
    | Add(tid: nat, req: Req)
    | Remove(tid: nat, key: Key)
    | Flush(tid: nat, slot: nat)
    | Continue(tid: nat)
    | LookupHit(slot: nat, who: Who)
    | AddFlag(tid: nat, key: Key, flags: Flags)
    | InvalVnode(view: View, vfs: Vfs, fid: Fid)
    | InvalView(view: View)
    | InvalNotFound
    | RootFlush(view: View, only: Option<Vfs>)

  predicate Owns(w: World, tid: nat, d: Dir) { d in w.locks && w.locks[d] == tid }

  ghost predicate Enabled(w: World, s: Step) {
    match s
    case Lock(tid, d) => d !in w.locks
    case Unlock(tid, d) => Owns(w, tid, d) && tid !in w.phase
    case Add(tid, r) => tid !in w.phase && ReqOk(w.target, r) && (r.key.name != DOT ==> Owns(w, tid, DirOf(r.key)))
    case Remove(tid, k) => tid !in w.phase && k.name != [] && k.name != DOT && Owns(w, tid, DirOf(k))
    case Flush(tid, i) => tid !in w.phase && i < |w.t.slots| && !w.t.slots[i].inTrans && !Unused(w.t.slots[i])
    case Continue(tid) => tid in w.phase
    case LookupHit(i, who) => i < |w.t.slots| && Hashed(w.t.slots[i]) && !w.t.slots[i].invalid &&
                              Accepts(w.t.slots[i].ring, w.t.slots[i].evtime, who)
    case AddFlag(tid, k, f) => tid !in w.phase && k.name != [] && k.name != DOT && Owns(w, tid, DirOf(k))
    case _ => true
  }

  function Delta(was: bool, now: bool): int { if now == was then 0 else if now then 1 else -1 }

  /** First stretch of an add: update in place, or supersede, or go on to take a slot. */
  ghost function AddStep(w: World, tid: nat, r: Req): World
    requires Shape(w)
  {
    var o := Find(w.t, r.key);
    if o.Some? && Unchanged(w.t.slots[o.value], r) then
      var e := w.t.slots[o.value];
      w.(t := Amend(w.t, o.value, Mended(e, r)), last := w.last[r.key := BindingOf(r)],
         drift := w.drift + Delta(Other(e), Other(Mended(e, r))))
    else if o.Some? then
      w.(t := Detach(w.t, o.value), last := w.last - {r.key}, phase := w.phase[tid := AddReturn(r, o.value)])
    else
      w.(last := w.last - {r.key}, phase := w.phase[tid := AddTake(r)])
  }

  /** The LRU stretch: the head of the list, or nothing at all when the list is empty. */
  ghost function TakeStep(w: World, tid: nat, r: Req): World
    requires Shape(w)
  {
    if r.kind > NOENT || w.t.lru[r.kind] == [] || w.t.lru[r.kind][0] >= |w.t.slots| then w.(phase := w.phase - {tid})
    else var s := w.t.lru[r.kind]; w.(t := Detach(w.t, s[0]), phase := w.phase[tid := AddSynonyms(r, s[0])])
  }

  ghost function InsertStep(w: World, tid: nat, r: Req, i: nat): World
    requires Shape(w) && i < |w.t.slots|
  {
    w.(t := Publish(w.t, i, Filled(w.target, w.t.geo.hashSize, r)), last := w.last[r.key := BindingOf(r)],
       stamp := w.stamp[i := w.clock], clock := w.clock + 1, phase := w.phase - {tid})
  }

  ghost function RemoveStep(w: World, tid: nat, k: Key): World
    requires Shape(w)
  {
    var o := Find(w.t, k);
    var w' := w.(last := w.last - {k});
    if o.Some? then
      w'.(t := SweepSynonyms(Detach(w.t, o.value), k),
          phase := w.phase[tid := RemoveRoot(k, o.value, w.t.slots[o.value].vfid)])
    else w'.(t := SweepSynonyms(w.t, k))
  }

  function RootKey(k: Key): Key { Key(k.view, k.vfs, k.vfs.root, DOT) }

  /** A removed directory name that aliases the VOB root takes the root translation with it. */
  ghost function RootStep(w: World, tid: nat, k: Key, i: nat, fid: Fid): World
    requires Shape(w) && i < |w.t.slots|
  {
    var rk := RootKey(k);
    var w' := w.(phase := w.phase[tid := Return(i)]);
    if Part(w.t.geo, i) != DIR then w'
    else
      var o := Find(w.t, rk);
      w'.(t := if o.Some? && w.t.slots[o.value].vfid == fid then
                 Amend(w.t, o.value, Invalidated(w.t.slots[o.value]))
               else w.t,
          last := if rk in w.last && w.last[rk].fid == fid then w.last - {rk} else w.last)
  }

  ghost function ContinueStep(w: World, tid: nat): World
    requires Shape(w) && tid in w.phase
  {
    var ph := w.phase[tid];
    if HasSlot(ph) && ph.slot >= |w.t.slots| then w
    else
      match ph
      case AddReturn(r, i) => w.(t := Release(w.t, i), phase := w.phase[tid := AddTake(r)])
      case AddTake(r) => TakeStep(w, tid, r)
      case AddSynonyms(r, i) => w.(t := SweepSynonyms(w.t, r.key), phase := w.phase[tid := AddInsert(r, i)])
      case AddInsert(r, i) => InsertStep(w, tid, r, i)
      case RemoveRoot(k, i, fid) => RootStep(w, tid, k, i, fid)
      case Return(i) => w.(t := Release(w.t, i), phase := w.phase - {tid})
  }

  // ---- Invalidations: the test on an entry, and what it means for a key ----

  function HitsVnode(view: View, vfs: Vfs, fid: Fid): Entry -> bool {
    (e: Entry) => e.vfs == vfs && ((e.dvw == Some(view) && e.dfid == fid) || (e.vvw == Some(view) && e.vfid == fid))
  }

  function HitsView(view: View): Entry -> bool {
    (e: Entry) => e.dvw == Some(view) || e.vvw == Some(view)
  }

  function HitsRoot(view: View, only: Option<Vfs>): Entry -> bool {
    (e: Entry) => e.vvw == Some(view) && e.flags.rvc && (only == None || only == Some(e.vfs))
  }

  function HitsNotFound(): Entry -> bool {
    (e: Entry) => !e.flags.notInDir
  }

  predicate Targets(w: World, k: Key, view: View)
    requires k in w.last
  {
    !w.last[k].fid.IsNull() && w.target(k) == view
  }

  ghost function Keeping(w: World, keep: iset<Key>): map<Key, Binding> {
    map k | k in w.last && k in keep :: w.last[k]
  }

  /** A chained, valid not-found entry that is not due to an absent name. */
  ghost predicate LiveOther(t: Table, i: nat) {
    i < |t.slots| && Hashed(t.slots[i]) && !t.slots[i].invalid && Other(t.slots[i])
  }

  /** The counter says that there is no such entry, but there is one. */
  ghost predicate BadSkip(w: World) { w.t.noentOther == 0 && exists i :: LiveOther(w.t, i) }

  ghost function InvalStep(w: World, s: Step): World
    requires s.InvalVnode? || s.InvalView? || s.InvalNotFound? || s.RootFlush?
  {
    match s
    case InvalVnode(view, vfs, fid) =>
      w.(t := Sweep(w.t, 0, |w.t.slots|, HitsVnode(view, vfs, fid)),
         last := Keeping(w, iset k | k in w.last && !(k.vfs == vfs &&
           ((k.name != DOT && k.view == view && k.dfid == fid) || (Targets(w, k, view) && w.last[k].fid == fid)))))
    case InvalView(view) =>
      w.(t := Sweep(w.t, 0, |w.t.slots|, HitsView(view)),
         last := Keeping(w, iset k | k in w.last && !((k.name != DOT && k.view == view) || Targets(w, k, view))))
    case InvalNotFound =>
      w.(t := if w.t.noentOther == 0 then w.t else Sweep(w.t, w.t.geo.NoentStart(), |w.t.slots|, HitsNotFound()),
         last := Keeping(w, iset k | k in w.last && !(w.last[k].fid.IsNull() && !w.last[k].notInDir)),
         exact := w.exact && !BadSkip(w))
    case RootFlush(view, only) =>
      w.(t := Sweep(w.t, 0, w.t.geo.dirMax, HitsRoot(view, only)),
         last := Keeping(w, iset k | k in w.last &&
         !(k.name == DOT && k.view == view && (only == None || only == Some(k.vfs)))))
  }

  /** What the steps take for granted about the sizes of a world's parts. */
  ghost predicate Shape(w: World) {
    w.t.geo.hashSize > 0 && |w.t.lru| == 3 && |w.stamp| == |w.t.slots|
  }

  ghost function AddFlagStep(w: World, k: Key, f: Flags): World
    requires Shape(w)
  {
    var o := Find(w.t, k);
    if o.None? then w
    else
      var e := w.t.slots[o.value];
      w.(t := Amend(w.t, o.value, Flagged(e, f)), drift := w.drift + Delta(Other(e), Other(Flagged(e, f))),
         last := if k in w.last then w.last[k := w.last[k].(notInDir := e.flags.notInDir || f.notInDir)] else w.last)
  }

  ghost function Apply(w: World, s: Step): World
    requires Shape(w) && Enabled(w, s)
  {
    match s
    case Lock(tid, d) => w.(locks := w.locks[d := tid])
    case Unlock(tid, d) => w.(locks := w.locks - {d})
    case Add(tid, r) => AddStep(w, tid, r)
    case Remove(tid, k) => RemoveStep(w, tid, k)
    case Flush(tid, i) =>
      w.(t := Detach(w.t, i), last := w.last - {KeyOf(w.t.slots[i])}, phase := w.phase[tid := Return(i)])
    case Continue(tid) => ContinueStep(w, tid)
    case LookupHit(i, who) => w.(t := Touch(w.t, i), stamp := w.stamp[i := w.clock], clock := w.clock + 1)
    case AddFlag(tid, k, f) => AddFlagStep(w, k, f)
    case _ => InvalStep(w, s)
  }

  // ---- What every reachable world satisfies ----

  ghost predicate Private(w: World, i: nat) { i < |w.t.slots| && w.t.slots[i].inTrans }

  predicate Adding(ph: Phase) { ph.AddReturn? || ph.AddTake? || ph.AddSynonyms? || ph.AddInsert? }

  /** Thread tid is past the search of an add of this key. */
  ghost predicate AddsKey(w: World, tid: nat, k: Key) {
    tid in w.phase && Adding(w.phase[tid]) && w.phase[tid].req.key == k
  }

  /** An add in flight: its directory is locked by its thread unless it is a VOB root, and no entry has its key. */
  ghost predicate Pending(w: World, tid: nat, r: Req) {
    ReqOk(w.target, r) && (r.key.name != DOT ==> Owns(w, tid, DirOf(r.key))) && (r.key in w.sure ==> Absent(w.t, r.key))
  }

  ghost predicate PhaseOk(w: World, tid: nat, ph: Phase) {
    match ph
    case AddReturn(r, i) => Pending(w, tid, r) && Private(w, i)
    case AddTake(r) => Pending(w, tid, r)
    case AddSynonyms(r, i) => Pending(w, tid, r) && Private(w, i) && Part(w.t.geo, i) == r.kind
    case AddInsert(r, i) => Pending(w, tid, r) && Private(w, i) && Part(w.t.geo, i) == r.kind
    case RemoveRoot(k, i, fid) => Private(w, i)
    case Return(i) => Private(w, i)
  }

  predicate HasSlot(ph: Phase) { !ph.AddTake? }

  ghost predicate PhasesOk(w: World) {
    (forall tid :: tid in w.phase ==> PhaseOk(w, tid, w.phase[tid])) &&
    (forall a, b :: a in w.phase && b in w.phase && a != b && HasSlot(w.phase[a]) && HasSlot(w.phase[b]) ==>
       w.phase[a].slot != w.phase[b].slot) &&
    OneAdder(w)
  }

  ghost predicate OneAdder(w: World) {
    forall a, b, k :: AddsKey(w, a, k) && AddsKey(w, b, k) && k in w.sure ==> a == b
  }

  /** Chained entries of a list stand in the order they were last filled or hit. */
  ghost predicate StampsOk(w: World) {
    |w.stamp| == |w.t.slots| && |w.t.lru| == 3 &&
    (forall i :: 0 <= i < |w.stamp| ==> w.stamp[i] < w.clock) &&
    (forall p, a, b :: 0 <= p < 3 && 0 <= a < b < |w.t.lru[p]| && HashedAt(w.t.slots, w.t.lru[p][a]) ==>
       w.t.lru[p][b] < |w.stamp| && w.stamp[w.t.lru[p][a]] < w.stamp[w.t.lru[p][b]])
  }

  ghost predicate TargetOk(target: Key -> View, e: Entry) {
    (!e.vfid.IsNull() ==> e.vvw == Some(target(KeyOf(e)))) && (e.flags.rvc ==> target(KeyOf(e)) == KeyOf(e).view)
  }

  ghost predicate TargetsOk(w: World) {
    forall i :: 0 <= i < |w.t.slots| && Hashed(w.t.slots[i]) ==> TargetOk(w.target, w.t.slots[i])
  }

  ghost predicate AgreesAt(w: World, e: Entry) {
    KeyOf(e) in w.last && w.last[KeyOf(e)] == Binding(e.vfid, e.evtime, e.flags.notInDir)
  }

  /** Every entry a lookup may accept is the translation last added for its key. */
  ghost predicate Agrees(w: World) {
    forall i ::
      0 <= i < |w.t.slots| && Hashed(w.t.slots[i]) && !w.t.slots[i].invalid && KeyOf(w.t.slots[i]) in w.sure ==>
        AgreesAt(w, w.t.slots[i])
  }

  ghost function OtherCount(slots: seq<Entry>): nat {
    if slots == [] then 0
    else OtherCount(slots[..|slots| - 1]) + if Hashed(slots[|slots| - 1]) && Other(slots[|slots| - 1]) then 1 else 0
  }

  ghost predicate WInv(w: World) {
    Shape(w) && TableInv(w.t) && KeysUnique(w.t.slots, w.sure) && PhasesOk(w) && StampsOk(w) && TargetsOk(w) &&
    w.t.noentOther == OtherCount(w.t.slots) - w.drift && (w.exact ==> Agrees(w)) &&
    (forall k: Key :: k.name != DOT ==> k in w.sure)
  }
}
