/**
  The build handles of an entry over its life in a run of the name cache: from the step
  that fills its slot for as long as it stays on its chain.
 */
module DncHandles {
  import opened BuildHandles
  import opened DncRun
  import opened DncRunProofs
  import opened DncTable
  import opened DncTheorems
  import opened NameHash
  import opened Rings

  // ---- What one step does to the handles of one slot ----

  /** Re-adding an unchanged translation. */
  function MendEvents(e: Entry, r: Req): seq<Event> {
    (if e.invalid then [ResetTo(r.who.bh)] else []) + (if r.flags.bhInvariant then [MarkNull] else []) +
     [Recorded(r.who)]
  }

  /** The events of a step for slot i, whose entry is e' afterwards. */
  ghost function EventsOf(w: World, s: Step, i: nat, e': Entry): seq<Event>
    requires Shape(w) && i < |w.t.slots|
  {
    match s
    case Add(tid, r) =>
      if Find(w.t, r.key) == Some(i) && Unchanged(w.t.slots[i], r) then MendEvents(w.t.slots[i], r) else []
    case AddFlag(tid, k, f) => if Find(w.t, k) == Some(i) && f.bhInvariant then [MarkNull] else []
    case _ => if e'.ring != w.t.slots[i].ring then [ClearNull] else []
  }

  function StepAll(r: BhRing, evtime: Time, es: seq<Event>): (r': BhRing)
    requires r.bhx < |r.bh| == BH_MAX
    ensures r'.bhx < |r'.bh| == BH_MAX
  {
    if es == [] then r else BuildHandles.Step(StepAll(r, evtime, es[..|es| - 1]), evtime, es[|es| - 1])
  }

  lemma {:induction false} StepAllMore(bh: Bh, evtime: Time, es: seq<Event>, fs: seq<Event>)
    ensures RingAfter(bh, evtime, es + fs) == StepAll(RingAfter(bh, evtime, es), evtime, fs)
  {
    if fs != [] {
      var n := |fs| - 1;
      StepAllMore(bh, evtime, es, fs[..n]);
      assert (es + fs)[..|es + fs| - 1] == es + fs[..n];
    } else {
      assert es + fs == es;
    }
  }

  lemma StepOne(r: BhRing, evtime: Time, e: Event)
    requires r.bhx < |r.bh| == BH_MAX
    ensures StepAll(r, evtime, [e]) == BuildHandles.Step(r, evtime, e)
  {
    assert [e][..0] == [];
  }

  lemma MendEventsAre(e: Entry, r: Req)
    requires e.ring.bhx < |e.ring.bh| == BH_MAX
    ensures Mended(e, r).ring == StepAll(e.ring, e.evtime, MendEvents(e, r)) && Mended(e, r).evtime == e.evtime
  {
    var a := if e.invalid then [ResetTo(r.who.bh)] else [];
    var b := if r.flags.bhInvariant then [MarkNull] else [];
    var ring0 := if e.invalid then Reset(r.who.bh) else e.ring;
    var ring1 := if r.flags.bhInvariant then ring0.(nullbh := true) else ring0;
    if e.invalid { StepOne(e.ring, e.evtime, ResetTo(r.who.bh)); }
    assert StepAll(e.ring, e.evtime, a) == ring0;
    assert (a + [MarkNull])[..|a|] == a;
    assert a + [] == a;
    assert StepAll(e.ring, e.evtime, a + b) == ring1;
    assert (a + b + [Recorded(r.who)])[..|a + b|] == a + b;
  }

  /** While an entry stays chained in its slot, a step changes its handles by exactly these events, and not its time. */
  ghost predicate ByEvents(w: World, s: Step, i: nat, e': Entry)
    requires Shape(w) && i < |w.t.slots|
  {
    var e := w.t.slots[i];
    e.ring.bhx < |e.ring.bh| == BH_MAX && e'.evtime == e.evtime &&
    e'.ring == StepAll(e.ring, e.evtime, EventsOf(w, s, i, e'))
  }

  lemma AddEvents(w: World, tid: nat, r: Req, i: nat)
    requires Shape(w) && SlotsOk(w.t) && Enabled(w, Add(tid, r)) && i < |w.t.slots| && Hashed(w.t.slots[i])
    requires |AddStep(w, tid, r).t.slots| == |w.t.slots| && Hashed(AddStep(w, tid, r).t.slots[i])
    ensures ByEvents(w, Add(tid, r), i, AddStep(w, tid, r).t.slots[i])
  {
    assert SlotOk(w.t.geo, i, w.t.slots[i]);
    if Find(w.t, r.key) == Some(i) && Unchanged(w.t.slots[i], r) {
      MendEventsAre(w.t.slots[i], r);
      assert AddStep(w, tid, r).t.slots[i] == Mended(w.t.slots[i], r);
    } else {
      assert AddStep(w, tid, r).t.slots[i] == w.t.slots[i];
    }
  }

  lemma FlagEvents(w: World, tid: nat, k: Key, f: Flags, i: nat)
    requires Shape(w) && SlotsOk(w.t) && Enabled(w, AddFlag(tid, k, f)) && i < |w.t.slots| && Hashed(w.t.slots[i])
    requires |AddFlagStep(w, k, f).t.slots| == |w.t.slots|
    ensures ByEvents(w, AddFlag(tid, k, f), i, AddFlagStep(w, k, f).t.slots[i])
  {
    assert SlotOk(w.t.geo, i, w.t.slots[i]);
    StepOne(w.t.slots[i].ring, w.t.slots[i].evtime, MarkNull);
    if Find(w.t, k) == Some(i) {
      assert AddFlagStep(w, k, f).t.slots[i] == Flagged(w.t.slots[i], f);
    } else {
      assert AddFlagStep(w, k, f).t.slots[i] == w.t.slots[i];
    }
  }

  /** Any other step leaves the handles alone or clears the null-handle flag. */
  ghost predicate MayClear(e: Entry, e': Entry) {
    e'.evtime == e.evtime && (e'.ring == e.ring || e'.ring == e.ring.(nullbh := false))
  }

  lemma ContinueClears(w: World, tid: nat, i: nat)
    requires Shape(w) && SlotsOk(w.t) && PhasesOk(w) && tid in w.phase && i < |w.t.slots| && Hashed(w.t.slots[i])
    requires |ContinueStep(w, tid).t.slots| == |w.t.slots| && Hashed(ContinueStep(w, tid).t.slots[i])
    ensures MayClear(w.t.slots[i], ContinueStep(w, tid).t.slots[i])
  {
    assert SlotOk(w.t.geo, i, w.t.slots[i]) && PhaseOk(w, tid, w.phase[tid]);
    var ph := w.phase[tid];
    if HasSlot(ph) { assert ph.slot != i; }
    match ph
    case RemoveRoot(k, j, fid) => RootClears(w, tid, k, j, fid, i);
    case AddTake(r) => TakeKeeps(w, tid, r, i);
    case AddReturn(r, j) => assert Release(w.t, j).slots[i] == w.t.slots[i];
    case Return(j) => assert Release(w.t, j).slots[i] == w.t.slots[i];
    case AddSynonyms(r, j) => assert SweepSynonyms(w.t, r.key).slots[i].ring == w.t.slots[i].ring;
    case AddInsert(r, j) => assert InsertStep(w, tid, r, j).t.slots[i] == w.t.slots[i];
  }

  lemma RootClears(w: World, tid: nat, k: Key, j: nat, fid: Fid, i: nat)
    requires Shape(w) && i < |w.t.slots| && j < |w.t.slots|
    ensures |RootStep(w, tid, k, j, fid).t.slots| == |w.t.slots|
    ensures MayClear(w.t.slots[i], RootStep(w, tid, k, j, fid).t.slots[i])
  {
  }

  lemma TakeKeeps(w: World, tid: nat, r: Req, i: nat)
    requires Shape(w) && i < |w.t.slots|
    ensures |TakeStep(w, tid, r).t.slots| == |w.t.slots| && MayClear(w.t.slots[i], TakeStep(w, tid, r).t.slots[i])
  {
  }

  lemma RemoveClears(w: World, tid: nat, k: Key, i: nat)
    requires Shape(w) && i < |w.t.slots| && Hashed(w.t.slots[i])
    requires |RemoveStep(w, tid, k).t.slots| == |w.t.slots| && Hashed(RemoveStep(w, tid, k).t.slots[i])
    ensures MayClear(w.t.slots[i], RemoveStep(w, tid, k).t.slots[i])
  {
  }

  lemma InvalClears(w: World, s: Step, i: nat)
    requires (s.InvalVnode? || s.InvalView? || s.InvalNotFound? || s.RootFlush?) && i < |w.t.slots|
    requires |InvalStep(w, s).t.slots| == |w.t.slots|
    ensures MayClear(w.t.slots[i], InvalStep(w, s).t.slots[i])
  {
  }

  lemma StepClears(w: World, s: Step, i: nat)
    requires Shape(w) && SlotsOk(w.t) && PhasesOk(w) && Enabled(w, s) && !s.Add? && !s.AddFlag?
    requires i < |w.t.slots| == |Apply(w, s).t.slots| && Hashed(w.t.slots[i]) && Hashed(Apply(w, s).t.slots[i])
    ensures MayClear(w.t.slots[i], Apply(w, s).t.slots[i])
  {
    match s
    case Continue(tid) => ContinueClears(w, tid, i);
    case Remove(tid, k) => RemoveClears(w, tid, k, i);
    case Lock(_, _) =>
    case Unlock(_, _) =>
    case Flush(_, _) =>
    case LookupHit(_, _) =>
    case _ => InvalClears(w, s, i);
  }

  lemma SameSize(w: World, s: Step)
    requires Shape(w) && Enabled(w, s)
    ensures |Apply(w, s).t.slots| == |w.t.slots|
  {
    match s
    case Add(tid, r) => assert |AddStep(w, tid, r).t.slots| == |w.t.slots|;
    case AddFlag(tid, k, f) => assert |AddFlagStep(w, k, f).t.slots| == |w.t.slots|;
    case Continue(tid) => assert |ContinueStep(w, tid).t.slots| == |w.t.slots|;
    case Remove(tid, k) => assert |RemoveStep(w, tid, k).t.slots| == |w.t.slots|;
    case _ =>
  }

  /** Steps that are no adds at most clear the null handle. */
  lemma OtherEvents(w: World, s: Step, i: nat, e': Entry)
    requires Shape(w) && i < |w.t.slots| && SlotOk(w.t.geo, i, w.t.slots[i]) && Hashed(w.t.slots[i])
    requires !s.Add? && !s.AddFlag? && MayClear(w.t.slots[i], e')
    ensures ByEvents(w, s, i, e')
  {
    StepOne(w.t.slots[i].ring, w.t.slots[i].evtime, ClearNull);
  }

  lemma EventsStep(w: World, s: Step, i: nat)
    requires WInv(w) && Enabled(w, s) && i < |w.t.slots| == |Apply(w, s).t.slots|
    requires Hashed(w.t.slots[i]) && Hashed(Apply(w, s).t.slots[i])
    ensures ByEvents(w, s, i, Apply(w, s).t.slots[i])
  {
    assert SlotOk(w.t.geo, i, w.t.slots[i]);
    if s.Add? {
      AddEvents(w, s.tid, s.req, i);
    } else if s.AddFlag? {
      FlagEvents(w, s.tid, s.key, s.flags, i);
    } else {
      var e' := Apply(w, s).t.slots[i];
      assert MayClear(w.t.slots[i], e') by { StepClears(w, s, i); }
      OtherEvents(w, s, i, e');
    }
  }

  // ---- The life of an entry ----

  /** Step m fills slot i with request r, and the entry is on its chain from then to state n. */
  ghost predicate Lives(ws: seq<World>, steps: seq<Step>, i: nat, m: nat, n: nat, r: Req)
    requires n <= |steps| < |ws|
  {
    m < n && steps[m].Continue? && steps[m].tid in ws[m].phase && ws[m].phase[steps[m].tid] == AddInsert(r, i) &&
    forall j :: m < j <= n ==> i < |ws[j].t.slots| && Hashed(ws[j].t.slots[i])
  }

  /** All events of that life, in order. */
  ghost function LifeEvents(ws: seq<World>, steps: seq<Step>, i: nat, m: nat, n: nat, r: Req): seq<Event>
    requires Run(ws, steps) && n <= |steps| && Lives(ws, steps, i, m, n, r)
    decreases n
  {
    if n == m + 1 then if r.flags.bhInvariant then [MarkNull] else []
    else
      assert Lives(ws, steps, i, m, n - 1, r);
      LifeEvents(ws, steps, i, m, n - 1, r) + EventsOf(ws[n - 1], steps[n - 1], i, ws[n].t.slots[i])
  }

  /** The entry just filled. */
  lemma BornWith(w: World, tid: nat, r: Req, i: nat)
    requires WInv(w) && tid in w.phase && w.phase[tid] == AddInsert(r, i)
    ensures i < |w.t.slots| && |ContinueStep(w, tid).t.slots| == |w.t.slots|
    ensures var e := ContinueStep(w, tid).t.slots[i];
            e.evtime == r.evtime &&
            e.ring == RingAfter(r.who.bh, r.evtime, if r.flags.bhInvariant then [MarkNull] else [])
  {
    assert PhaseOk(w, tid, w.phase[tid]);
    assert RingAfter(r.who.bh, r.evtime, []) == Reset(r.who.bh);
    StepAllMore(r.who.bh, r.evtime, [], [MarkNull]);
    StepOne(Reset(r.who.bh), r.evtime, MarkNull);
    assert [] + [MarkNull] == [MarkNull];
  }

  /** The ring of an entry in a run is the ring that the events of its life give. */
  lemma {:induction false} RingInRun(ws: seq<World>, steps: seq<Step>, i: nat, m: nat, n: nat, r: Req)
    requires FromStart(ws, steps) && n <= |steps| && Lives(ws, steps, i, m, n, r)
    ensures ws[n].t.slots[i].evtime == r.evtime
    ensures ws[n].t.slots[i].ring == RingAfter(r.who.bh, r.evtime, LifeEvents(ws, steps, i, m, n, r))
    decreases n
  {
    if n == m + 1 {
      RunInv(ws, steps, m);
      BornWith(ws[m], steps[m].tid, r, i);
    } else {
      assert Lives(ws, steps, i, m, n - 1, r);
      RingInRun(ws, steps, i, m, n - 1, r);
      RingNext(ws, steps, i, n - 1);
      StepAllMore(r.who.bh, r.evtime, LifeEvents(ws, steps, i, m, n - 1, r),
          EventsOf(ws[n - 1], steps[n - 1], i, ws[n].t.slots[i]));
    }
  }

  lemma RingNext(ws: seq<World>, steps: seq<Step>, i: nat, n: nat)
    requires FromStart(ws, steps) && n < |steps| && i < |ws[n].t.slots| && i < |ws[n + 1].t.slots|
    requires Hashed(ws[n].t.slots[i]) && Hashed(ws[n + 1].t.slots[i])
    ensures ByEvents(ws[n], steps[n], i, ws[n + 1].t.slots[i])
  {
    RunInv(ws, steps, n);
    SameSize(ws[n], steps[n]);
    EventsStep(ws[n], steps[n], i);
  }


  /** A lookup in a run is accepted exactly if the history of handles recorded since the fill says so. */
  lemma AcceptedByHistory(ws: seq<World>, steps: seq<Step>, i: nat, m: nat, n: nat, r: Req, who: Who)
    requires FromStart(ws, steps) && n <= |steps| && Lives(ws, steps, i, m, n, r)
    requires r.who.bh.session != NO_SESSION && who.bh.session != NO_SESSION
    requires var es := LifeEvents(ws, steps, i, m, n, r); forall j :: 0 <= j < |es| ==> Real(es[j])
    ensures var e := ws[n].t.slots[i];
            Accepts(e.ring, e.evtime, who) <==>
            HistoryAccepts(HistoryAfter(r.who.bh, r.evtime, LifeEvents(ws, steps, i, m, n, r)), r.evtime, who)
  {
    RingInRun(ws, steps, i, m, n, r);
    LookupAcceptedOnlyByHistory(r.who.bh, r.evtime, LifeEvents(ws, steps, i, m, n, r), who);
  }
}
