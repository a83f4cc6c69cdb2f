/**
  The build handles an entry of the name cache is valid for (mfs_dncbhset,
  mfs_dncbhadd, mfs_dncbhcheck, mfs_dnc_nullbhcheck): a flag for the null handle
  and a ring of the last three others.

  The reference is a plain history: the handles recorded since the last reset,
  and whether the null handle was recorded.
 */
module BuildHandles {

  const BH_MAX := 3
  const NO_SESSION: nat := 0xffff_ffff

  datatype Time = Time(sec: int, usec: int) {
    predicate NotAfter(t: Time) {
      sec < t.sec || (sec == t.sec && usec <= t.usec)
    }
  }

  datatype Bh = Bh(session: nat, target: nat) {
    predicate IsNull() { session == 0 && target == 0 }
  }

  /** A caller: its build handle, and the reference time it may use instead. */
  datatype Who = Who(bh: Bh, useRefTime: bool, refTime: Time)

  datatype BhRing = BhRing(nullbh: bool, bhx: nat, bh: seq<Bh>)

  const EMPTY := Bh(NO_SESSION, NO_SESSION)

  /** mfs_dncbhset. */
  function Reset(bh: Bh): BhRing {
    var empty := seq(BH_MAX, _ => EMPTY);
    if bh.IsNull() then BhRing(true, 0, empty) else BhRing(false, 1, empty[0 := bh])
  }

  /** mfs_dncbhadd. */
  function Add(r: BhRing, bh: Bh): BhRing {
    if bh.IsNull() then r.(nullbh := true)
    else if r.bhx >= |r.bh| then r
    else r.(bh := r.bh[r.bhx := bh], bhx := if r.bhx + 1 >= BH_MAX then 0 else r.bhx + 1)
  }

  /** mfs_dnc_nullbhcheck. */
  predicate NullShortcut(nullbh: bool, evtime: Time, who: Who) {
    nullbh && who.useRefTime && evtime.NotAfter(who.refTime)
  }

  /** mfs_dncbhcheck. */
  predicate Tagged(r: BhRing, who: Who) {
    if who.bh.IsNull() then r.nullbh else exists i :: 0 <= i < |r.bh| && r.bh[i].session == who.bh.session
  }

  predicate Accepts(r: BhRing, evtime: Time, who: Who) {
    NullShortcut(r.nullbh, evtime, who) || Tagged(r, who)
  }

  /** The build-handle part of re-adding an unchanged translation. */
  function Record(r: BhRing, evtime: Time, who: Who): BhRing {
    if Accepts(r, evtime, who) then r else Add(r, who.bh)
  }

  // What happens to the handles of one entry between two fills of its slot.
  datatype Event = ResetTo(bh: Bh) | Recorded(who: Who) | MarkNull | ClearNull

  /** MarkNull is the BH-invariant flag, ClearNull an invalidation. */
  function Step(r: BhRing, evtime: Time, e: Event): (r': BhRing)
    requires r.bhx < |r.bh| == BH_MAX
    ensures r'.bhx < |r'.bh| == BH_MAX
  {
    match e
    case ResetTo(bh) => Reset(bh)
    case Recorded(who) => Record(r, evtime, who)
    case MarkNull => r.(nullbh := true)
    case ClearNull => r.(nullbh := false)
  }

  datatype History = History(nullValid: bool, recorded: seq<Bh>)

  /** One of the last three handles of a history has this session. */
  predicate RecentSession(h: seq<Bh>, session: nat) {
    exists k :: 0 <= k < |h| && k >= |h| - BH_MAX && h[k].session == session
  }

  predicate HistoryAccepts(h: History, evtime: Time, who: Who) {
    NullShortcut(h.nullValid, evtime, who) ||
    (if who.bh.IsNull() then h.nullValid else RecentSession(h.recorded, who.bh.session))
  }

  function HistoryStep(h: History, evtime: Time, e: Event): History {
    match e
    case ResetTo(bh) => if bh.IsNull() then History(true, []) else History(false, [bh])
    case Recorded(who) =>
      if HistoryAccepts(h, evtime, who) then h
      else if who.bh.IsNull() then h.(nullValid := true)
      else h.(recorded := h.recorded + [who.bh])
    case MarkNull => h.(nullValid := true)
    case ClearNull => h.(nullValid := false)
  }

  ghost predicate Real(e: Event) {
    match e
    case ResetTo(bh) => bh.session != NO_SESSION
    case Recorded(who) => who.bh.session != NO_SESSION
    case _ => true
  }

  /** Slot j of the ring holds the youngest recorded handle whose number is j modulo three. */
  ghost predicate Holds(r: BhRing, h: History) {
    var n := |h.recorded|;
    |r.bh| == BH_MAX && r.nullbh == h.nullValid && r.bhx == n % BH_MAX &&
    (n == 0 ==> r.bh[0] == r.bh[1] == r.bh[2] == EMPTY) &&
    (n == 1 ==> r.bh[0] == h.recorded[0] && r.bh[1] == r.bh[2] == EMPTY) &&
    (n == 2 ==> r.bh[0] == h.recorded[0] && r.bh[1] == h.recorded[1] && r.bh[2] == EMPTY) &&
    (n >= 3 ==> r.bh[(n - 1) % 3] == h.recorded[n - 1] && r.bh[(n - 2) % 3] == h.recorded[n - 2] &&
                r.bh[n % 3] == h.recorded[n - 3])
  }

  ghost predicate DistinctRecent(h: History) {
    forall i, j :: 0 <= i < j < |h.recorded| && i >= |h.recorded| - BH_MAX ==>
      h.recorded[i].session != h.recorded[j].session
  }

  lemma RingSessions(r: BhRing, h: History, session: nat)
    requires Holds(r, h) && session != NO_SESSION
    ensures (exists i :: 0 <= i < |r.bh| && r.bh[i].session == session) <==> RecentSession(h.recorded, session)
  {
    var n := |h.recorded|;
    if i :| 0 <= i < BH_MAX && r.bh[i].session == session {
      var k := if n < 3 then i else if i == n % 3 then n - 3 else if i == (n - 2) % 3 then n - 2 else n - 1;
      assert h.recorded[k].session == session;
    }
    if k :| 0 <= k < n && k >= n - BH_MAX && h.recorded[k].session == session {
      var i := if n < 3 then k else if k == n - 3 then n % 3 else k % 3;
      assert r.bh[i].session == session;
    }
  }

  /** A lookup is accepted exactly when the plain history says so. */
  lemma AcceptsExactly(r: BhRing, h: History, evtime: Time, who: Who)
    requires Holds(r, h) && who.bh.session != NO_SESSION
    ensures Accepts(r, evtime, who) <==> HistoryAccepts(h, evtime, who)
  {
    RingSessions(r, h, who.bh.session);
  }

  lemma RecordHolds(r: BhRing, h: History, bh: Bh)
    requires Holds(r, h) && DistinctRecent(h)
    requires !bh.IsNull() && !RecentSession(h.recorded, bh.session)
    ensures Holds(Add(r, bh), h.(recorded := h.recorded + [bh]))
    ensures DistinctRecent(h.(recorded := h.recorded + [bh]))
  {
    var n := |h.recorded|;
    assert (n + 1) % 3 == if n % 3 == 2 then 0 else n % 3 + 1;
    assert n >= 1 ==> n % 3 != (n - 1) % 3;
    assert n >= 2 ==> n % 3 != (n - 2) % 3 && (n + 1) % 3 == (n - 2) % 3;
  }

  /** Over any events since the slot was filled, the ring is the tail of the history. */
  lemma StepHolds(r: BhRing, h: History, evtime: Time, e: Event)
    requires Holds(r, h) && DistinctRecent(h) && Real(e)
    ensures Holds(Step(r, evtime, e), HistoryStep(h, evtime, e))
    ensures DistinctRecent(HistoryStep(h, evtime, e))
  {
    match e
    case Recorded(who) =>
      AcceptsExactly(r, h, evtime, who);
      if !Accepts(r, evtime, who) && !who.bh.IsNull() { RecordHolds(r, h, who.bh); }
    case _ =>
  }

  function RingAfter(bh: Bh, evtime: Time, es: seq<Event>): (r: BhRing)
    ensures r.bhx < |r.bh| == BH_MAX
  {
    if es == [] then Reset(bh) else Step(RingAfter(bh, evtime, es[..|es| - 1]), evtime, es[|es| - 1])
  }

  function HistoryAfter(bh: Bh, evtime: Time, es: seq<Event>): History {
    if es == [] then HistoryStep(History(false, []), evtime, ResetTo(bh))
    else HistoryStep(HistoryAfter(bh, evtime, es[..|es| - 1]), evtime, es[|es| - 1])
  }

  lemma {:induction false} RingIsRecentHistory(bh: Bh, evtime: Time, es: seq<Event>)
    requires bh.session != NO_SESSION && forall i :: 0 <= i < |es| ==> Real(es[i])
    ensures Holds(RingAfter(bh, evtime, es), HistoryAfter(bh, evtime, es))
    ensures DistinctRecent(HistoryAfter(bh, evtime, es))
  {
    if es != [] {
      RingIsRecentHistory(bh, evtime, es[..|es| - 1]);
      StepHolds(RingAfter(bh, evtime, es[..|es| - 1]), HistoryAfter(bh, evtime, es[..|es| - 1]), evtime, es[|es| - 1]);
    }
  }

  /** Whole-life form: acceptance after any events is acceptance by the history of those events. */
  lemma LookupAcceptedOnlyByHistory(bh: Bh, evtime: Time, es: seq<Event>, who: Who)
    requires bh.session != NO_SESSION && who.bh.session != NO_SESSION
    requires forall i :: 0 <= i < |es| ==> Real(es[i])
    ensures Accepts(RingAfter(bh, evtime, es), evtime, who) <==>
            HistoryAccepts(HistoryAfter(bh, evtime, es), evtime, who)
  {
    RingIsRecentHistory(bh, evtime, es);
    AcceptsExactly(RingAfter(bh, evtime, es), HistoryAfter(bh, evtime, es), evtime, who);
  }
}
