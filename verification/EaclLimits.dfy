/**
  Runs in which an access check meets part of a list, or loses the list it has seen,
  because it looks without the chain's lock.
 */
module EaclLimits {
  import opened EaclFetch
  import opened EaclState
  import opened EaclTable
  import opened EaclRuns
  import opened EaclTheorems

  const K := Key(1, 1, 0)
  const LIST: seq<Ace> := [7, 8]
  const X: nat := 5

  /** A server whose list never changes, and whose replies hold one entry each. */
  ghost function Plain(): (g: Setting)
    ensures Timed(g) && forall k :: g.hash(k) < g.size
  {
    var sv := Server(_ => Version(1, LIST, 0), _ => 0, _ => Fine, _ => 0);
    var g := Setting(_ => sv, _ => 0, 1, 100);
    assert forall m, n :: OneVersion(sv, m, n);
    g
  }

  ghost function Bare(role: map<nat, Key>): State { State(map[], [[]], [0], map[], role, multiset{}) }

  ghost function One(refcnt: int, lut: nat, h: Option<seq<Ace>>, aclh: map<nat, nat>, role: map<nat, Key>,
                     flight: multiset<nat>): State {
    State(map[X := Entry(K, refcnt, lut, 0, h)], [[X]], [1], aclh, role, flight)
  }

  const R0 := map[0 := K]
  const R1 := map[0 := K, 1 := K]
  const A0: map<nat, nat> := map[0 := X]
  const A1: map<nat, nat> := map[0 := X, 1 := X]
  const F1 := Progress(Some([7]), 1, 0, Cursor(1, 1), 1, false, false)
  const F2 := Progress(Some(LIST), 1, 0, Cursor(1, 0), 2, false, true)

  // ---- The common beginning ----

  /** Thread 0 fetches the list for a new entry through mnode 0, and binds it. */
  ghost function Filling0(): seq<World> {
    [World(Bare(map[]), [Out, Out], 0), World(Bare(map[]), [Locked(0), Out], 1),
     World(Bare(R0), [Changed(0), Out], 2), World(Bare(R0), [Filling(0, K, Begin(0, 0)), Out], 3),
     World(Bare(R0), [Filling(0, K, F1), Out], 4), World(Bare(R0), [Filling(0, K, F2), Out], 5),
     World(One(1, 1, Some(LIST), map[], R0, multiset{X}), [Holding(0, Some(X)), Out], 6),
     World(One(1, 1, Some(LIST), map[], R0, multiset{X}), [Cleared(0, Some(X)), Out], 7),
     World(One(1, 1, Some(LIST), A0, R0, multiset{}), [Locked(0), Out], 8)]
  }

  const FILLS: seq<Step> :=
    [Lock(0, 0), Copy(0, Some(K)), New(0), EaclRuns.Call(0), EaclRuns.Call(0), Done(0, X), Compare(0), EaclRuns.Bind(0)]

  /** Thread 1 binds mnode 1 to the same entry, and validates it for a check. */
  ghost function Sharing1(): seq<World> {
    [World(One(1, 1, Some(LIST), A0, R0, multiset{}), [Locked(0), Out], 8),
     World(One(1, 1, Some(LIST), A0, R0, multiset{}), [Locked(0), Locked(1)], 9),
     World(One(1, 1, Some(LIST), A0, R1, multiset{}), [Locked(0), Changed(1)], 10),
     World(One(2, 1, Some(LIST), A0, R1, multiset{X}), [Locked(0), Holding(1, Some(X))], 11),
     World(One(2, 1, Some(LIST), A0, R1, multiset{X}), [Locked(0), Cleared(1, Some(X))], 12),
     World(One(2, 1, Some(LIST), A1, R1, multiset{}), [Locked(0), Locked(1)], 13),
     World(One(2, 1, Some(LIST), A1, R1, multiset{}), [Locked(0), Checking(1)], 14)]
  }

  const SHARES: seq<Step> :=
    [Lock(1, 1), Copy(1, Some(K)), Find(1, X, 1, 0), Compare(1), EaclRuns.Bind(1), Check(1, 1, 0)]

  // ---- Two ways on, once the rolemap is invalidated ----

  /** Thread 0 starts to fetch the entry again, and thread 1 looks after the first call. */
  ghost function Part(): seq<World> {
    [World(One(2, 1, Some(LIST), A1, R1, multiset{}), [Locked(0), Checking(1)], 14),
     World(One(2, 0, Some(LIST), A1, R1, multiset{}), [Locked(0), Checking(1)], 15),
     World(One(2, 0, None, A1, R1, multiset{}), [Renewing(0, K, X, Begin(0, 0), true), Checking(1)], 16),
     World(One(2, 1, Some([7]), A1, R1, multiset{}), [Renewing(0, K, X, F1, true), Checking(1)], 17),
     World(One(2, 1, Some([7]), A1, R1, multiset{}), [Renewing(0, K, X, F1, true), Looking(1)], 18)]
  }

  const PARTS: seq<Step> := [Inval(0, 0, false, K.rolemap), Check(0, 1, 0), EaclRuns.Call(0), Read(1)]

  /** Thread 1 looks, thread 0 starts to fetch the entry again, and thread 1 uses what it saw. */
  ghost function Lost(): seq<World> {
    [World(One(2, 1, Some(LIST), A1, R1, multiset{}), [Locked(0), Checking(1)], 14),
     World(One(2, 1, Some(LIST), A1, R1, multiset{}), [Locked(0), Looking(1)], 15),
     World(One(2, 0, Some(LIST), A1, R1, multiset{}), [Locked(0), Looking(1)], 16),
     World(One(2, 0, None, A1, R1, multiset{}), [Renewing(0, K, X, Begin(0, 0), true), Looking(1)], 17),
     World(One(2, 0, None, A1, R1, multiset{}), [Renewing(0, K, X, Begin(0, 0), true), Locked(1)], 18)]
  }

  const LOSES: seq<Step> := [Read(1), Inval(0, 0, false, K.rolemap), Check(0, 1, 0), Use(1)]

  // ---- The steps, thread by thread ----

  lemma FillMoves(n: nat)
    requires n < 8
    ensures Moves(Plain(), Filling0()[n], FILLS[n], Filling0()[n + 1])
  {
    if n < 5 { FetchMoves(n); } else { KeepMoves(n); }
  }

  lemma FetchMoves(n: nat)
    requires n < 5
    ensures Moves(Plain(), Filling0()[n], FILLS[n], Filling0()[n + 1])
  {
    Calls();
    SameWorld(Filling0()[n], FILLS[n].t, Do(Plain(), Filling0()[n], FILLS[n]), Filling0()[n + 1]);
  }

  lemma KeepMoves(n: nat)
    requires 5 <= n < 8
    ensures Moves(Plain(), Filling0()[n], FILLS[n], Filling0()[n + 1])
  {
    assert [X] + [] == [X];
    SameWorld(Filling0()[n], FILLS[n].t, Do(Plain(), Filling0()[n], FILLS[n]), Filling0()[n + 1]);
  }

  lemma ShareMoves(n: nat)
    requires n < 6
    ensures Moves(Plain(), Sharing1()[n], SHARES[n], Sharing1()[n + 1])
  {
    if n < 3 { FindMoves(n); } else { HandleMoves(n); }
  }

  lemma FindMoves(n: nat)
    requires n < 3
    ensures Moves(Plain(), Sharing1()[n], SHARES[n], Sharing1()[n + 1])
  {
    SameWorld(Sharing1()[n], SHARES[n].t, Do(Plain(), Sharing1()[n], SHARES[n]), Sharing1()[n + 1]);
  }

  lemma HandleMoves(n: nat)
    requires 3 <= n < 6
    ensures Moves(Plain(), Sharing1()[n], SHARES[n], Sharing1()[n + 1])
  {
    SameWorld(Sharing1()[n], SHARES[n].t, Do(Plain(), Sharing1()[n], SHARES[n]), Sharing1()[n + 1]);
  }

  lemma PartMoves(n: nat)
    requires n < 4
    ensures Moves(Plain(), Part()[n], PARTS[n], Part()[n + 1])
  {
    if n == 0 { Outdates(Part()[0], Part()[1]); } else { RefetchMoves(n); }
  }

  lemma RefetchMoves(n: nat)
    requires 1 <= n < 4
    ensures Moves(Plain(), Part()[n], PARTS[n], Part()[n + 1])
  {
    Calls();
    SameWorld(Part()[n], PARTS[n].t, Do(Plain(), Part()[n], PARTS[n]), Part()[n + 1]);
  }

  lemma LoseMoves(n: nat)
    requires n < 4
    ensures Moves(Plain(), Lost()[n], LOSES[n], Lost()[n + 1])
  {
    if n == 1 {
      Outdates(Lost()[1], Lost()[2]);
    } else {
      SameWorld(Lost()[n], LOSES[n].t, Do(Plain(), Lost()[n], LOSES[n]), Lost()[n + 1]);
    }
  }

  /** The invalidation resets the entry's time. */
  lemma Outdates(w: World, w': World)
    requires w.s == One(2, 1, Some(LIST), A1, R1, multiset{}) && |w.phases| == 2
    requires w' == World(One(2, 0, Some(LIST), A1, R1, multiset{}), w.phases, w.tick + 1)
    ensures World(Marked(w.s, 0, false, K.rolemap), w.phases, w.tick + 1) == w'
  {
    assert Marked(w.s, 0, false, K.rolemap).ent == w'.s.ent;
  }

  /** Two worlds are the same when their parts are. */
  lemma SameWorld(w: World, t: nat, r: (State, Phase), w': World)
    requires t < |w.phases| && w.phases[t := r.1] == w'.phases && w'.tick == w.tick + 1
    requires r.0.ent == w'.s.ent && r.0.chains == w'.s.chains && r.0.cnt == w'.s.cnt
    requires r.0.aclh == w'.s.aclh && r.0.role == w'.s.role && r.0.flight == w'.s.flight
    ensures World(r.0, w.phases[t := r.1], w.tick + 1) == w'
  {
  }

  /** The calls of the scan. */
  lemma Calls()
    ensures forall n: nat ::
              NextCall(Plain().server(K), n, Begin(0, 0)) == F1 && NextCall(Plain().server(K), n, F1) == F2
  {
    assert LIST[0..1] == [7] && LIST[1..2] == [8] && [] + LIST[0..1] == [7] && [7] + LIST[1..2] == LIST;
  }

  // ---- The runs ----

  lemma FromInitial()
    ensures Initial(Plain(), Filling0()[0])
  {
    var g := Plain();
    assert seq<seq<nat>>(g.size, _ => []) == [[]] && seq<int>(g.size, _ => 0) == [0];
  }

  /** Stretches of a run, one from where the other ends. */
  lemma Joined(g: Setting, ws: seq<World>, steps: seq<Step>, vs: seq<World>, more: seq<Step>)
    requires |ws| == |steps| + 1 && |vs| == |more| + 1 && ws[|steps|] == vs[0]
    requires forall n: nat :: n < |steps| ==> MovesAt(g, ws, steps, n)
    requires forall n: nat :: n < |more| ==> MovesAt(g, vs, more, n)
    ensures forall n: nat :: n < |steps| + |more| ==> MovesAt(g, ws + vs[1..], steps + more, n)
    ensures (ws + vs[1..])[0] == ws[0] && |ws + vs[1..]| == |steps + more| + 1
    ensures forall n :: 0 <= n < |vs| ==> (ws + vs[1..])[|steps| + n] == vs[n]
  {
    var us, all := ws + vs[1..], steps + more;
    assert forall n :: 0 <= n < |vs| ==> us[|steps| + n] == vs[n];
    forall n: nat | n < |steps| + |more| ensures MovesAt(g, us, all, n) {
      if n < |steps| {
        assert MovesAt(g, ws, steps, n);
      } else {
        assert MovesAt(g, vs, more, n - |steps|) && us[n] == vs[n - |steps|] && us[n + 1] == vs[n + 1 - |steps|];
      }
    }
  }

  ghost function Shared(): seq<World> { Filling0() + Sharing1()[1..] }

  lemma SharedMoves()
    ensures |Shared()| == |FILLS + SHARES| + 1 && Shared()[0] == Filling0()[0] && Shared()[14] == Sharing1()[6]
    ensures forall n: nat :: n < 14 ==> MovesAt(Plain(), Shared(), FILLS + SHARES, n)
  {
    forall n: nat | n < 8 ensures MovesAt(Plain(), Filling0(), FILLS, n) { FillMoves(n); }
    forall n: nat | n < 6 ensures MovesAt(Plain(), Sharing1(), SHARES, n) { ShareMoves(n); }
    Joined(Plain(), Filling0(), FILLS, Sharing1(), SHARES);
  }

  /** A run ends with a look at the first entry of a list of two. */
  lemma PartIsRead() returns (ws: seq<World>, steps: seq<Step>)
    ensures Run(Plain(), ws, steps) && |steps| == 18 && steps[17] == Read(1) && ws[17] == Part()[3]
    ensures X in ws[17].s.ent && ws[17].s.ent[X].h == Some([7]) && Busy(ws[17], X)
  {
    SharedMoves();
    forall n: nat | n < 4 ensures MovesAt(Plain(), Part(), PARTS, n) { PartMoves(n); }
    Joined(Plain(), Shared(), FILLS + SHARES, Part(), PARTS);
    ws, steps := Shared() + Part()[1..], FILLS + SHARES + PARTS;
    FromInitial();
    assert ws[14 + 3] == Part()[3] && ws[17].phases[0].Renewing?;
  }

  /** So what is looked at is not the whole of any list that the server had. */
  lemma PartIsNotWhole() returns (ws: seq<World>, steps: seq<Step>)
    ensures Run(Plain(), ws, steps) && |steps| == 18 && steps[17] == Read(1)
    ensures X in ws[17].s.ent && ws[17].s.ent[X].h == Some([7]) && !Whole(Plain(), ws[17].s.ent[X], ws[17].tick)
  {
    ws, steps := PartIsRead();
    RunInv(Plain(), ws, steps, 17);
    WholeIffNotBusy(Plain(), ws[17], X);
  }

  /** A run ends with the use of a list that was whole when it was looked at, and has been freed since. */
  lemma FreedIsUsed() returns (ws: seq<World>, steps: seq<Step>)
    ensures Run(Plain(), ws, steps) && |steps| == 18 && LooksFrom(ws, steps, 14, 17, 1, 1, X)
    ensures X in ws[14].s.ent && ws[14].s.ent[X].h == Some(LIST) && !Busy(ws[14], X) && !Lives(ws, 14, 17, X)
  {
    SharedMoves();
    forall n: nat | n < 4 ensures MovesAt(Plain(), Lost(), LOSES, n) { LoseMoves(n); }
    Joined(Plain(), Shared(), FILLS + SHARES, Lost(), LOSES);
    ws, steps := Shared() + Lost()[1..], FILLS + SHARES + LOSES;
    FromInitial();
    assert ws[14] == Lost()[0] && ws[14 + 1] == Lost()[1] && ws[14 + 2] == Lost()[2] && ws[14 + 3] == Lost()[3];
    assert ws[17].s.ent[X].h.None?;
  }
}
