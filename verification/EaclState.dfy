/**
  The EACL table as a value: reference-counted entries on hash chains, the handles
  that mnodes hold on them, and the holds of threads in between.
 */
module EaclState {
  import opened EaclFetch

  datatype Key = Key(rolemap: nat, replica: nat, viewType: nat)

  datatype Entry = Entry(key: Key, refcnt: int, lut: nat, policy: nat, h: Option<seq<Ace>>)

  /**
    `aclh` gives the handle of each mnode that has one, `role` the key of each mnode
    with a rolemap; `flight` are the holds of threads between two locked stretches.
   */
  datatype State = State(
    ent: map<nat, Entry>, chains: seq<seq<nat>>, cnt: seq<int>, aclh: map<nat, nat>, role: map<nat, Key>,
    flight: multiset<nat>)

  /** What the server answers for a key, where keys hash, and the limit of blocks for a fetch. */
  datatype Setting = Setting(server: Key -> Server, hash: Key -> nat, size: nat, blocks: nat)

  ghost predicate Timed(g: Setting) { g.blocks > 0 && forall k :: Dated(g.server(k)) }

  ghost predicate NoDup(s: seq<nat>) { forall i, j :: 0 <= i < j < |s| ==> s[i] != s[j] }

  ghost function Holders(aclh: map<nat, nat>, e: nat): set<nat> { set m | m in aclh && aclh[m] == e }

  /** The holds on an entry: one per mnode that points at it and one per thread in between. */
  ghost function Holds(s: State, e: nat): nat { |Holders(s.aclh, e)| + s.flight[e] }

  /** An entry's count is its holds, and what is held is in the table. */
  ghost predicate RefAt(s: State, e: nat) {
    (e in s.ent ==> s.ent[e].refcnt == Holds(s, e) && s.ent[e].refcnt > 0) && (e in s.flight ==> e in s.ent)
  }

  ghost predicate HandleAt(s: State, m: nat) { m in s.aclh ==> s.aclh[m] in s.ent }

  ghost predicate RefsOk(s: State) { (forall e :: RefAt(s, e)) && forall m :: HandleAt(s, m) }

  ghost predicate ChainOk(g: Setting, s: State, c: nat)
    requires c < |s.chains|
  {
    NoDup(s.chains[c]) && (forall e :: e in s.chains[c] ==> e in s.ent && g.hash(s.ent[e].key) == c)
  }

  ghost predicate OnChain(g: Setting, s: State, e: nat)
    requires e in s.ent
  {
    var c := g.hash(s.ent[e].key);
    c < |s.chains| && e in s.chains[c]
  }

  ghost predicate ChainAt(g: Setting, s: State, c: nat) {
    c < |s.chains| && c < |s.cnt| ==> ChainOk(g, s, c) && s.cnt[c] == |s.chains[c]|
  }

  ghost predicate EntryAt(g: Setting, s: State, e: nat) { e in s.ent ==> OnChain(g, s, e) }

  ghost predicate ChainsOk(g: Setting, s: State) {
    |s.chains| == |s.cnt| == g.size && (forall c :: ChainAt(g, s, c)) && forall e :: EntryAt(g, s, e)
  }

  ghost predicate KeysApart(s: State, e: nat, f: nat) {
    e in s.ent && f in s.ent && s.ent[e].key == s.ent[f].key ==> e == f
  }

  ghost predicate KeysUnique(s: State) { forall e, f :: KeysApart(s, e, f) }

  /** Counts, chains and keys are right. */
  ghost predicate Inv(g: Setting, s: State) {
    RefsOk(s) && ChainsOk(g, s) && KeysUnique(s) && forall k :: g.hash(k) < g.size
  }

  /**
    The entry has the whole list that the server had for its key at call n, and that
    list's time, unless the entry was outdated.
   */
  ghost predicate WholeAt(g: Setting, x: Entry, n: nat) {
    x.h == Some(g.server(x.key).now(n).entries) && (x.lut == 0 || x.lut == g.server(x.key).now(n).mtime)
  }

  /** It has nothing, or the whole of a list that the server had before a call. */
  ghost predicate Whole(g: Setting, x: Entry, tick: nat) { x.h.None? || exists n: nat :: n < tick && WholeAt(g, x, n) }

  /** An mnode's handle is for its own key. */
  ghost predicate Matches(s: State, m: nat) {
    m in s.aclh ==> m in s.role && s.aclh[m] in s.ent && s.ent[s.aclh[m]].key == s.role[m]
  }

  // ---- Counting handles ----

  lemma HoldersAdd(aclh: map<nat, nat>, m: nat, e: nat, x: nat)
    requires m !in aclh
    ensures |Holders(aclh[m := e], x)| == |Holders(aclh, x)| + if x == e then 1 else 0
  {
    if x == e {
      assert Holders(aclh[m := e], x) == Holders(aclh, x) + {m};
    } else {
      assert Holders(aclh[m := e], x) == Holders(aclh, x);
    }
  }

  lemma HoldersDrop(aclh: map<nat, nat>, m: nat, x: nat)
    requires m in aclh
    ensures |Holders(aclh - {m}, x)| == |Holders(aclh, x)| - if aclh[m] == x then 1 else 0
  {
    if aclh[m] == x {
      assert Holders(aclh, x) == Holders(aclh - {m}, x) + {m};
    } else {
      assert Holders(aclh, x) == Holders(aclh - {m}, x);
    }
  }

  // ---- Moving holds ----

  /** A thread's hold becomes an mnode's handle. */
  function Bind(s: State, m: nat, e: nat): State { s.(aclh := s.aclh[m := e], flight := s.flight - multiset{e}) }

  lemma BindInv(g: Setting, s: State, m: nat, e: nat)
    requires Inv(g, s) && m !in s.aclh && e in s.flight
    ensures Inv(g, Bind(s, m, e))
  {
    BindRefs(s, m, e);
    ChainsFrame(g, s, Bind(s, m, e));
    KeysFrame(s, Bind(s, m, e));
  }

  lemma BindRefs(s: State, m: nat, e: nat)
    requires RefsOk(s) && m !in s.aclh && e in s.flight
    ensures RefsOk(Bind(s, m, e))
  {
    var s' := Bind(s, m, e);
    assert RefAt(s, e);
    forall x ensures RefAt(s', x) {
      assert RefAt(s, x);
      HoldersAdd(s.aclh, m, e, x);
    }
    forall x ensures HandleAt(s', x) { assert HandleAt(s, x); }
  }

  /** An mnode's handle becomes a thread's hold. */
  function Unbind(s: State, m: nat): State
    requires m in s.aclh
  {
    s.(aclh := s.aclh - {m}, flight := s.flight + multiset{s.aclh[m]})
  }

  lemma UnbindInv(g: Setting, s: State, m: nat)
    requires Inv(g, s) && m in s.aclh
    ensures Inv(g, Unbind(s, m))
  {
    UnbindRefs(s, m);
    ChainsFrame(g, s, Unbind(s, m));
    KeysFrame(s, Unbind(s, m));
  }

  lemma UnbindRefs(s: State, m: nat)
    requires RefsOk(s) && m in s.aclh
    ensures RefsOk(Unbind(s, m))
  {
    var s' := Unbind(s, m);
    assert HandleAt(s, m);
    forall x ensures RefAt(s', x) {
      assert RefAt(s, x);
      HoldersDrop(s.aclh, m, x);
    }
    forall x ensures HandleAt(s', x) { assert HandleAt(s, x); }
  }

  /** Chains depend on the entries' keys and on the chains alone. */
  lemma ChainsFrame(g: Setting, s: State, s': State)
    requires ChainsOk(g, s) && s'.chains == s.chains && s'.cnt == s.cnt && s'.ent.Keys == s.ent.Keys
    requires forall e :: e in s.ent ==> s'.ent[e].key == s.ent[e].key
    ensures ChainsOk(g, s')
  {
    forall c ensures ChainAt(g, s', c) { assert ChainAt(g, s, c); }
    forall e ensures EntryAt(g, s', e) { assert EntryAt(g, s, e); }
  }

  lemma KeysFrame(s: State, s': State)
    requires KeysUnique(s) && forall e :: e in s'.ent ==> e in s.ent && s'.ent[e].key == s.ent[e].key
    ensures KeysUnique(s')
  {
    forall e, f ensures KeysApart(s', e, f) { assert KeysApart(s, e, f); }
  }

  // ---- Finding, adding and releasing ----

  function Hold(s: State, e: nat): State
    requires e in s.ent
  {
    s.(ent := s.ent[e := s.ent[e].(refcnt := s.ent[e].refcnt + 1)], flight := s.flight + multiset{e})
  }

  lemma HoldInv(g: Setting, s: State, e: nat)
    requires Inv(g, s) && e in s.ent
    ensures Inv(g, Hold(s, e))
  {
    ChainsFrame(g, s, Hold(s, e));
    KeysFrame(s, Hold(s, e));
    HoldRefs(s, e);
  }

  lemma HoldRefs(s: State, e: nat)
    requires RefsOk(s) && e in s.ent
    ensures RefsOk(Hold(s, e))
  {
    forall x ensures RefAt(Hold(s, e), x) { assert RefAt(s, x); }
    forall m ensures HandleAt(Hold(s, e), m) { assert HandleAt(s, m); }
  }

  /** A new entry at the head of its chain, held by its thread. */
  function Insert(g: Setting, s: State, e: nat, n: Entry): State
    requires g.hash(n.key) < |s.chains| == |s.cnt|
  {
    var c := g.hash(n.key);
    s.(ent := s.ent[e := n], chains := s.chains[c := [e] + s.chains[c]], cnt := s.cnt[c := s.cnt[c] + 1],
       flight := s.flight + multiset{e})
  }

  lemma InsertInv(g: Setting, s: State, e: nat, n: Entry)
    requires Inv(g, s) && e !in s.ent && n.refcnt == 1
    requires forall x :: x in s.ent ==> s.ent[x].key != n.key
    ensures Inv(g, Insert(g, s, e, n))
  {
    InsertChains(g, s, e, n);
    InsertRefs(g, s, e, n);
    forall x, y ensures KeysApart(Insert(g, s, e, n), x, y) { assert KeysApart(s, x, y); }
  }

  lemma InsertRefs(g: Setting, s: State, e: nat, n: Entry)
    requires RefsOk(s) && e !in s.ent && n.refcnt == 1 && g.hash(n.key) < |s.chains| == |s.cnt|
    ensures RefsOk(Insert(g, s, e, n))
  {
    var s' := Insert(g, s, e, n);
    assert Holders(s.aclh, e) == {} by {
      forall m | m in s.aclh ensures s.aclh[m] != e { assert HandleAt(s, m); }
    }
    forall x ensures RefAt(s', x) { assert RefAt(s, x); }
    forall m ensures HandleAt(s', m) { assert HandleAt(s, m); }
  }

  lemma InsertChains(g: Setting, s: State, e: nat, n: Entry)
    requires ChainsOk(g, s) && e !in s.ent && g.hash(n.key) < g.size
    ensures ChainsOk(g, Insert(g, s, e, n))
  {
    var s', c := Insert(g, s, e, n), g.hash(n.key);
    forall d ensures ChainAt(g, s', d) {
      assert ChainAt(g, s, d);
      assert d == c ==> e !in s.chains[c];
    }
    forall x ensures EntryAt(g, s', x) {
      if x != e { assert EntryAt(g, s, x); } else { assert s'.chains[c][0] == e; }
    }
  }

  function Without(s: seq<nat>, e: nat): (r: seq<nat>)
    requires e in s
    ensures |r| == |s| - 1
  {
    if s[0] == e then s[1..] else [s[0]] + Without(s[1..], e)
  }

  lemma {:induction false} WithoutMembers(s: seq<nat>, e: nat)
    requires NoDup(s) && e in s
    ensures NoDup(Without(s, e)) && forall x :: x in Without(s, e) <==> x in s && x != e
  {
    if s[0] != e {
      WithoutMembers(s[1..], e);
      assert s == [s[0]] + s[1..];
      assert s[0] !in s[1..];
      var r := Without(s[1..], e);
      assert forall j :: 0 <= j < |r| ==> r[j] in r;
    } else {
      assert s == [e] + s[1..];
    }
  }

  /** mvfs_eaclhash_release: the last hold takes the entry off its chain and frees it. */
  function Drop(g: Setting, s: State, e: nat): State
    requires e in s.ent && g.hash(s.ent[e].key) < |s.chains| == |s.cnt| && e in s.chains[g.hash(s.ent[e].key)]
  {
    var n, c := s.ent[e], g.hash(s.ent[e].key);
    var s1 := s.(flight := s.flight - multiset{e});
    if n.refcnt == 1 then
      s1.(ent := s.ent - {e}, chains := s.chains[c := Without(s.chains[c], e)], cnt := s.cnt[c := s.cnt[c] - 1])
    else
      s1.(ent := s.ent[e := n.(refcnt := n.refcnt - 1)])
  }

  lemma DropInv(g: Setting, s: State, e: nat)
    requires Inv(g, s) && e in s.flight
    ensures e in s.ent && OnChain(g, s, e) && Inv(g, Drop(g, s, e))
  {
    assert RefAt(s, e) && EntryAt(g, s, e);
    DropRefs(g, s, e);
    if s.ent[e].refcnt == 1 { DropChains(g, s, e); } else { ChainsFrame(g, s, Drop(g, s, e)); }
    KeysFrame(s, Drop(g, s, e));
  }

  lemma DropRefs(g: Setting, s: State, e: nat)
    requires RefsOk(s) && e in s.flight && e in s.ent && OnChain(g, s, e) && |s.chains| == |s.cnt|
    ensures RefsOk(Drop(g, s, e))
  {
    var s' := Drop(g, s, e);
    if s.ent[e].refcnt == 1 { LastHold(s, e); }
    forall x ensures RefAt(s', x) { assert RefAt(s, x); }
    forall m ensures HandleAt(s', m) { assert HandleAt(s, m); }
  }

  /** When the count is one, the thread's hold is the only one: no mnode points at the entry. */
  lemma LastHold(s: State, e: nat)
    requires RefsOk(s) && e in s.flight && e in s.ent && s.ent[e].refcnt == 1
    ensures s.flight[e] == 1 && forall m :: m in s.aclh ==> s.aclh[m] != e
  {
    assert RefAt(s, e) && Holds(s, e) == 1;
    assert Holders(s.aclh, e) == {};
    forall m | m in s.aclh ensures s.aclh[m] != e { assert m !in Holders(s.aclh, e); }
  }

  lemma DropChains(g: Setting, s: State, e: nat)
    requires ChainsOk(g, s) && e in s.ent && OnChain(g, s, e) && s.ent[e].refcnt == 1
    ensures ChainsOk(g, Drop(g, s, e))
  {
    var s', c := Drop(g, s, e), g.hash(s.ent[e].key);
    assert ChainAt(g, s, c);
    WithoutMembers(s.chains[c], e);
    forall d ensures ChainAt(g, s', d) { assert ChainAt(g, s, d); }
    forall x ensures EntryAt(g, s', x) { assert EntryAt(g, s, x); }
  }

  /** New contents for an entry; its key and count stay. */
  function Refill(s: State, e: nat, lut: nat, policy: nat, h: Option<seq<Ace>>): State
    requires e in s.ent
  {
    s.(ent := s.ent[e := s.ent[e].(lut := lut, policy := policy, h := h)])
  }

  lemma RefillInv(g: Setting, s: State, e: nat, lut: nat, policy: nat, h: Option<seq<Ace>>)
    requires Inv(g, s) && e in s.ent
    ensures Inv(g, Refill(s, e, lut, policy, h))
  {
    var s' := Refill(s, e, lut, policy, h);
    ChainsFrame(g, s, s');
    KeysFrame(s, s');
    forall x ensures RefAt(s', x) { assert RefAt(s, x); }
    forall m ensures HandleAt(s', m) { assert HandleAt(s, m); }
  }
}
