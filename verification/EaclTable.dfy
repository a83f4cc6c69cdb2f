/**
  The EACL table as the code keeps it, and access checks against it.

  Each method is one stretch of code under a chain lock, or a whole operation of one
  thread that holds its mnode's lock; `Valid` holds at the end of every stretch.
 */
module EaclTable {
  import opened EaclFetch
  import opened EaclState

  const ERR_TIMEOUT: nat := 240
  const EACCES := 13

  /** Permissions on elements. */
  const READ_INFO: nat := 1
  const WRITE_DIR: nat := 2
  const LOOKUP_DIR: nat := 4

  /** What the caller asks for, and what the mode bits say about execution. */
  datatype Want = Want(read: bool, write: bool, exec: bool)
  datatype Who = Who(root: bool, owner: bool)
  datatype Mode = Mode(xusr: bool, xgrp: bool)

  /** The permissions an ACL must grant for a request on an object of this type. */
  function Perms(w: Want, dir: bool): set<nat> {
    (if w.read then {READ_INFO} else {}) +
    (if dir then (if w.write then {WRITE_DIR} else {}) + (if w.exec then {LOOKUP_DIR} else {})
     else if w.exec then {READ_INFO} else {})
  }

  /**
    What the mode bits forbid whatever the ACL says: writing a file of a VOB, and executing one
    without x for owner or group.
   */
  predicate Barred(w: Want, dir: bool, who: Who, mode: Mode) {
    !dir && (w.write || (w.exec && !((mode.xusr && who.owner) || mode.xgrp)))
  }

  class Table {
    const g: Setting
    var ent: map<nat, Entry>
    var chains: seq<seq<nat>>
    var cnt: seq<int>
    var aclh: map<nat, nat>
    var role: map<nat, Key>
    var tick: nat                  // the number of the next call to the server
    ghost var flight: multiset<nat>

    ghost function Model(): State
      reads this
    {
      State(ent, chains, cnt, aclh, role, flight)
    }

    /** All is right, except that the handle of mnode m may be for a rolemap that it had before. */
    ghost predicate ValidBut(m: int)
      reads this
    {
      Inv(g, Model()) && Timed(g) && AllWhole(g, ent, tick) && AllMatch(Model(), m)
    }

    ghost predicate Valid()
      reads this
    {
      ValidBut(-1)
    }

    constructor (g: Setting)
      requires Timed(g) && forall k :: g.hash(k) < g.size
      ensures Valid() && this.g == g && ent == map[] && aclh == map[] && flight == multiset{}
    {
      this.g := g;
      ent, aclh, role, tick, flight := map[], map[], map[], 0, multiset{};
      chains, cnt := seq(g.size, _ => []), seq(g.size, _ => 0);
    }

    // ---- Stretches under a chain lock ----

    /** The walk of mvfs_eaclhash_find_entry: one chain answers for the whole table. */
    method Find(key: Key) returns (r: Option<nat>)
      requires Inv(g, Model())
      ensures r.Some? ==> r.value in ent && ent[r.value].key == key
      ensures r.None? ==> forall e :: e in ent ==> ent[e].key != key
    {
      var c, i := g.hash(key), 0;
      assert ChainAt(g, Model(), c);
      while i < |chains[c]|
        invariant 0 <= i <= |chains[c]|
        invariant forall j :: 0 <= j < i ==> chains[c][j] in ent && ent[chains[c][j]].key != key
      {
        var e := chains[c][i];
        assert e in chains[c];
        if ent[e].key == key { return Some(e); }
        i := i + 1;
      }
      forall e | e in ent ensures ent[e].key != key { assert EntryAt(g, Model(), e); }
      r := None;
    }

    /** mvfs_eaclhash_validate_eaclh: fetch again if the object's list is newer, or some time after a failure. */
    method Validate(e: nat, mtime: nat, clock: nat, ghost m: int)
      requires ValidBut(m) && e in ent
      modifies this`ent, this`tick
      ensures ValidBut(m) && e in ent && Model() == Refill(old(Model()), e, ent[e].lut, ent[e].policy, ent[e].h)
      ensures old(tick) <= tick <= old(tick) + 2 * g.blocks
      ensures if Expired(old(ent)[e], mtime, clock) then
                Complete(g.server(ent[e].key), ent[e].h, ent[e].lut, ent[e].policy, tick)
              else Model() == old(Model()) && tick == old(tick)
    {
      var n := ent[e];
      ghost var s := Model();
      if mtime > n.lut || (n.h.None? && n.lut + ERR_TIMEOUT < clock) {
        var h, lut, policy, calls, restarted, fs := Fetch(g.blocks, g.server(n.key), tick, n.lut, n.policy);
        RefillOk(g, s, e, lut, policy, h, tick, tick + calls, m);
        ent, tick := ent[e := n.(lut := lut, policy := policy, h := h)], tick + calls;
        assert Model() == Refill(s, e, lut, policy, h);
      } else {
        assert ent[e := ent[e]] == ent;
      }
    }

    /** A hold for the entry found. */
    method HoldEntry(e: nat, ghost m: int)
      requires ValidBut(m) && e in ent
      modifies this`ent, this`flight
      ensures ValidBut(m) && Model() == EaclState.Hold(old(Model()), e)
    {
      HoldOk(g, Model(), e, tick, m);
      ent, flight := ent[e := ent[e].(refcnt := ent[e].refcnt + 1)], flight + multiset{e};
      assert Model() == EaclState.Hold(old(Model()), e);
    }

    /** mvfs_eaclhash_add_entry of an entry with its fetched list, at a fresh address. */
    method AddEntry(e: nat, key: Key, ghost m: int) returns (n: Entry)
      requires ValidBut(m) && e !in ent && Absent(Model(), key)
      modifies this`ent, this`chains, this`cnt, this`flight, this`tick
      ensures ValidBut(m) && n.key == key && n.refcnt == 1 && Complete(g.server(key), n.h, n.lut, n.policy, tick)
      ensures old(tick) <= tick <= old(tick) + 2 * g.blocks
      ensures g.hash(key) < |old(chains)| == |old(cnt)| && Model() == Insert(g, old(Model()), e, n)
    {
      var h, lut, policy, calls, restarted, fs := Fetch(g.blocks, g.server(key), tick, 0, 0);
      n := Entry(key, 1, lut, policy, h);
      PutEntry(e, n, tick + calls, m);
    }

    method PutEntry(e: nat, n: Entry, now: nat, ghost m: int)
      requires ValidBut(m) && e !in ent && Absent(Model(), n.key) && n.refcnt == 1
      requires tick <= now && Complete(g.server(n.key), n.h, n.lut, n.policy, now)
      modifies this`ent, this`chains, this`cnt, this`flight, this`tick
      ensures ValidBut(m) && tick == now
      ensures g.hash(n.key) < |old(chains)| == |old(cnt)| && Model() == Insert(g, old(Model()), e, n)
    {
      ghost var s := Model();
      InsertOk(g, s, e, n, tick, now, m);
      var c := g.hash(n.key);
      ent, flight, tick := ent[e := n], flight + multiset{e}, now;
      chains, cnt := chains[c := [e] + chains[c]], cnt[c := cnt[c] + 1];
      assert Model() == Insert(g, s, e, n);
    }

    /** mvfs_eaclhash_get; room is the address of new storage, null if there is none. */
    method Get(key: Key, mtime: nat, clock: nat, room: Option<nat>, ghost m: int) returns (r: Option<nat>)
      requires ValidBut(m) && (room.Some? ==> room.value !in ent)
      modifies this`ent, this`chains, this`cnt, this`flight, this`tick
      ensures ValidBut(m) && (r.None? <==> room.None? && Absent(old(Model()), key))
      ensures if r.Some? then Held(old(Model()), Model(), key, r.value) else Model() == old(Model())
    {
      ghost var t := Model();
      r := Find(key);
      if r.Some? {
        HoldEntry(r.value, m);
        Validate(r.value, mtime, clock, m);
        HeldFound(t, r.value, ent[r.value].lut, ent[r.value].policy, ent[r.value].h);
      } else if room.Some? {
        var n := AddEntry(room.value, key, m);
        HeldNew(g, t, room.value, n);
        r := room;
      }
    }

    /** mvfs_eaclhash_release of a thread's own hold: the last one frees the entry. */
    method Release(e: nat, ghost m: int)
      requires ValidBut(m) && e in flight
      modifies this`ent, this`chains, this`cnt, this`flight
      ensures ValidBut(m) && Dropped(old(Model()), Model(), e)
    {
      ghost var s := Model();
      DropOk(g, s, e, tick, m);
      var n, c := ent[e], g.hash(ent[e].key);
      if n.refcnt == 1 {
        ent, flight := ent - {e}, flight - multiset{e};
        chains, cnt := chains[c := Without(chains[c], e)], cnt[c := cnt[c] - 1];
      } else {
        ent, flight := ent[e := n.(refcnt := n.refcnt - 1)], flight - multiset{e};
      }
      assert Model() == Drop(g, s, e);
    }

    // ---- Operations of a thread that holds the mnode's lock ----

    /** mvfs_eaclhash_release of an mnode's handle, and mvfs_acl_uncache. */
    method ReleaseHandle(m: nat)
      requires ValidBut(m)
      modifies this`ent, this`chains, this`cnt, this`aclh, this`flight
      ensures Valid() && LetGo(old(Model()), Model(), m)
    {
      ghost var s := Model();
      if m in aclh {
        var e := aclh[m];
        UnbindOk(g, s, m);
        aclh, flight := aclh - {m}, flight + multiset{e};
        assert Model() == Unbind(s, m);
        Release(e, -1);
        LetGoBound(s, Model(), m);
      } else {
        assert aclh - {m} == aclh;
      }
    }

    /**
      The attributes of the mnode are copied, and with them its rolemap or that it has
      none; then mvfs_acl_cache.
     */
    method CacheAcl(m: nat, key: Option<Key>, mtime: nat, clock: nat, room: Option<nat>)
      requires Valid() && (room.Some? ==> room.value !in ent)
      modifies this
      ensures Valid() && Cached(old(Model()), Model(), m, key)
      ensures m in aclh <==> key.Some? && (room.Some? || !Absent(old(Model()), key.value))
    {
      ghost var was := Model();
      Copy(m, key);
      if key.None? {
        ReleaseHandle(m);
        return;
      }
      var r := Get(key.value, mtime, clock, room, m);
      ghost var mid := Model();
      Install(m, r);
      CachedAfter(was, mid, Model(), m, key.value, r);
    }

    /** The rolemap changes while the handle is still the old one. */
    method Copy(m: nat, key: Option<Key>)
      requires Valid()
      modifies this`role
      ensures ValidBut(m) && role == Reroled(old(role), m, key)
    {
      ghost var s := Model();
      role := if key.Some? then role[m := key.value] else role - {m};
      RoleInv(g, s, role);
      MatchFrame(s, Model(), m);
    }

    /** The hold from mvfs_eaclhash_get replaces the handle, or goes if the handle is on that very entry. */
    method Install(m: nat, r: Option<nat>)
      requires ValidBut(m) && m in role
      requires r.Some? ==> r.value in flight && r.value in ent && ent[r.value].key == role[m]
      modifies this`ent, this`chains, this`cnt, this`aclh, this`flight
      ensures Valid() && Installed(old(Model()), Model(), m, r)
    {
      ghost var s := Model();
      if (if m in aclh then Some(aclh[m]) else None) == r {
        if r.Some? {
          MatchesNow(s, m);
          PutBack(aclh, m, r.value);
          Release(r.value, -1);
        } else {
          assert aclh - {m} == aclh;
        }
      } else {
        PutAgain(aclh, m, if r.Some? then r.value else 0);
        ReleaseHandle(m);
        if r.Some? {
          StillHeld(s, Model(), m, r.value);
          Take(m, r.value);
        }
      }
    }

    /** The thread's hold becomes the mnode's handle. */
    method Take(m: nat, e: nat)
      requires Valid() && m !in aclh && e in flight && m in role && e in ent && ent[e].key == role[m]
      modifies this`aclh, this`flight
      ensures Valid() && aclh == old(aclh)[m := e] && flight == old(flight) - multiset{e}
    {
      ghost var s := Model();
      BindOk(g, s, m, e);
      aclh, flight := aclh[m := e], flight - multiset{e};
      assert Model() == Bind(s, m, e);
    }

    /** mvfs_acl_inval_oid: walking all chains reaches every entry of that rolemap or policy. */
    method InvalOid(policy: bool, oid: nat)
      requires Valid()
      modifies this`ent
      ensures Valid() && Outdated(old(ent), ent, policy, oid)
    {
      ghost var s := Model();
      ent := MarkChains(chains, ent, policy, oid, g, s);
      OutdatedOk(g, s, ent, policy, oid, tick);
      assert Model() == s.(ent := ent);
    }

    // ---- Access ----

    /**
      mvfs_chkaccess_acl, when no other thread uses the entry.  modebits says that the
      mode bits decide; otherwise error does.  grant is the check of a list against the
      permissions asked for.
     */
    method CheckAccess(m: nat, vob: bool, dir: bool, want: Want, who: Who, mode: Mode,
                       grant: (seq<Ace>, set<nat>) -> bool, mtime: nat, clock: nat)
      returns (error: int, modebits: bool)
      requires Valid()
      modifies this`ent, this`tick
      ensures Valid() && (modebits <==> !who.root && (!vob || m !in role)) && (who.root ==> error == 0)
      ensures !who.root && !modebits ==>
                (error == 0 <==> m in aclh && aclh[m] in ent && Grants(ent[aclh[m]].h, want, dir, who, mode, grant))
      ensures !who.root && !modebits && error == 0 ==>
                ent[aclh[m]].key == role[m] && exists n: nat :: n < tick && WholeAt(g, ent[aclh[m]], n)
    {
      if who.root { return 0, false; }
      if !vob || m !in role { return 0, true; }
      if m !in aclh { return EACCES, false; }
      assert Matches(Model(), m);
      Validate(aclh[m], mtime, clock, -1);
      assert Matches(Model(), m) && WholeIn(g, ent, aclh[m], tick);
      error := Decide(ent[aclh[m]].h, want, dir, who, mode, grant);
      modebits := false;
    }
  }

  // ---- What the stretches keep ----

  ghost predicate AllWhole(g: Setting, ent: map<nat, Entry>, tick: nat) {
    forall e {:trigger WholeIn(g, ent, e, tick)} :: WholeIn(g, ent, e, tick)
  }

  ghost predicate WholeIn(g: Setting, ent: map<nat, Entry>, e: nat, tick: nat) { e in ent ==> Whole(g, ent[e], tick) }

  ghost predicate AllMatch(s: State, m: int) { forall x :: x != m ==> Matches(s, x) }

  function Reroled(role: map<nat, Key>, m: nat, key: Option<Key>): map<nat, Key> {
    if key.Some? then role[m := key.value] else role - {m}
  }

  /** What a finished fetch leaves is whole. */
  lemma CompleteWhole(g: Setting, x: Entry, tick: nat)
    requires Complete(g.server(x.key), x.h, x.lut, x.policy, tick)
    ensures Whole(g, x, tick)
  {
    if x.h.Some? {
      var n: nat :| n < tick && g.server(x.key).now(n) == Version(x.lut, x.h.value, x.policy);
      assert WholeAt(g, x, n);
    }
  }

  /** A count changes nothing about the list. */
  lemma AllWholeCount(g: Setting, ent: map<nat, Entry>, e: nat, r: int, tick: nat)
    requires e in ent && AllWhole(g, ent, tick)
    ensures AllWhole(g, ent[e := ent[e].(refcnt := r)], tick)
  {
    var ent' := ent[e := ent[e].(refcnt := r)];
    forall x ensures WholeIn(g, ent', x, tick) {
      assert WholeIn(g, ent, x, tick);
      if x in ent && ent[x].h.Some? {
        var n: nat :| n < tick && WholeAt(g, ent[x], n);
        assert WholeAt(g, ent'[x], n);
      }
    }
  }

  /** Handles match if no handle, rolemap or key of an entry has changed, except perhaps those of mnode m. */
  lemma MatchFrame(s: State, s': State, m: int)
    requires AllMatch(s, m) && RefsOk(s') && (forall e :: e in s.ent && e in s'.ent ==> s'.ent[e].key == s.ent[e].key)
    requires forall x :: x != m && x in s'.aclh ==>
             x in s.aclh && s'.aclh[x] == s.aclh[x] && (x in s.role ==> x in s'.role && s'.role[x] == s.role[x])
    ensures AllMatch(s', m)
  {
    forall x | x != m ensures Matches(s', x) { assert Matches(s, x) && HandleAt(s', x); }
  }

  lemma RefillOk(g: Setting, s: State, e: nat, lut: nat, policy: nat, h: Option<seq<Ace>>, tick: nat, tick': nat,
                 m: int)
    requires Inv(g, s) && e in s.ent && AllWhole(g, s.ent, tick) && AllMatch(s, m) && tick <= tick'
    requires Complete(g.server(s.ent[e].key), h, lut, policy, tick')
    ensures var s' := Refill(s, e, lut, policy, h); Inv(g, s') && AllWhole(g, s'.ent, tick') && AllMatch(s', m)
  {
    var s' := Refill(s, e, lut, policy, h);
    RefillInv(g, s, e, lut, policy, h);
    MatchFrame(s, s', m);
    CompleteWhole(g, s'.ent[e], tick');
    forall x ensures WholeIn(g, s'.ent, x, tick') { assert WholeIn(g, s.ent, x, tick); }
  }

  lemma HoldOk(g: Setting, s: State, e: nat, tick: nat, m: int)
    requires Inv(g, s) && e in s.ent && AllWhole(g, s.ent, tick) && AllMatch(s, m)
    ensures var s' := EaclState.Hold(s, e); Inv(g, s') && AllWhole(g, s'.ent, tick) && AllMatch(s', m)
  {
    HoldInv(g, s, e);
    MatchFrame(s, EaclState.Hold(s, e), m);
    AllWholeCount(g, s.ent, e, s.ent[e].refcnt + 1, tick);
  }

  lemma InsertOk(g: Setting, s: State, e: nat, n: Entry, tick: nat, tick': nat, m: int)
    requires Inv(g, s) && e !in s.ent && Absent(s, n.key) && n.refcnt == 1 && AllWhole(g, s.ent, tick) && AllMatch(s, m)
    requires tick <= tick' && Complete(g.server(n.key), n.h, n.lut, n.policy, tick')
    ensures g.hash(n.key) < |s.chains| == |s.cnt|
    ensures var s' := Insert(g, s, e, n); Inv(g, s') && AllWhole(g, s'.ent, tick') && AllMatch(s', m)
  {
    InsertInv(g, s, e, n);
    MatchFrame(s, Insert(g, s, e, n), m);
    CompleteWhole(g, n, tick');
    forall x ensures WholeIn(g, Insert(g, s, e, n).ent, x, tick') { assert WholeIn(g, s.ent, x, tick); }
  }

  lemma DropOk(g: Setting, s: State, e: nat, tick: nat, m: int)
    requires Inv(g, s) && e in s.flight && AllWhole(g, s.ent, tick) && AllMatch(s, m)
    ensures e in s.ent && OnChain(g, s, e) && |s.chains| == |s.cnt|
    ensures var s' := Drop(g, s, e); Inv(g, s') && AllWhole(g, s'.ent, tick) && AllMatch(s', m) && Dropped(s, s', e)
  {
    DropInv(g, s, e);
    DropEffect(g, s, e);
    MatchFrame(s, Drop(g, s, e), m);
    AllWholeCount(g, s.ent, e, s.ent[e].refcnt - 1, tick);
    forall x ensures WholeIn(g, Drop(g, s, e).ent, x, tick) { assert WholeIn(g, s.ent, x, tick); }
  }

  lemma UnbindOk(g: Setting, s: State, m: nat)
    requires Inv(g, s) && m in s.aclh && AllMatch(s, m)
    ensures Inv(g, Unbind(s, m)) && AllMatch(Unbind(s, m), -1)
  {
    UnbindInv(g, s, m);
    MatchFrame(s, Unbind(s, m), m);
    assert Matches(Unbind(s, m), m);
  }

  lemma BindOk(g: Setting, s: State, m: nat, e: nat)
    requires Inv(g, s) && m !in s.aclh && e in s.flight && m in s.role
    requires e in s.ent && s.ent[e].key == s.role[m] && AllMatch(s, -1)
    ensures Inv(g, Bind(s, m, e)) && AllMatch(Bind(s, m, e), -1)
  {
    BindInv(g, s, m, e);
    forall x | x != -1 ensures Matches(Bind(s, m, e), x) { assert Matches(s, x); }
  }

  /** The entry on which the mnode's handle already is has the mnode's key. */
  lemma MatchesNow(s: State, m: nat)
    requires AllMatch(s, m) && m in s.aclh && s.aclh[m] in s.ent && m in s.role && s.ent[s.aclh[m]].key == s.role[m]
    ensures AllMatch(s, -1)
  {
    forall x | x != -1 ensures Matches(s, x) { assert x != m ==> Matches(s, x); }
  }

  /** Letting an old handle go leaves the entry that the thread holds. */
  lemma StillHeld(s: State, s': State, m: nat, e: nat)
    requires LetGo(s, s', m) && e in s.flight && e in s.ent && !(m in s.aclh && s.aclh[m] == e)
    ensures e in s'.flight && e in s'.ent && s'.ent[e] == s.ent[e]
  {
  }

  /** The handle of m is gone, and its entry with it if that was the last hold; nothing else has changed. */
  ghost predicate LetGo(s: State, s': State, m: nat) {
    s'.aclh == s.aclh - {m} && s'.role == s.role && s'.flight == s.flight &&
    (m in s.aclh ==> (s.aclh[m] in s'.ent <==> Holds(s, s.aclh[m]) > 1)) &&
    (forall e :: e in s.ent && !(m in s.aclh && s.aclh[m] == e) ==> e in s'.ent && s'.ent[e] == s.ent[e]) &&
    (forall e :: e in s'.ent ==> e in s.ent && s'.ent[e] == s.ent[e].(refcnt := s'.ent[e].refcnt))
  }

  lemma LetGoBound(s: State, s': State, m: nat)
    requires m in s.aclh && Dropped(Unbind(s, m), s', s.aclh[m])
    ensures LetGo(s, s', m)
  {
    HoldersDrop(s.aclh, m, s.aclh[m]);
  }

  ghost predicate Installed(s: State, s': State, m: nat, r: Option<nat>) {
    s'.role == s.role && s'.aclh == (if r.Some? then s.aclh[m := r.value] else s.aclh - {m}) &&
    s'.flight == if r.Some? then s.flight - multiset{r.value} else s.flight
  }

  /** The mnode has its new key, other mnodes keep their handles, and no hold is left over. */
  ghost predicate Cached(s: State, s': State, m: nat, key: Option<Key>) {
    s'.flight == s.flight && s'.role == Reroled(s.role, m, key) &&
    s'.aclh - {m} == s.aclh - {m} && (key.None? ==> m !in s'.aclh)
  }

  lemma CachedAfter(s: State, mid: State, s': State, m: nat, key: Key, r: Option<nat>)
    requires if r.Some? then Held(s.(role := s.role[m := key]), mid, key, r.value)
             else mid == s.(role := s.role[m := key])
    requires Installed(mid, s', m, r)
    ensures Cached(s, s', m, Some(key)) && (m in s'.aclh <==> r.Some?)
  {
  }

  lemma PutBack<T>(a: map<nat, T>, m: nat, v: T)
    requires m in a && a[m] == v
    ensures a[m := v] == a
  {
  }

  lemma PutAgain<T>(a: map<nat, T>, m: nat, v: T)
    ensures (a - {m})[m := v] == a[m := v]
  {
  }

  lemma RoleInv(g: Setting, s: State, role: map<nat, Key>)
    requires Inv(g, s)
    ensures Inv(g, s.(role := role))
  {
    ChainsFrame(g, s, s.(role := role));
    KeysFrame(s, s.(role := role));
    RoleRefs(s, s.(role := role));
  }

  lemma RoleRefs(s: State, s': State)
    requires RefsOk(s) && s' == s.(role := s'.role)
    ensures RefsOk(s')
  {
    forall e ensures RefAt(s', e) { assert RefAt(s, e); }
    forall m ensures HandleAt(s', m) { assert HandleAt(s, m); }
  }

  lemma HeldFound(s: State, e: nat, lut: nat, policy: nat, h: Option<seq<Ace>>)
    requires e in s.ent
    ensures Held(s, Refill(EaclState.Hold(s, e), e, lut, policy, h), s.ent[e].key, e)
  {
  }

  lemma HeldNew(g: Setting, s: State, e: nat, n: Entry)
    requires g.hash(n.key) < |s.chains| == |s.cnt|
    ensures Held(s, Insert(g, s, e, n), n.key, e)
  {
  }

  /** The part of mvfs_chkaccess_acl that maps the request to permissions and checks them. */
  method Decide(h: Option<seq<Ace>>, want: Want, dir: bool, who: Who, mode: Mode,
                grant: (seq<Ace>, set<nat>) -> bool)
    returns (error: int)
    ensures error == if Grants(h, want, dir, who, mode, grant) then 0 else EACCES
  {
    if h.None? { return EACCES; }
    var perms := if want.read then {READ_INFO} else {};
    if dir {
      if want.write { perms := perms + {WRITE_DIR}; }
      if want.exec { perms := perms + {LOOKUP_DIR}; }
    } else {
      if want.write { return EACCES; }
      if want.exec {
        if !((mode.xusr && who.owner) || mode.xgrp) { return EACCES; }
        perms := perms + {READ_INFO};
      }
    }
    assert perms == Perms(want, dir);
    error := if grant(h.value, perms) then 0 else EACCES;
  }

  /** A complete list grants what is asked for, and the mode bits do not forbid it. */
  predicate Grants(h: Option<seq<Ace>>, want: Want, dir: bool, who: Who, mode: Mode,
                   grant: (seq<Ace>, set<nat>) -> bool) {
    h.Some? && !Barred(want, dir, who, mode) && grant(h.value, Perms(want, dir))
  }

  /** The mode bits that a set of granted permissions shows on an object. */
  function Bits(allowed: set<nat>, dir: bool, who: Who, mode: Mode): Want {
    if dir then Want(READ_INFO in allowed, WRITE_DIR in allowed, LOOKUP_DIR in allowed)
    else Want(READ_INFO in allowed, false, READ_INFO in allowed && ((mode.xusr && who.owner) || mode.xgrp))
  }

  predicate Within(w: Want, v: Want) { (w.read ==> v.read) && (w.write ==> v.write) && (w.exec ==> v.exec) }

  /** The mapping of a request to permissions inverts the one from permissions to mode bits. */
  lemma GrantsIffBits(list: seq<Ace>, want: Want, dir: bool, who: Who, mode: Mode, grant: (seq<Ace>, set<nat>) -> bool,
                      allowed: set<nat>)
    requires forall perms :: grant(list, perms) <==> perms <= allowed
    ensures Grants(Some(list), want, dir, who, mode, grant) <==> Within(want, Bits(allowed, dir, who, mode))
  {
    assert grant(list, Perms(want, dir)) <==> Perms(want, dir) <= allowed;
    assert want.read ==> READ_INFO in Perms(want, dir);
    assert dir && want.write ==> WRITE_DIR in Perms(want, dir);
    assert dir && want.exec ==> LOOKUP_DIR in Perms(want, dir);
    assert !dir && want.exec ==> READ_INFO in Perms(want, dir);
  }

  /**
    A file of a VOB is never writable and executable only with an x bit, whatever the
    list; without a list nothing is granted; and who is granted a request is granted every
    smaller one, if lists grant with a set of permissions also its subsets.
   */
  lemma GrantedMeans(h: Option<seq<Ace>>, want: Want, less: Want, dir: bool, who: Who, mode: Mode,
                     grant: (seq<Ace>, set<nat>) -> bool)
    requires Grants(h, want, dir, who, mode, grant)
    ensures h.Some? && (!dir ==> !want.write && (want.exec ==> mode.xgrp || (mode.xusr && who.owner)))
    ensures Within(less, want) && (forall p, q :: q <= p && grant(h.value, p) ==> grant(h.value, q)) ==>
              Grants(h, less, dir, who, mode, grant)
  {
    assert Within(less, want) ==> Perms(less, dir) <= Perms(want, dir);
  }

  predicate Names(n: Entry, policy: bool, oid: nat) { if policy then n.policy == oid else n.key.rolemap == oid }

  ghost predicate MarkedAt(was: map<nat, Entry>, ent: map<nat, Entry>, policy: bool, oid: nat, e: nat) {
    e in was && e in ent && ent[e] == if Names(was[e], policy, oid) then was[e].(lut := 0) else was[e]
  }

  ghost predicate Partly(was: map<nat, Entry>, ent: map<nat, Entry>, policy: bool, oid: nat) {
    ent.Keys == was.Keys && forall e :: e in was ==> ent[e] == was[e] || MarkedAt(was, ent, policy, oid, e)
  }

  /** Mark the entries on one chain. */
  method MarkChain(chain: seq<nat>, ent: map<nat, Entry>, policy: bool, oid: nat, ghost was: map<nat, Entry>)
    returns (ent': map<nat, Entry>)
    requires Partly(was, ent, policy, oid) && forall e :: e in chain ==> e in was
    ensures Partly(was, ent', policy, oid) && forall e :: e in chain ==> MarkedAt(was, ent', policy, oid, e)
    ensures forall e :: MarkedAt(was, ent, policy, oid, e) ==> MarkedAt(was, ent', policy, oid, e)
  {
    ent' := ent;
    var i := 0;
    while i < |chain|
      invariant 0 <= i <= |chain| && Partly(was, ent', policy, oid)
      invariant forall e :: MarkedAt(was, ent, policy, oid, e) ==> MarkedAt(was, ent', policy, oid, e)
      invariant forall j :: 0 <= j < i ==> MarkedAt(was, ent', policy, oid, chain[j])
    {
      var e := chain[i];
      assert e in chain;
      if Names(ent'[e], policy, oid) { ent' := ent'[e := ent'[e].(lut := 0)]; }
      i := i + 1;
    }
  }

  method MarkChains(chains: seq<seq<nat>>, ent: map<nat, Entry>, policy: bool, oid: nat, ghost g: Setting,
                    ghost s: State)
    returns (ent': map<nat, Entry>)
    requires ChainsOk(g, s) && s.chains == chains && s.ent == ent
    ensures Outdated(ent, ent', policy, oid)
  {
    ent' := ent;
    var c := 0;
    while c < |chains|
      invariant 0 <= c <= |chains| && Partly(ent, ent', policy, oid)
      invariant forall d, e :: 0 <= d < c && e in chains[d] ==> MarkedAt(ent, ent', policy, oid, e)
    {
      assert ChainAt(g, s, c);
      ent' := MarkChain(chains[c], ent', policy, oid, ent);
      c := c + 1;
    }
    forall e | e in ent ensures MarkedAt(ent, ent', policy, oid, e) { assert EntryAt(g, s, e); }
  }

  /** Every entry of that rolemap or policy will be fetched again, and no other has changed. */
  ghost predicate Outdated(was: map<nat, Entry>, ent: map<nat, Entry>, policy: bool, oid: nat) {
    ent.Keys == was.Keys && forall e :: e in was ==> MarkedAt(was, ent, policy, oid, e)
  }

  lemma OutdatedInv(g: Setting, s: State, ent: map<nat, Entry>, policy: bool, oid: nat)
    requires Inv(g, s) && Outdated(s.ent, ent, policy, oid)
    ensures Inv(g, s.(ent := ent))
  {
    var s' := s.(ent := ent);
    forall e | e in s.ent ensures ent[e].key == s.ent[e].key && ent[e].refcnt == s.ent[e].refcnt {
      assert MarkedAt(s.ent, ent, policy, oid, e);
    }
    ChainsFrame(g, s, s');
    KeysFrame(s, s');
    OutdatedRefs(s, s');
  }

  lemma OutdatedOk(g: Setting, s: State, ent: map<nat, Entry>, policy: bool, oid: nat, tick: nat)
    requires Inv(g, s) && Outdated(s.ent, ent, policy, oid) && AllWhole(g, s.ent, tick) && AllMatch(s, -1)
    ensures Inv(g, s.(ent := ent)) && AllWhole(g, ent, tick) && AllMatch(s.(ent := ent), -1)
  {
    OutdatedInv(g, s, ent, policy, oid);
    forall e ensures WholeIn(g, ent, e, tick) && (e in ent ==> ent[e].key == s.ent[e].key) {
      assert WholeIn(g, s.ent, e, tick);
      if e in ent {
        assert MarkedAt(s.ent, ent, policy, oid, e);
        WholeMarked(g, s.ent[e], tick);
      }
    }
    MatchFrame(s, s.(ent := ent), -1);
  }

  lemma WholeMarked(g: Setting, x: Entry, tick: nat)
    requires Whole(g, x, tick)
    ensures Whole(g, x.(lut := 0), tick)
  {
    if x.h.Some? {
      var n: nat :| n < tick && WholeAt(g, x, n);
      assert WholeAt(g, x.(lut := 0), n);
    }
  }

  lemma OutdatedRefs(s: State, s': State)
    requires RefsOk(s) && s' == s.(ent := s'.ent) && s'.ent.Keys == s.ent.Keys
    requires forall e :: e in s.ent ==> s'.ent[e].refcnt == s.ent[e].refcnt
    ensures RefsOk(s')
  {
    forall e ensures RefAt(s', e) { assert RefAt(s, e); }
    forall m ensures HandleAt(s', m) { assert HandleAt(s, m); }
  }

  /** When an entry's list is fetched again. */
  predicate Expired(n: Entry, mtime: nat, clock: nat) { mtime > n.lut || (n.h.None? && n.lut + ERR_TIMEOUT < clock) }

  ghost predicate Absent(s: State, key: Key) { forall e :: e in s.ent ==> s.ent[e].key != key }

  /** Entry e, of the key, has one hold more; no other entry and no handle has changed. */
  ghost predicate Held(s: State, s': State, key: Key, e: nat) {
    e in s'.ent && s'.ent[e].key == key && s'.flight == s.flight + multiset{e} && s'.aclh == s.aclh &&
    s'.role == s.role &&
    s'.ent.Keys == s.ent.Keys + {e} && forall x :: x in s.ent && x != e ==> s'.ent[x] == s.ent[x]
  }

  /** A hold on entry e is gone, and the entry with it if that was the last; nothing else has changed. */
  ghost predicate Dropped(s: State, s': State, e: nat) {
    e in s.ent && s'.flight == s.flight - multiset{e} && s'.aclh == s.aclh && s'.role == s.role &&
    (e in s'.ent <==> Holds(s, e) > 1) && (e in s'.ent ==> s'.ent[e] == s.ent[e].(refcnt := s'.ent[e].refcnt)) &&
    forall x :: x != e ==> (x in s'.ent <==> x in s.ent) && (x in s.ent ==> s'.ent[x] == s.ent[x])
  }

  lemma DropEffect(g: Setting, s: State, e: nat)
    requires RefsOk(s) && e in s.flight && e in s.ent && OnChain(g, s, e) && |s.chains| == |s.cnt|
    ensures Dropped(s, Drop(g, s, e), e)
  {
    assert RefAt(s, e);
  }
}
