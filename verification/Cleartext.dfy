/**
  The cleartext vnode of a VOB file: how an mnode binds it, hands it out and drops it,
  and which credentials may use it without a lookup of their own.

  The file systems below are an environment: lookups, creates and attribute fetches
  have any outcome.  `log` records what happened in order, so that "has looked the
  file up by name since it was bound" is a property of the log alone.
 */
module Cleartext {
  datatype Option<+T> = None | Some(value: T)

  const EISDIR := 21
  const ESTALE := 116
  const ENOENT := 2
  const ENOTDIR := 20
  const EINVAL := 22
  const EINTR := 4
  const ENXIO := 6
  const EIO := 5
  const EROFS := 30

  /** A cleartext vnode; CVN_CMP compares the files that vnodes stand for. */
  datatype Vnode = Vnode(id: nat, file: nat)

  /** A credential; MDKI_CR_EQUAL compares identities. */
  datatype Cred = Cred(id: nat, who: nat)

  type Errno = e: int | e != 0 witness 1

  datatype Found = Found(vnode: Vnode) | Missing(error: Errno)

  // ---- The log ----

  datatype Event =
    | Looked(who: nat, file: nat)   // a lookup of the cleartext name found the file
    | Made(who: nat, file: nat)     // a create by name made it
    | Bound(file: nat)
    | Unbound

  /** The file bound at the end of a log, who has reached it by name since, and who reached what in the last event. */
  datatype Reach = Reach(file: Option<nat>, who: set<nat>, last: Option<(nat, nat)>)

  function After(r: Reach, e: Event): Reach {
    match e
    case Unbound => Reach(None, {}, None)
    case Bound(f) => Reach(Some(f), if r.last.Some? && r.last.value.1 == f then {r.last.value.0} else {}, None)
    case Looked(i, f) => Reach(r.file, if r.file == Some(f) then r.who + {i} else r.who, Some((i, f)))
    case Made(i, f) => Reach(r.file, if r.file == Some(f) then r.who + {i} else r.who, Some((i, f)))
  }

  function Reached(log: seq<Event>): Reach {
    if log == [] then Reach(None, {}, None) else After(Reached(log[..|log| - 1]), log[|log| - 1])
  }

  lemma ReachedMore(log: seq<Event>, e: Event)
    ensures Reached(log + [e]) == After(Reached(log), e)
  {
    assert (log + [e])[..|log|] == log;
  }

  /** An event in which this identity reached this file by name. */
  predicate ByName(e: Event, who: nat, file: nat) { e == Looked(who, file) || e == Made(who, file) }

  /** From event k on, the file was not let go and no other was bound. */
  ghost predicate KeptSince(log: seq<Event>, k: nat, file: nat) {
    forall j :: k <= j < |log| ==> log[j] != Unbound && (log[j].Bound? ==> log[j].file == file)
  }

  /** Who has reached the bound file is who looked it up or made it by name, with the binding lasting ever since. */
  lemma {:induction false} WhoReached(log: seq<Event>, who: nat)
    requires who in Reached(log).who
    ensures Reached(log).file.Some?
    ensures exists k ::
              0 <= k < |log| && ByName(log[k], who, Reached(log).file.value) &&
              KeptSince(log, k, Reached(log).file.value)
  {
    var n := |log| - 1;
    var before, e := log[..n], log[n];
    var r := Reached(before);
    if e.Bound? {
      assert r.last == Some((who, e.file));
      assert ByName(log[n - 1], who, e.file);
      assert KeptSince(log, n - 1, e.file);
    } else if who in r.who {
      WhoReached(before, who);
      var f := r.file.value;
      var k :| 0 <= k < |before| && ByName(before[k], who, f) && KeptSince(before, k, f);
      assert ByName(log[k], who, f);
      assert KeptSince(log, k, f);
    } else {
      assert ByName(log[n], who, e.file) && KeptSince(log, n, e.file);
    }
  }

  /** What the world outside does during one call; lookups are numbered. */
  datatype Env = Env(
    lookup: nat -> Found, getattr: int, clearattr: int, fetchName: int, create: Found, now: int, stored: Option<Cred>)

  /** Holds per vnode. */
  ghost function Plus(h: Vnode -> int, v: Vnode, n: int): Vnode -> int { x => if x == v then h(x) + n else h(x) }

  ghost function One(o: Option<Vnode>, v: Vnode): int { if o == Some(v) then 1 else 0 }

  /**
    The holds are those of the mnode itself, those handed to callers, and one the running call
    has on an extra vnode.
   */
  ghost predicate Conserved(held: Vnode -> int, own: Option<Vnode>, given: Vnode -> int, extra: Option<Vnode>) {
    forall v :: held(v) == One(own, v) + given(v) + One(extra, v)
  }

  class Mnode {
    var realvp: Option<Vnode>
    var named: bool
    var creds: seq<Cred>
    var rwerr: bool
    var purgeNm: bool
    var purgeCvp: bool
    var openCount: nat
    var revalidate: int
    ghost var held: Vnode -> int    // every hold taken and not released
    ghost var given: Vnode -> int   // holds handed to callers
    ghost var log: seq<Event>

    /** Holds are conserved; only a bound mnode has credentials, all of which have reached its file by name. */
    ghost predicate Valid()
      reads this
    {
      Conserved(held, realvp, given, None) && Settled()
    }

    ghost predicate Settled()
      reads this
    {
      (realvp.Some? ==> named && (purgeNm ==> purgeCvp)) && (realvp.None? ==> creds == []) &&
      Reached(log).file == (if realvp.Some? then Some(realvp.value.file) else None) &&
      forall c :: c in creds ==> c.who in Reached(log).who
    }

    constructor (open: nat)
      ensures Valid() && realvp == None && (forall v :: given(v) == 0) && creds == [] && openCount == open
    {
      realvp, named, creds, rwerr, purgeNm, purgeCvp, openCount, revalidate :=
        None, false, [], false, false, false, open, 0;
      held, given, log := _ => 0, _ => 0, [];
    }

    // ---- Marks ----

    /** mfs_clear_mark_purge. */
    method MarkPurge()
      requires Valid()
      modifies this`purgeCvp
      ensures Valid() && purgeCvp == (old(purgeCvp) || realvp.Some?)
    {
      if realvp.Some? { purgeCvp := true; }
    }

    /** mfs_clear_mark_name_purge. */
    method MarkNamePurge()
      requires Valid()
      modifies this`purgeCvp, this`purgeNm
      ensures Valid() && purgeNm && purgeCvp == (old(purgeCvp) || realvp.Some?)
    {
      if realvp.Some? { purgeCvp := true; }
      purgeNm := true;
    }

    /** mfs_clear_mark_rwerr. */
    method MarkRwerr()
      requires Valid()
      modifies this`purgeCvp, this`purgeNm, this`rwerr
      ensures Valid() && purgeNm && rwerr && purgeCvp == (old(purgeCvp) || realvp.Some?)
    {
      if realvp.Some? { purgeCvp := true; }
      purgeNm, rwerr := true, true;
    }

    // ---- Binding ----

    /** mvfs_new_cltxt: replace the vnode, with a hold of its own if there is a new one, and drop all credentials. */
    method NewCleartext(cvp: Option<Vnode>)
      requires realvp.Some? && Conserved(held, realvp, given, cvp)
      modifies this`realvp, this`creds, this`held, this`log
      ensures realvp == cvp && creds == [] && Conserved(held, realvp, given, cvp)
      ensures log == old(log) + [if cvp.Some? then Bound(cvp.value.file) else Unbound]
    {
      held := Plus(held, realvp.value, -1);
      realvp := cvp;
      if realvp.Some? { held := Plus(held, realvp.value, 1); }
      creds := [];
      log := log + [if cvp.Some? then Bound(cvp.value.file) else Unbound];
    }

    /** Drop the vnode. */
    method Unbind()
      requires Valid() && realvp.Some?
      modifies this`realvp, this`creds, this`held, this`log
      ensures Valid() && realvp == None && creds == [] && log == old(log) + [Unbound]
    {
      ReachedMore(log, Unbound);
      NewCleartext(None);
    }

    /** A lookup of the cleartext name by a caller; a vnode comes back held. */
    method Lookup(found: Found, cred: Cred)
      requires Valid()
      modifies this`held, this`log
      ensures Settled() && Conserved(held, realvp, given, if found.Found? then Some(found.vnode) else None)
      ensures log == old(log) + (if found.Found? then [Looked(cred.who, found.vnode.file)] else [])
      ensures found.Found? ==> Reached(log).last == Some((cred.who, found.vnode.file))
      ensures found.Found? && realvp.Some? && realvp.value.file == found.vnode.file ==> cred.who in Reached(log).who
    {
      if found.Found? {
        ReachedMore(log, Looked(cred.who, found.vnode.file));
        held := Plus(held, found.vnode, 1);
        log := log + [Looked(cred.who, found.vnode.file)];
      }
    }

    /** A looked-up or created vnode becomes the mnode's own; its hold goes with it. */
    method Bind(cvp: Vnode)
      requires realvp.None? && Settled() && named && Conserved(held, None, given, Some(cvp))
      requires Reached(log).last.Some? && Reached(log).last.value.1 == cvp.file
      modifies this`realvp, this`held, this`log, this`rwerr, this`purgeNm, this`purgeCvp
      ensures Valid() && realvp == Some(cvp) && Reached(log).who == {Reached(old(log)).last.value.0}
      ensures !purgeNm && !purgeCvp && !rwerr
    {
      ReachedMore(log, Bound(cvp.file));
      realvp := Some(cvp);
      log := log + [Bound(cvp.file)];
      rwerr, purgeNm, purgeCvp := false, false, false;
    }

    /** mfs_clear_rele: act on the marks. An open vnode is closed first, to pair the opens made through it. */
    method ClearRele() returns (closed: Option<Vnode>)
      requires Valid()
      modifies this`realvp, this`named, this`creds, this`held, this`log, this`rwerr, this`purgeNm, this`purgeCvp
      ensures Valid() && given == old(given) && !rwerr && !purgeNm && !purgeCvp
      ensures realvp == if old(purgeCvp) then None else old(realvp)
      ensures named == (old(named) && !old(purgeNm))
      ensures old(purgeNm) || old(purgeCvp) ==> creds == []
      ensures closed == if openCount > 0 && (old(rwerr) || old(purgeNm) || old(purgeCvp)) then old(realvp) else None
    {
      closed := None;
      if !(rwerr || purgeNm || purgeCvp) { return; }
      if openCount > 0 && realvp.Some? { closed := realvp; }
      if realvp.Some? && purgeCvp { Unbind(); }
      if named && purgeNm {
        if !purgeCvp { creds := []; }
        named := false;
      }
      rwerr, purgeNm, purgeCvp := false, false, false;
    }

    // ---- mfs_getcleartext ----

    /** mvfs_find_cred. */
    method FindCred(cred: Cred) returns (hit: bool)
      ensures hit <==> exists c :: c in creds && c.who == cred.who
    {
      var i := 0;
      while i < |creds|
        invariant 0 <= i <= |creds| && forall j :: 0 <= j < i ==> creds[j].who != cred.who
      {
        if creds[i].who == cred.who { return true; }
        i := i + 1;
      }
      hit := false;
    }

    /** The caller has reached the bound file by name since it was bound. */
    ghost predicate May(cred: Cred)
      reads this
    {
      realvp.Some? && cred.who in Reached(log).who
    }

    /** A bound vnode and a known credential: use it, after a check of its attributes once an hour. */
    method TryCached(env: Env, cred: Cred) returns (done: bool, error: int, record: bool)
      requires Valid()
      modifies this`realvp, this`creds, this`held, this`log, this`purgeCvp
      ensures Valid() && named == old(named)
      ensures (done && error == 0 ==> May(cred) && realvp == old(realvp) && creds == old(creds))
      ensures done ==> realvp == old(realvp)
      ensures !done ==> realvp == None || (realvp == old(realvp) && creds == old(creds) && record)
    {
      done, error, record := false, 0, true;
      if realvp.None? { return; }
      var hit := FindCred(cred);
      if !hit { return; }
      record := false;
      if env.now < revalidate || env.getattr == 0 { return true, 0, false; }
      if openCount == 0 {
        Unbind();
      } else {
        MarkPurge();
        return true, ESTALE, false;
      }
    }

    /** The lookup for a bound mnode: only to check the caller's permission, but the file may turn out another. */
    method CheckByName(env: Env, cred: Cred) returns (done: bool, error: int)
      requires Valid() && realvp.Some?
      modifies this`realvp, this`named, this`creds, this`held, this`log, this`rwerr, this`purgeNm, this`purgeCvp
      ensures Valid() && (done && error == 0 ==> May(cred)) && (!done ==> realvp == None)
      ensures realvp != old(realvp) ==> creds == []
    {
      var found := env.lookup(0);
      Lookup(found, cred);
      if found.Missing? {
        if openCount == 0 {
          Unbind();
          named := false;
          return false, 0;
        }
        if found.error in {ENOENT, ENOTDIR, EISDIR} {
          MarkPurge();
          return true, ESTALE;
        }
        return true, found.error;
      }
      error := Compare(found.vnode, cred, env.clearattr);
      done := true;
    }

    /** The lookup succeeded: the same file is fine, another one replaces the binding unless the mnode is open. */
    method Compare(cvp: Vnode, cred: Cred, clearattr: int) returns (error: int)
      requires realvp.Some? && Settled() && Conserved(held, realvp, given, Some(cvp))
      requires Reached(log).last == Some((cred.who, cvp.file)) && (realvp.value.file == cvp.file ==> May(cred))
      modifies this`realvp, this`creds, this`held, this`log, this`rwerr, this`purgeNm, this`purgeCvp
      ensures Valid() && (error == 0 ==> May(cred)) && (realvp != old(realvp) ==> creds == [])
    {
      if realvp.value.file != cvp.file {
        if openCount == 0 {
          ReachedMore(log, Bound(cvp.file));
          NewCleartext(Some(cvp));
          rwerr, purgeNm, purgeCvp := false, false, false;
          error := clearattr;
        } else {
          purgeCvp := true;
          error := ESTALE;
        }
      } else {
        error := clearattr;
      }
      held := Plus(held, cvp, -1);
    }

    /** The lookup for an unbound mnode whose cleartext name is cached. */
    method BindByName(env: Env, cred: Cred) returns (done: bool, error: int)
      requires Valid() && realvp.None? && named
      modifies this`realvp, this`named, this`held, this`log, this`rwerr, this`purgeNm, this`purgeCvp
      ensures Valid() && (done && error == 0 ==> May(cred)) && (!done ==> realvp == None)
    {
      var found := env.lookup(0);
      Lookup(found, cred);
      if found.Missing? {
        named := false;
        return false, 0;
      }
      Bind(found.vnode);
      return true, env.clearattr;
    }

    /** Everything missed: get the name from the view, and look it up, again a few times if it is not there. */
    method FetchAndBind(env: Env, cred: Cred) returns (error: int)
      requires Valid() && realvp.None?
      modifies this`realvp, this`named, this`creds, this`held, this`log, this`rwerr, this`purgeNm, this`purgeCvp
      ensures Valid() && (error == 0 ==> May(cred)) && creds == []
    {
      error := if named then 0 else env.fetchName;
      if error != 0 { return (if error != EINTR then ENXIO else EINTR); }
      named := true;
      var i := 0;
      error := ENOENT;
      while i < 3
        invariant 0 <= i <= 3 && Valid() && realvp.None? && named && error != 0 && creds == []
      {
        var found := env.lookup(1 + i);
        Lookup(found, cred);
        if found.Found? {
          error := 0;
          Bind(found.vnode);
          break;
        }
        error := found.error;
        if error != ENOENT && (error != EINVAL || i > 0) { break; }
        i := i + 1;
      }
      if error != 0 {
        MarkNamePurge();
        var closed := ClearRele();
        if error == ENOENT { error := ENXIO; }
      } else {
        error := env.clearattr;
      }
    }

    /** A hold for the caller, and the caller's credential on the list unless it was there or storage is short. */
    method HandOut(env: Env, cred: Cred, record: bool, wants: bool) returns (out: Option<Vnode>)
      requires Valid() && May(cred) && (env.stored.Some? ==> env.stored.value.who == cred.who)
      modifies this`held, this`given, this`creds, this`revalidate
      ensures Valid() && out == (if wants then realvp else None)
      ensures forall v :: given(v) == old(given)(v) + One(out, v)
      ensures creds == (if record && env.stored.Some? then [env.stored.value] else []) + old(creds)
    {
      out := None;
      if wants {
        out := realvp;
        held, given := Plus(held, realvp.value, 1), Plus(given, realvp.value, 1);
      }
      if record && env.stored.Some? { creds := [env.stored.value] + creds; }
      revalidate := env.now + 3600;
    }

    /**
      mfs_getcleartext.  A vnode goes only to a caller whose identity has reached the
      file by name since the mnode was bound to it; if the binding changed, no other
      identity is left on the list; and the caller's hold is the only new one.
     */
    method GetCleartext(env: Env, cred: Cred, regular: bool, wants: bool) returns (error: int, out: Option<Vnode>)
      requires Valid() && (env.stored.Some? ==> env.stored.value.who == cred.who)
      modifies this
      ensures Valid() && (error == 0 ==> May(cred) && out == if wants then realvp else None)
      ensures error != 0 ==> out == None
      ensures forall v :: given(v) == old(given)(v) + One(out, v)
      ensures realvp != old(realvp) ==> forall c :: c in creds ==> c.who == cred.who
    {
      out := None;
      if !regular { return EISDIR, None; }
      var done, record;
      done, error, record := TryCached(env, cred);
      if !done && named {
        if realvp.Some? { done, error := CheckByName(env, cred); } else { done, error := BindByName(env, cred); }
      }
      if !done { error := FetchAndBind(env, cred); }
      if error == 0 { out := HandOut(env, cred, record, wants); }
    }

    // ---- mfs_clear_create ----

    /** Create the cleartext of an unbound mnode. */
    method ClearCreate(env: Env, cred: Cred, inVob: bool, wants: bool) returns (error: int, out: Option<Vnode>)
      requires Valid() && realvp.None? && (env.stored.Some? ==> env.stored.value.who == cred.who)
      modifies this
      ensures Valid() && (error != 0 ==> out == None)
      ensures (error == 0 ==> May(cred) && out == if wants then realvp else None)
      ensures forall v :: given(v) == old(given)(v) + One(out, v)
      ensures realvp.Some? ==> May(cred) && forall c :: c in creds ==> c.who == cred.who
    {
      out := None;
      error := if named then 0 else env.fetchName;
      if error != 0 { return EIO, None; }
      named := true;
      if inVob { return EROFS, None; }
      if env.create.Missing? {
        MarkNamePurge();
        var closed := ClearRele();
        return env.create.error, None;
      }
      var cvp := env.create.vnode;
      BindMade(cvp, cred);
      if env.stored.Some? { creds := [env.stored.value] + creds; }
      error := env.clearattr;
      if wants && error == 0 {
        out := Some(cvp);
        held, given := Plus(held, cvp, 1), Plus(given, cvp, 1);
      }
    }

    /** The vnode just made comes held, and becomes the mnode's own. */
    method BindMade(cvp: Vnode, cred: Cred)
      requires Valid() && realvp.None? && named
      modifies this`realvp, this`held, this`log, this`rwerr, this`purgeNm, this`purgeCvp
      ensures Valid() && realvp == Some(cvp) && Reached(log).who == {cred.who} && !purgeNm && !purgeCvp && !rwerr
    {
      Make(cvp, cred);
      Bind(cvp);
    }

    method Make(cvp: Vnode, cred: Cred)
      requires Valid() && realvp.None?
      modifies this`held, this`log
      ensures Settled() && Conserved(held, realvp, given, Some(cvp))
      ensures Reached(log).last == Some((cred.who, cvp.file))
    {
      ReachedMore(log, Made(cred.who, cvp.file));
      held := Plus(held, cvp, 1);
      log := log + [Made(cred.who, cvp.file)];
    }

    /** A caller gives its hold back. */
    method Return(v: Vnode)
      requires Valid() && given(v) > 0
      modifies this`held, this`given
      ensures Valid() && forall x :: given(x) == old(given)(x) - One(Some(v), x)
    {
      held, given := Plus(held, v, -1), Plus(given, v, -1);
    }
  }
}
