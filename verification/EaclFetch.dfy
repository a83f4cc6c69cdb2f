/**
  Fetching an effective ACL from the view server, block by block.

  The server may change the list between any two calls.  The cursor carries the
  modification time of the version being read; the server answers a cursor of another
  version with a stale status.
 */
module EaclFetch {
  datatype Option<+T> = None | Some(value: T)

  type Ace = nat

  datatype Version = Version(mtime: nat, entries: seq<Ace>, policy: nat)

  datatype Fault = Fine | Stale | Bad

  /**
    The server at each call: its current list, how much of it one reply holds and
    whether the call fails; and the client's clock then.
   */
  datatype Server = Server(now: nat -> Version, take: nat -> nat, fault: nat -> Fault, clock: nat -> nat)

  datatype Cursor = Cursor(mtime: nat, next: nat)

  datatype Reply = Reply(status: Fault, cursor: Cursor, h: Option<seq<Ace>>)

  const RESET := Cursor(0, 0)

  /** A modification time belongs to one version of the list, and is not the reset time. */
  ghost predicate Dated(s: Server) {
    (forall m, n :: OneVersion(s, m, n)) && forall n :: s.now(n).mtime > 0
  }

  ghost predicate OneVersion(s: Server, m: nat, n: nat) { s.now(m).mtime == s.now(n).mtime ==> s.now(m) == s.now(n) }

  /** mvfs_clnt_get_eacl_mnp: on success the block is added to what was accumulated, else the handle is null. */
  function Call(s: Server, n: nat, c: Cursor, h: Option<seq<Ace>>): Reply {
    var v := s.now(n);
    if s.fault(n) != Fine then Reply(s.fault(n), c, None)
    else if c.next != 0 && (c.mtime != v.mtime || c.next > |v.entries|) then Reply(Stale, c, None)
    else
      var end := if c.next + 1 + s.take(n) < |v.entries| then c.next + 1 + s.take(n) else |v.entries|;
      var sofar := if h.Some? then h.value else [];
      Reply(Fine, Cursor(v.mtime, if end == |v.entries| then 0 else end), Some(sofar + v.entries[c.next..end]))
  }

  /** What has been accumulated is the part of one version up to the cursor. */
  ghost predicate Partial(v: Version, c: Cursor, h: Option<seq<Ace>>) {
    if c.next == 0 then h.None? else c.mtime == v.mtime && c.next < |v.entries| && h == Some(v.entries[..c.next])
  }

  ghost predicate Seen(s: Server, v: Version, hi: nat) {
    exists n: nat :: n < hi && s.now(n) == v
  }

  lemma CallExtends(s: Server, n: nat, c: Cursor, h: Option<seq<Ace>>, v: Version)
    requires Dated(s) && Partial(v, c, h) && (c.next != 0 ==> Seen(s, v, n))
    ensures var r := Call(s, n, c, h); r.status == Fine && c.next != 0 ==> s.now(n) == v
    ensures var r := Call(s, n, c, h); r.status == Fine && r.cursor.next == 0 ==> r.h == Some(s.now(n).entries)
    ensures var r := Call(s, n, c, h);
            r.status == Fine && r.cursor.next != 0 ==> Partial(s.now(n), r.cursor, r.h) && c.next < r.cursor.next
    ensures var r := Call(s, n, c, h); r.status != Fine ==> r.h == None
  {
    var r := Call(s, n, c, h);
    if r.status == Fine {
      var w := s.now(n);
      if c.next != 0 {
        var m: nat :| m < n && s.now(m) == v;
        assert OneVersion(s, m, n) && w == v;
      }
      var end := if r.cursor.next == 0 then |w.entries| else r.cursor.next;
      assert w.entries[..c.next] + w.entries[c.next..end] == w.entries[..end];
      assert w.entries[..|w.entries|] == w.entries;
    }
  }

  // ---- The scan, call by call ----

  /** How far a scan has come: what the entry holds, the cursor, the blocks since the start or restart. */
  datatype Progress = Progress(h: Option<seq<Ace>>, lut: nat, policy: nat, cursor: Cursor, count: nat,
                               restarted: bool, done: bool)

  /** The old handle is freed, and the scan starts. */
  function Begin(lut: nat, policy: nat): Progress { Progress(None, lut, policy, RESET, 0, false, false) }

  /** One round of the loop of mvfs_eaclhash_update_eaclh. */
  function NextCall(s: Server, n: nat, f: Progress): Progress {
    var r, v := Call(s, n, f.cursor, f.h), s.now(n);
    if r.status == Fine then
      Progress(r.h, v.mtime, v.policy, r.cursor, f.count + 1, f.restarted, r.cursor.next == 0)
    else if r.status == Stale && !f.restarted then
      Progress(None, s.clock(n), f.policy, RESET, 0, true, false)
    else
      f.(h := None, lut := s.clock(n), done := true)
  }

  /** The loop ends: all is read, a call failed, or the limit of blocks is reached. */
  predicate Over(blocks: nat, f: Progress) { f.done || f.count >= blocks }

  /** After the loop: a list that is not complete is freed. */
  function Finish(f: Progress): Progress { if f.done then f else f.(h := None, done := true) }

  /**
    Progress after progress: the calls of a scan have the numbers start, start + 1, ..., and
    none before the last ends it.
   */
  ghost predicate Scan(s: Server, start: nat, fs: seq<Progress>) {
    |fs| > 0 && fs[0] == Begin(fs[0].lut, fs[0].policy) && forall i :: 0 <= i < |fs| - 1 ==> ScanAt(s, start, fs, i)
  }

  ghost predicate ScanAt(s: Server, start: nat, fs: seq<Progress>, i: nat)
    requires i < |fs| - 1
  {
    !fs[i].done && fs[i + 1] == NextCall(s, start + i, fs[i])
  }

  /** The contents of an entry are the whole of a version that the server had before call hi. */
  ghost predicate Complete(s: Server, h: Option<seq<Ace>>, lut: nat, policy: nat, hi: nat) {
    h.Some? ==> Seen(s, Version(lut, h.value, policy), hi)
  }

  /** They are a proper part of one, up to the cursor. */
  ghost predicate Begun(s: Server, f: Progress, hi: nat) {
    if f.cursor.next == 0 then f.h.None?
    else
      exists n: nat ::
        n < hi && Partial(s.now(n), f.cursor, f.h) && f.lut == s.now(n).mtime &&
        f.policy == s.now(n).policy
  }

  ghost predicate ScanOk(s: Server, f: Progress, hi: nat) {
    if f.done then Complete(s, f.h, f.lut, f.policy, hi) else Begun(s, f, hi)
  }

  /** Every call keeps a scan a proper part of one version, or ends it with nothing or with all of one. */
  lemma NextOk(s: Server, f: Progress, n: nat)
    requires Dated(s) && ScanOk(s, f, n) && !f.done
    ensures ScanOk(s, NextCall(s, n, f), n + 1)
  {
    var v := s.now(n);
    if f.cursor.next != 0 {
      var m: nat :| m < n && Partial(s.now(m), f.cursor, f.h);
      v := s.now(m);
    }
    CallExtends(s, n, f.cursor, f.h, v);
    var r, f' := Call(s, n, f.cursor, f.h), NextCall(s, n, f);
    if r.status == Fine && r.cursor.next != 0 {
      assert Partial(s.now(n), f'.cursor, f'.h);
    } else if r.status == Fine {
      assert s.now(n) == Version(f'.lut, f'.h.value, f'.policy);
    }
  }

  /** No fault and no change for as long as a fetch can take. */
  ghost predicate Quiet(s: Server, start: nat, n: nat) {
    s.fault(start + n) == Fine && s.now(start + n) == s.now(start)
  }

  ghost predicate AllQuiet(s: Server, start: nat, blocks: nat) {
    forall n: nat :: n < blocks ==> Quiet(s, start, n)
  }

  /** On a quiet server a scan goes on in the version it began with, by at least one entry a call. */
  lemma {:induction false} QuietScan(blocks: nat, s: Server, start: nat, fs: seq<Progress>, k: nat)
    requires Dated(s) && AllQuiet(s, start, blocks) && Scan(s, start, fs) && k < |fs| && k <= blocks
    ensures var f, v := fs[k], s.now(start);
            !f.restarted && f.count == k &&
            if f.done then f.h == Some(v.entries) else Partial(v, f.cursor, f.h) && k <= f.cursor.next
  {
    if k > 0 {
      QuietScan(blocks, s, start, fs, k - 1);
      var f := fs[k - 1];
      assert ScanAt(s, start, fs, k - 1) && Quiet(s, start, k - 1);
      assert Quiet(s, start, 0) && f.cursor.next != 0 ==> Seen(s, s.now(start), start + k - 1);
      CallExtends(s, start + k - 1, f.cursor, f.h, s.now(start));
    }
  }

  lemma ScanGrows(s: Server, start: nat, fs: seq<Progress>, f: Progress)
    requires Scan(s, start, fs) && !fs[|fs| - 1].done && f == NextCall(s, start + |fs| - 1, fs[|fs| - 1])
    ensures Scan(s, start, fs + [f])
  {
    var fs' := fs + [f];
    forall i | 0 <= i < |fs'| - 1 ensures ScanAt(s, start, fs', i) {
      if i < |fs| - 1 { assert ScanAt(s, start, fs, i); }
    }
  }

  /**
    mvfs_eaclhash_update_eaclh, whose calls have the numbers start, start + 1, ...  The
    handle is null or the complete list of a version that the server had; there is at
    most one restart.
   */
  method Fetch(blocks: nat, s: Server, start: nat, was: nat, policy0: nat)
    returns (h: Option<seq<Ace>>, lut: nat, policy: nat, calls: nat, restarted: bool, ghost fs: seq<Progress>)
    requires Dated(s) && blocks > 0
    ensures calls <= if restarted then 2 * blocks else blocks
    ensures Complete(s, h, lut, policy, start + calls)
    ensures Scan(s, start, fs) && |fs| == calls + 1 && fs[0] == Begin(was, policy0)
    ensures Over(blocks, fs[calls]) && Finish(fs[calls]).h == h && fs[calls].lut == lut && fs[calls].policy == policy
    ensures AllQuiet(s, start, blocks) && |s.now(start).entries| <= blocks ==>
              h == Some(s.now(start).entries) && !restarted
  {
    var cursor, count, status := RESET, 0, Fine;
    restarted, calls, h, lut, policy := false, 0, None, was, policy0;
    ghost var first, f := 0, Begin(was, policy0);
    fs := [f];
    while count < blocks
      invariant 0 <= count <= blocks && first <= blocks && (!restarted ==> first == 0) && calls == first + count
      invariant Scan(s, start, fs) && |fs| == calls + 1 && fs[0] == Begin(was, policy0) && fs[calls] == f
      invariant status == Fine && f == Progress(h, lut, policy, cursor, count, restarted, false)
      invariant ScanOk(s, f, start + calls) && (AllQuiet(s, start, blocks) ==> !restarted)
      decreases !restarted, blocks - count
    {
      NextOk(s, f, start + calls);
      ScanGrows(s, start, fs, NextCall(s, start + calls, f));
      f := NextCall(s, start + calls, f);
      fs := fs + [f];
      if AllQuiet(s, start, blocks) { QuietScan(blocks, s, start, fs, if restarted then 0 else calls + 1); }
      var r := Call(s, start + calls, cursor, h);
      status, cursor, h := r.status, r.cursor, r.h;
      if status == Fine {
        lut, policy := s.now(start + calls).mtime, s.now(start + calls).policy;
      } else {
        lut := s.clock(start + calls);
      }
      calls := calls + 1;
      if status == Stale && !restarted {
        h, cursor, restarted, status := None, RESET, true, Fine;
        first, count := calls, 0;
      } else {
        if status != Fine || cursor.next == 0 { break; }
        count := count + 1;
      }
    }
    if AllQuiet(s, start, blocks) { QuietScan(blocks, s, start, fs, calls); }
    if status != Fine || cursor.next != 0 {
      h := None;
    }
  }
}
