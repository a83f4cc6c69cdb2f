/**
  The audit buffer of one audit file: records are appended to a fixed buffer, which
  is written to the end of the file when it is full.
 */
module AuditFile {
  import opened AuditRecord
  import opened AuditStream

  const NIL := -1
  const ENOSPC := 28

  /** The 64-bit alignment of record sizes. */
  function Aligned(n: nat): (m: nat)
    ensures n <= m < n + 8 && m % 8 == 0
  {
    (n + 7) / 8 * 8
  }

  /** One write: its error, and how much it wrote. */
  datatype Io = Io(error: int, wrote: nat)

  /** What the file system does during one flush. */
  datatype Env = Env(openError: int, attrError: int, closeError: int, io: nat -> Io)

  /** Reading inside a suffix is reading further on in the whole. */
  lemma Shift(a: seq<Octet>, b: seq<Octet>, o: nat)
    requires Readable(a + b, |a| + o)
    ensures Readable(b, o) && ReadAt(b, o) == ReadAt(a + b, |a| + o) && Get16(b, o + 2) == Get16(a + b, |a| + o + 2)
    ensures Get16(b, o + 4) == Get16(a + b, |a| + o + 4)
  {
    var s := a + b;
    assert forall k :: 0 <= k < |b| ==> s[|a| + k] == b[k];
    var z := Get16(b, o + 4);
    assert s[|a| + o + HEADER..|a| + o + z] == b[o + HEADER..o + z];
  }

  lemma ShiftIn(a: seq<Octet>, b: seq<Octet>, s: seq<Octet>, o: nat, r: Rec, prev: nat)
    requires s == a + b && Readable(s, |a| + o) && ReadAt(s, |a| + o) == r && Get16(s, |a| + o + 2) == prev
    ensures Readable(b, o) && ReadAt(b, o) == r && Get16(b, o + 2) == prev
  {
    Shift(a, b, o);
  }

  /** A file and a buffer that together are the records, with the first `done` of them in the file. */
  ghost predicate Split(file: seq<Octet>, b: seq<Octet>, recs: seq<Rec>, done: nat) {
    AllFit(recs) && done <= |recs| && Tiled(file + b, recs) && |file| == Off(recs, done)
  }

  lemma BufferedFrom(file: seq<Octet>, b: seq<Octet>, s: seq<Octet>, recs: seq<Rec>, m: nat, o: nat, prev: nat)
    requires AllFit(recs) && m < |recs| && s == file + b && Tiled(s, recs)
    requires |file| + o == Off(recs, m) && prev == PrevSize(recs, m)
    ensures Readable(b, o) && ReadAt(b, o) == recs[m] && Get16(b, o + 2) == prev
  {
    assert Readable(s, |file| + o) && ReadAt(s, |file| + o) == recs[m] && Get16(s, |file| + o + 2) == prev by {
      ReadsBack(s, recs, m);
    }
    ShiftIn(file, b, s, o, recs[m], prev);
  }

  /** Record m in the buffer reads back as accepted, and prevoff leads to the one before it or out of the buffer. */
  lemma BufferedAt(file: seq<Octet>, b: seq<Octet>, recs: seq<Rec>, done: nat, m: nat)
    requires Split(file, b, recs, done) && done <= m < |recs|
    ensures Off(recs, done) <= Off(recs, m)
    ensures var o := Off(recs, m) - Off(recs, done);
            Readable(b, o) && ReadAt(b, o) == recs[m] && Get16(b, o + 2) == PrevSize(recs, m)
  {
    OffOrder(recs, done, m);
    BufferedFrom(file, b, file + b, recs, m, Off(recs, m) - Off(recs, done), PrevSize(recs, m));
  }

  /** The buffer is empty exactly when all records are done; else the last one ends it. */
  lemma LastOf(recs: seq<Rec>, done: nat)
    requires AllFit(recs) && done <= |recs|
    ensures done < |recs| ==>
              Off(recs, |recs| - 1) == Off(recs, |recs|) - LastSize(recs) >= Off(recs, done) && LastSize(recs) > 0
  {
    if done < |recs| { OffOrder(recs, done, |recs| - 1); }
  }

  /** Record m is among the buffered ones the search looks at, and compares equal. */
  ghost predicate Duplicate(max: nat, recs: seq<Rec>, done: nat, m: nat, kind: nat, s: Subject) {
    done <= m < |recs| && |recs| - max <= m && recs[m].kind == kind && Same(kind, recs[m].data, s)
  }

  /** What a record was written for, and what the gaps between its fields held. */
  datatype Note = Note(s: Subject, gaps: Gaps)

  ghost predicate NoteAt(recs: seq<Rec>, notes: seq<Note>, m: nat) {
    m < |recs| && m < |notes| && Comparable(recs[m].kind) ==> WrittenFor(recs[m], notes[m].s, notes[m].gaps)
  }

  ghost predicate Noted(recs: seq<Rec>, notes: seq<Note>) {
    |notes| == |recs| && forall m: nat :: NoteAt(recs, notes, m)
  }

  /** Record m is among the buffered ones the search looks at, and a new one would say nothing that it does not. */
  ghost predicate Redundant(max: nat, recs: seq<Rec>, notes: seq<Note>, done: nat, m: nat, kind: nat, s: Subject) {
    done <= m < |recs| && m < |notes| && |recs| - max <= m && recs[m].kind == kind &&
    SaysNothingNew(kind, notes[m].s, s)
  }

  ghost predicate SomeRedundant(max: nat, recs: seq<Rec>, notes: seq<Note>, done: nat, kind: nat, s: Subject) {
    Comparable(kind) && exists m :: Redundant(max, recs, notes, done, m, kind, s)
  }

  lemma DuplicateMeans(max: nat, recs: seq<Rec>, notes: seq<Note>, done: nat, kind: nat, s: Subject)
    requires Noted(recs, notes) && Named(s)
    ensures Comparable(kind) && (exists m :: Duplicate(max, recs, done, m, kind, s)) <==>
            SomeRedundant(max, recs, notes, done, kind, s)
  {
    forall m: nat ensures Comparable(kind) && Duplicate(max, recs, done, m, kind, s) <==>
                          Comparable(kind) && Redundant(max, recs, notes, done, m, kind, s)
    {
      assert NoteAt(recs, notes, m);
      if m < |recs| && recs[m].kind == kind && Comparable(kind) { SameMeans(recs[m], notes[m].s, notes[m].gaps, s); }
    }
    if Comparable(kind) && exists m :: Duplicate(max, recs, done, m, kind, s) {
      var m :| Duplicate(max, recs, done, m, kind, s);
      assert Redundant(max, recs, notes, done, m, kind, s);
    }
  }

  /** Following prevoff from record m: to record m - 1, below the buffer, or nowhere from the very first record. */
  lemma StepBack(recs: seq<Rec>, done: nat, m: nat)
    requires AllFit(recs) && done <= m < |recs|
    ensures var rp := Off(recs, m) - Off(recs, done) - PrevSize(recs, m);
            if m > done then rp == Off(recs, m - 1) - Off(recs, done) >= 0 else if m > 0 then rp < 0 else rp == 0
  {
    if m > done { OffOrder(recs, done, m - 1); }
  }

  /** mfs_isdupl over the buffered bytes, from the last record; comparing as this kind of record is compared. */
  method SearchBack(max: nat, b: seq<Octet>, lastpos: int, kind: nat, s: Subject, ghost file: seq<Octet>,
                    ghost recs: seq<Rec>, ghost done: nat)
    returns (dup: bool)
    requires Split(file, b, recs, done)
    requires lastpos == if done == |recs| then NIL else Off(recs, |recs| - 1) - Off(recs, done)
    ensures dup <==> Comparable(kind) && exists m :: Duplicate(max, recs, done, m, kind, s)
  {
    var i, rp := 0, lastpos;
    ghost var m: int := |recs| - 1;
    if done < |recs| { OffOrder(recs, done, |recs| - 1); }
    while i < max && rp >= 0
      invariant 0 <= i <= max
      invariant rp >= 0 ==> done <= m < |recs| && rp == Off(recs, m) - Off(recs, done)
      invariant rp >= 0 ==> m == if |recs| - 1 - i >= done then |recs| - 1 - i else 0
      invariant forall k: nat :: Duplicate(max, recs, done, k, kind, s) && Comparable(kind) ==>
                rp >= 0 && k <= |recs| - 1 - i
      decreases max - i
    {
      BufferedAt(file, b, recs, done, m);
      var r := ReadAt(b, rp);
      if r.kind == kind {
        if Comparable(kind) {
          if Same(kind, r.data, s) {
            assert Duplicate(max, recs, done, m, kind, s);
            return true;
          }
        } else if NeverEqual(kind) {
          return false;
        }
      }
      StepBack(recs, done, m);
      rp := rp - Get16(b, rp + 2);
      m := if m > 0 then m - 1 else 0;
      i := i + 1;
    }
    dup := false;
  }

  /** A record laid after the buffered ones extends the stream. */
  lemma AppendStream(file: seq<Octet>, b: seq<Octet>, b': seq<Octet>, recs: seq<Rec>, r: Rec)
    requires AllFit(recs) && Fits(r) && file + b == Encode(recs) && b' == b + Bytes(LastSize(recs), r)
    ensures file + b' == Encode(recs + [r])
  {
    var x, e := Bytes(LastSize(recs), r), Encode(recs);
    assert file + b' == e + x by { Join(file, b, x, e); }
    assert Encode(recs + [r]) == e + x by { EncodeSnoc(recs, r); }
  }

  lemma Join(a: seq<Octet>, b: seq<Octet>, c: seq<Octet>, whole: seq<Octet>)
    requires a + b == whole
    ensures a + (b + c) == whole + c
  {
    assert a + (b + c) == (a + b) + c;
  }

  class Buffer {
    const buf: array<Octet>
    const max: nat          // mvfs_duplsearchmax
    var curpos: nat
    var lastpos: int        // NIL when the buffer is empty
    var lastsize: nat
    var auditwerr: int
    var file: seq<Octet>
    ghost var recs: seq<Rec>   // every record accepted so far
    ghost var notes: seq<Note> // what each was written for
    ghost var done: nat        // how many of them are no longer in the buffer

    ghost predicate Valid()
      reads this, buf
    {
      Streamed() && Noted(recs, notes)
    }

    /** File and buffer hold the records. */
    ghost predicate Streamed()
      reads this, buf
    {
      buf.Length < LIMIT && curpos <= buf.Length && AllFit(recs) && done <= |recs| && lastsize == LastSize(recs) &&
      lastpos == (if curpos == 0 then NIL else curpos - lastsize) &&
      (if auditwerr == 0 then file == Encode(recs[..done]) && file + buf[..curpos] == Encode(recs)
       else curpos == 0 && done == |recs| && file <= Encode(recs))
    }

    constructor (size: nat, max: nat)
      requires size < LIMIT
      ensures Valid() && fresh(buf) && buf.Length == size && this.max == max
      ensures recs == [] && file == [] && auditwerr == 0 && curpos == 0
    {
      buf, this.max := new Octet[size], max;
      curpos, lastpos, lastsize, auditwerr, file, recs, notes, done := 0, NIL, 0, 0, [], [], [], 0;
    }

    // ---- What is in the buffer ----

    /** What the file holds, or would hold but for the write error. */
    ghost function Written(): seq<Octet>
      requires AllFit(recs)
      reads this
    {
      if auditwerr == 0 then file else Encode(recs)
    }

    /** The buffered records, and where they are. */
    lemma Buffered()
      requires Valid()
      ensures Split(Written(), buf[..curpos], recs, done) && curpos == Off(recs, |recs|) - Off(recs, done)
    {
      assert auditwerr != 0 ==> Encode(recs) + buf[..curpos] == Encode(recs);
      EncodeTiled(recs);
      EncodeTiled(recs[..done]);
      OffPrefix(recs, done, done);
    }

    /** Until the first write error the file and the buffer are one stream, readable both ways. */
    lemma OneStream()
      requires Valid() && auditwerr == 0
      ensures Forward(file + buf[..curpos], 0) == recs
      ensures recs != [] ==>
                lastsize <= |file| + curpos &&
                Backward(file + buf[..curpos], |file| + curpos - lastsize) == Reversed(recs)
    {
      ForwardIsRecords(recs);
      if recs != [] { BackwardIsReverse(recs); }
    }

    lemma LastPosition()
      requires Valid()
      ensures lastpos == if done == |recs| then NIL else Off(recs, |recs| - 1) - Off(recs, done)
    {
      assert curpos == Off(recs, |recs|) - Off(recs, done) by { Buffered(); }
      LastOf(recs, done);
    }

    lemma Searchable() returns (w: seq<Octet>)
      requires Valid()
      ensures Split(w, buf[..curpos], recs, done)
      ensures lastpos == if done == |recs| then NIL else Off(recs, |recs| - 1) - Off(recs, done)
    {
      Buffered();
      LastPosition();
      w := Written();
    }

    /** mfs_isdupl: whether one of the last records in the buffer makes this one redundant. */
    method IsDuplicate(kind: nat, s: Subject) returns (dup: bool)
      requires Valid() && Named(s)
      ensures dup <==> SomeRedundant(max, recs, notes, done, kind, s)
    {
      ghost var w := Searchable();
      dup := SearchBack(max, buf[..curpos], lastpos, kind, s, w, recs, done);
      DuplicateMeans(max, recs, notes, done, kind, s);
    }

    // ---- Appending a record ----

    /** Write the header and the body of a record at a position; the padding is whatever the buffer held. */
    method Lay(rp: nat, prev: nat, size: nat, kind: nat, body: seq<Octet>)
      requires prev < LIMIT && kind < LIMIT && HEADER + |body| <= size < LIMIT && rp + size <= buf.Length
      modifies buf
      ensures buf[..rp] == old(buf[..rp]) && body <= buf[rp + HEADER..rp + size]
      ensures buf[rp..rp + size] == Bytes(prev, Rec(kind, buf[rp + HEADER..rp + size]))
    {
      var head := Put16(VERSION) + Put16(prev) + Put16(size) + Put16(kind);
      forall i | 0 <= i < HEADER { buf[rp + i] := head[i]; }
      forall i | 0 <= i < |body| { buf[rp + HEADER + i] := body[i]; }
      assert buf[rp..rp + HEADER] == head;
      assert buf[rp..rp + size] == buf[rp..rp + HEADER] + buf[rp + HEADER..rp + size];
    }

    /** Lay a record after those of a stream. */
    method Extend(prev: nat, size: nat, kind: nat, body: seq<Octet>, ghost before: seq<Rec>) returns (ghost r: Rec)
      requires AllFit(before) && prev == LastSize(before) && kind < LIMIT
      requires HEADER + |body| <= size < LIMIT && curpos + size <= buf.Length
      requires file + buf[..curpos] == Encode(before)
      modifies buf
      ensures r.kind == kind && r.Size() == size && body <= r.data
      ensures file + buf[..curpos + size] == Encode(before + [r])
    {
      var rp := curpos;
      Lay(rp, prev, size, kind, body);
      r := Rec(kind, buf[rp + HEADER..rp + size]);
      assert buf[..rp + size] == buf[..rp] + buf[rp..rp + size];
      AppendStream(file, buf[..rp], buf[..rp + size], before, r);
    }

    /** Append a record to the buffer, and note what it says. */
    method Append(kind: nat, body: seq<Octet>, ghost note: Note)
      requires Valid() && auditwerr == 0 && kind < LIMIT && curpos + Aligned(HEADER + |body|) <= buf.Length
      requires Describes(kind, body, note)
      modifies this`curpos, this`lastpos, this`lastsize, this`recs, this`notes, buf
      ensures Valid() && |recs| == |old(recs)| + 1 && recs[..|old(recs)|] == old(recs)
      ensures notes == old(notes) + [note]
      ensures recs[|old(recs)|].kind == kind && body <= recs[|old(recs)|].data
      ensures curpos == old(curpos) + Aligned(HEADER + |body|)
    {
      ghost var before := recs;
      AppendRec(kind, body);
      assert recs == before + [recs[|before|]] && Fits(recs[|before|]);
      NotesMore(before, notes, recs[|before|], body, note);
      notes := notes + [note];
    }

    method AppendRec(kind: nat, body: seq<Octet>)
      requires Streamed() && auditwerr == 0 && kind < LIMIT && curpos + Aligned(HEADER + |body|) <= buf.Length
      modifies this`curpos, this`lastpos, this`lastsize, this`recs, buf
      ensures Streamed() && |recs| == |old(recs)| + 1 && recs[..|old(recs)|] == old(recs)
      ensures recs[|old(recs)|].kind == kind && body <= recs[|old(recs)|].data
      ensures curpos == old(curpos) + Aligned(HEADER + |body|)
    {
      var rp, size := curpos, Aligned(HEADER + |body|);
      ghost var r := Extend(lastsize, size, kind, body, recs);
      ghost var more := recs + [r];
      assert more[..done] == recs[..done] && more[..|recs|] == recs && more[|recs|] == r;
      recs := more;
      lastsize, lastpos, curpos := size, rp, rp + size;
    }

    /** The note tells what a record of a comparable kind says. */
    ghost predicate Describes(kind: nat, body: seq<Octet>, note: Note) {
      Comparable(kind) ==> Named(note.s) && body == Body(kind, note.s, note.gaps, [])
    }

    lemma NotesMore(recs: seq<Rec>, notes: seq<Note>, r: Rec, body: seq<Octet>, note: Note)
      requires Noted(recs, notes) && r.Size() < LIMIT && body <= r.data && Describes(r.kind, body, note)
      ensures Noted(recs + [r], notes + [note])
    {
      forall m: nat ensures NoteAt(recs + [r], notes + [note], m) { assert NoteAt(recs, notes, m); }
    }

    /** mfs_audit of a held audit file; again asks for a flush and another try. */
    method Audit(kind: nat, s: Subject, g: Gaps, other: seq<Octet>) returns (again: bool)
      requires Valid() && Named(s)
      modifies this`curpos, this`lastpos, this`lastsize, this`recs, this`notes, this`auditwerr, buf
      ensures Valid() && done == old(done) && file == old(file)
      ensures var body, dup := Body(kind, s, g, other), SomeRedundant(max, old(recs), old(notes), done, kind, s);
              var full := old(curpos) + Aligned(HEADER + |body|) > buf.Length;
              var add := !dup && Known(kind) && !full && old(auditwerr) == 0;
              (again <==> !dup && Known(kind) && full && old(curpos) != 0) &&
              auditwerr == (if !dup && Known(kind) && full && old(curpos) == 0 then ENOSPC else old(auditwerr)) &&
              (if add then |recs| == |old(recs)| + 1 && recs[..|old(recs)|] == old(recs) &&
                           recs[|old(recs)|].kind == kind && body <= recs[|old(recs)|].data &&
                           notes == old(notes) + [Note(s, g)]
               else recs == old(recs) && notes == old(notes) && curpos == old(curpos))
    {
      again := false;
      var body := Body(kind, s, g, other);
      var dup := IsDuplicate(kind, s);
      if dup || !Known(kind) { return; }
      var size := Aligned(HEADER + |body|);
      if curpos + size > buf.Length {
        if curpos != 0 { return true; }
        Broken();
        auditwerr := ENOSPC;
        return;
      }
      if auditwerr != 0 { return; }
      Append(kind, body, Note(s, g));
    }

    /** With an empty buffer all records are in the file. */
    lemma Broken()
      requires Valid() && curpos == 0
      ensures done == |recs| && file <= Encode(recs)
    {
      assert curpos == Off(recs, |recs|) - Off(recs, done) by { Buffered(); }
      LastOf(recs, done);
    }

    // ---- Writing the buffer out ----

    /** The write loop: it ends without error only when every byte is written, and writes a prefix in any case. */
    method WriteAll(io: nat -> Io) returns (error: int)
      requires curpos <= buf.Length && curpos > 0
      modifies this`file
      ensures error == 0 ==> file == old(file) + buf[..curpos]
      ensures old(file) <= file <= old(file) + buf[..curpos]
    {
      var left, calls := curpos, 0;
      error := 0;
      while error == 0 && left != 0
        invariant 0 <= left <= curpos
        invariant error == 0 ==> file == old(file) + buf[..curpos - left]
        invariant old(file) <= file <= old(file) + buf[..curpos]
        decreases left, error == 0
      {
        var out := io(calls);
        var n := if out.wrote < left then out.wrote else left;
        assert buf[..curpos - left] + buf[curpos - left..curpos - left + n] == buf[..curpos - left + n];
        file := file + buf[curpos - left..curpos - left + n];
        error := out.error;
        if error == 0 {
          if n == 0 { error := ENOSPC; } else { left := left - n; }
        }
        calls := calls + 1;
      }
    }

    /** Open the file, find its end, write the buffer there and close the file. */
    method WriteOut(env: Env) returns (error: int)
      requires curpos <= buf.Length && curpos > 0
      modifies this`file
      ensures error == 0 ==> file == old(file) + buf[..curpos]
      ensures old(file) <= file <= old(file) + buf[..curpos]
    {
      error := env.openError;
      if error == 0 {
        error := env.attrError;
        if error == 0 { error := WriteAll(env.io); }
        if error == 0 { error := env.closeError; }
      }
    }

    /** mvfs_auditwrite_int. */
    method Flush(env: Env)
      requires Valid()
      modifies this`curpos, this`lastpos, this`auditwerr, this`file, this`done
      ensures Valid() && curpos == 0 && recs == old(recs) && lastsize == old(lastsize)
      ensures auditwerr == 0 ==> file == Encode(recs)
      ensures old(auditwerr) != 0 ==> auditwerr == old(auditwerr) && file == old(file)
    {
      if auditwerr != 0 {
        curpos, lastpos := 0, NIL;
        return;
      }
      if curpos == 0 { return; }
      var error := WriteOut(env);
      if error != 0 { auditwerr := error; }
      lastpos, curpos, done := NIL, 0, |recs|;
      assert recs[..done] == recs;
    }

    /** MFS_AUDIT_EXT: try again after every flush. Without other threads one flush is enough. */
    method AuditRetrying(kind: nat, s: Subject, g: Gaps, other: seq<Octet>, env: nat -> Env) returns (flushes: nat)
      requires Valid() && Named(s)
      modifies this`curpos, this`lastpos, this`lastsize, this`recs, this`notes, this`auditwerr, this`file, this`done
      modifies buf
      ensures Valid() && flushes <= 1
      ensures var body, dup := Body(kind, s, g, other), SomeRedundant(max, old(recs), old(notes), old(done), kind, s);
              if dup || !Known(kind) || auditwerr != 0 then recs == old(recs)
              else |recs| == |old(recs)| + 1 && old(recs) <= recs &&
                   recs[|old(recs)|].kind == kind && body <= recs[|old(recs)|].data
    {
      flushes := 0;
      ghost var body, dup := Body(kind, s, g, other), SomeRedundant(max, recs, notes, done, kind, s);
      var again := Audit(kind, s, g, other);
      while again
        invariant Valid() && flushes <= 1 && (again ==> flushes == 0 && recs == old(recs) && !dup && Known(kind))
        invariant !again ==> if dup || !Known(kind) || auditwerr != 0 then recs == old(recs)
                             else |recs| == |old(recs)| + 1 && old(recs) <= recs &&
                                  recs[|old(recs)|].kind == kind && body <= recs[|old(recs)|].data
        decreases again
      {
        Flush(env(flushes));
        flushes := flushes + 1;
        Broken();
        again := Audit(kind, s, g, other);
      }
    }
  }
}
