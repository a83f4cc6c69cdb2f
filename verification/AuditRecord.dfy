/**
  What an audit record says about its object, where each field is in the record, and
  when a new record would say the same.

  Offsets are those of a 64-bit kernel, from the end of the record's header.
 */
module AuditRecord {
  import opened AuditStream

  type Four = s: seq<Octet> | |s| == 4 witness [0, 0, 0, 0]
  type Eight = s: seq<Octet> | |s| == 8 witness NULL8
  type Sixteen = s: seq<Octet> | |s| == 16 witness NULL16

  const NULL8: seq<Octet> := [0, 0, 0, 0, 0, 0, 0, 0]
  const NULL16: seq<Octet> := NULL8 + NULL8

  /** An object of a VOB: its VOB, its identity, its serial number, its element and its meta-type. */
  datatype Ids = Ids(vob: Sixteen, oid: Sixteen, sn: Eight, elem: Sixteen, mtype: Four)

  datatype Option<+T> = None | Some(value: T)

  type ObjType = t: nat | t < 6

  /** What mfs_audit is given: the object, if it is of a VOB its identity, the directory likewise, and a name. */
  datatype Subject = Subject(objtype: ObjType, dtm: Sixteen, view: Sixteen, obj: Option<Ids>, dir: Option<Sixteen>,
                             name: seq<Octet>)

  const NOIDS := Ids(NULL16, NULL16, NULL8, NULL16, [0, 0, 0, 0])

  function IdsOf(s: Subject): Ids { if s.obj.Some? then s.obj.value else NOIDS }

  function DirIdOf(s: Subject): Sixteen { if s.dir.Some? then s.dir.value else NULL16 }

  // ---- Kinds ----

  const ROOT: nat := 1
  const LOOKUP: nat := 2
  const READ: nat := 3
  const WRITE: nat := 4
  const RDLINK: nat := 5
  const VIEW: nat := 12
  const MARKER: nat := 14

  predicate Known(kind: nat) { ROOT <= kind <= MARKER }

  predicate DirKind(kind: nat) { kind in {ROOT, LOOKUP, RDLINK, 6, 7, 9, 13} }
  predicate RwKind(kind: nat) { kind in {READ, WRITE, 10} }

  /** The kinds for which an equal record in the buffer makes a new one redundant. */
  predicate Comparable(kind: nat) { kind in {ROOT, LOOKUP, READ, WRITE, RDLINK, VIEW} }

  /** The kinds that end the search at the first record of the same kind. */
  predicate NeverEqual(kind: nat) { kind in {6, 7, 8, 9, 11, 13} }

  // ---- Layout ----

  const DTM: nat := 8
  const VOBID: nat := 40
  const OBJID: nat := 56
  const SERIAL: nat := 72
  const ELEM: nat := 80
  const DIRID: nat := 100
  const DIRNAME: nat := 116
  const RWSIZE: nat := 104
  const TAG: nat := 20

  /** The fields that records of both large kinds have at the same place, from DTM on. */
  function ObjectFields(s: Subject): (b: seq<Octet>)
    ensures |b| == DIRID - DTM
  {
    var i := IdsOf(s);
    s.dtm + s.view + i.vob + i.oid + i.sn + i.elem + i.mtype
  }

  /** The octets that the fields leave between and after them hold what the buffer held. */
  datatype Gaps = Gaps(a: Four, b: Four, c: Four)

  function DirBody(s: Subject, g: Gaps): (b: seq<Octet>)
    ensures |b| == DIRNAME + |s.name| + 5
  {
    Put16(|s.name| % LIMIT) + Put16(s.objtype) + g.a + ObjectFields(s) + DirIdOf(s) + s.name + [0] + g.b
  }

  function RwBody(s: Subject, g: Gaps): (b: seq<Octet>)
    ensures |b| == RWSIZE
  {
    Put16(s.objtype) + g.a + g.b[..2] + ObjectFields(s) + g.c
  }

  function ViewBody(s: Subject, g: Gaps): (b: seq<Octet>)
    ensures |b| == TAG + |s.name| + 1
  {
    Put16(|s.name| % LIMIT) + g.a[..2] + s.view + s.name + [0]
  }

  /** Records of the other kinds are octets. */
  function Body(kind: nat, s: Subject, g: Gaps, other: seq<Octet>): seq<Octet> {
    if DirKind(kind) then DirBody(s, g)
    else if RwKind(kind) then RwBody(s, g)
    else if kind == VIEW then ViewBody(s, g)
    else other
  }

  // ---- Comparing with a record ----

  predicate At(data: seq<Octet>, o: nat, field: seq<Octet>) { o + |field| <= |data| && data[o..o + |field|] == field }

  /** For an object of a VOB only. */
  predicate SameIds(data: seq<Octet>, s: Subject) {
    s.obj.Some? ==>
      At(data, OBJID, s.obj.value.oid) && At(data, VOBID, s.obj.value.vob) && At(data, SERIAL, s.obj.value.sn)
  }

  /** mfs_cmpdirrec. */
  predicate SameDir(data: seq<Octet>, s: Subject) {
    |data| >= DIRNAME && Get16(data, 0) == |s.name| && Get16(data, 2) == s.objtype && At(data, DTM, s.dtm) &&
    (s.dir.Some? ==> At(data, DIRID, s.dir.value)) && SameIds(data, s) && At(data, DIRNAME, s.name)
  }

  /** mfs_cmprwrec. */
  predicate SameRw(kind: nat, data: seq<Octet>, s: Subject) {
    |data| >= DIRID && Get16(data, 0) == s.objtype && (kind != WRITE ==> At(data, DTM, s.dtm)) && SameIds(data, s)
  }

  /** mfs_cmpviewrec: the length of the name is not compared. */
  predicate SameView(data: seq<Octet>, s: Subject) { At(data, 4, s.view) && At(data, TAG, s.name) }

  predicate Same(kind: nat, data: seq<Octet>, s: Subject) {
    if DirKind(kind) then SameDir(data, s) else if RwKind(kind) then SameRw(kind, data, s) else SameView(data, s)
  }

  // ---- What that means ----

  /** The identities agree, so far as the new record's object has them. */
  predicate IdsAgree(was: Subject, s: Subject) {
    s.obj.Some? ==>
      IdsOf(was).oid == s.obj.value.oid && IdsOf(was).vob == s.obj.value.vob && IdsOf(was).sn == s.obj.value.sn
  }

  /**
    A new record would say nothing new: for directory operations the same name, type,
    time, directory and object; for a read or write the same object, for a read at the
    same time; for a view the same view under a tag that begins with the same letters.
   */
  predicate SaysNothingNew(kind: nat, was: Subject, s: Subject) {
    if DirKind(kind) then
      was.name == s.name && was.objtype == s.objtype && was.dtm == s.dtm &&
      (s.dir.Some? ==> DirIdOf(was) == s.dir.value) && IdsAgree(was, s)
    else if RwKind(kind) then
      was.objtype == s.objtype && (kind != WRITE ==> was.dtm == s.dtm) && IdsAgree(was, s)
    else was.view == s.view && s.name <= was.name
  }

  /** Names end at the first null octet. */
  predicate Named(s: Subject) { forall i :: 0 <= i < |s.name| ==> s.name[i] != 0 }

  /** The record was written for this subject. */
  ghost predicate WrittenFor(r: Rec, s: Subject, g: Gaps) {
    Named(s) && Comparable(r.kind) && r.Size() < LIMIT && Body(r.kind, s, g, []) <= r.data
  }

  /** A part of data that begin with a, b and c. */
  lemma Part(data: seq<Octet>, a: seq<Octet>, b: seq<Octet>, c: seq<Octet>, o: nat, n: nat)
    requires a + b + c <= data && o + n <= |b|
    ensures |a| + o + n <= |data| && data[|a| + o..|a| + o + n] == b[o..o + n]
  {
    assert (a + b + c)[|a| + o..|a| + o + n] == b[o..o + n];
  }

  lemma ObjectParts(s: Subject)
    ensures var b, i := ObjectFields(s), IdsOf(s);
            b[0..16] == s.dtm && b[32..48] == i.vob && b[48..64] == i.oid && b[64..72] == i.sn
  {
  }

  /** The fields of the object, behind eight octets. */
  lemma ObjectAt(data: seq<Octet>, head: seq<Octet>, s: Subject, tail: seq<Octet>, t: Subject)
    requires |head| == DTM && head + ObjectFields(s) + tail <= data
    ensures At(data, DTM, t.dtm) <==> s.dtm == t.dtm
    ensures SameIds(data, t) <==> IdsAgree(s, t)
  {
    ObjectParts(s);
    Part(data, head, ObjectFields(s), tail, 0, 16);
    Part(data, head, ObjectFields(s), tail, VOBID - DTM, 16);
    Part(data, head, ObjectFields(s), tail, OBJID - DTM, 16);
    Part(data, head, ObjectFields(s), tail, SERIAL - DTM, 8);
  }

  lemma Short(data: seq<Octet>, x: nat, a: seq<Octet>, b: seq<Octet>)
    requires x < LIMIT && a + Put16(x) + b <= data
    ensures |data| >= |a| + 2 && Get16(data, |a|) == x
  {
    var w := a + Put16(x) + b;
    assert data[|a|] == w[|a|] == x % 256 && data[|a| + 1] == w[|a| + 1] == x / 256;
  }

  /** The first eight octets of a directory record, and what follows. */
  function DirHead(s: Subject, g: Gaps): (h: seq<Octet>)
    ensures |h| == DTM
  {
    Put16(|s.name| % LIMIT) + Put16(s.objtype) + g.a
  }

  function DirTail(s: Subject, g: Gaps): seq<Octet> { DirIdOf(s) + s.name + [0] + g.b }

  lemma DirHeadMeans(data: seq<Octet>, was: Subject, g: Gaps)
    requires DirHead(was, g) <= data && |was.name| < LIMIT
    ensures |data| >= DTM && Get16(data, 0) == |was.name| && Get16(data, 2) == was.objtype
  {
    var n := |was.name|;
    assert n % LIMIT == n;
    assert [] + Put16(n) + (Put16(was.objtype) + g.a) == DirHead(was, g);
    Short(data, n, [], Put16(was.objtype) + g.a);
    assert Put16(n) + Put16(was.objtype) + g.a == DirHead(was, g);
    Short(data, was.objtype, Put16(n), g.a);
  }

  lemma DirTailMeans(data: seq<Octet>, front: seq<Octet>, was: Subject, g: Gaps, s: Subject)
    requires |front| == DIRID && front + DirTail(was, g) <= data
    ensures s.dir.Some? ==> (At(data, DIRID, s.dir.value) <==> DirIdOf(was) == s.dir.value)
    ensures |s.name| == |was.name| ==> (At(data, DIRNAME, s.name) <==> was.name == s.name)
  {
    var t := DirTail(was, g);
    assert front + t + [] == front + t;
    Part(data, front, t, [], 0, 16);
    assert t[0..16] == DirIdOf(was);
    Part(data, front, t, [], 16, |was.name|);
    assert t[16..16 + |was.name|] == was.name;
  }

  lemma DirMeans(r: Rec, was: Subject, g: Gaps, s: Subject)
    requires DirKind(r.kind) && r.Size() < LIMIT && DirBody(was, g) <= r.data
    ensures SameDir(r.data, s) <==> SaysNothingNew(r.kind, was, s)
  {
    var h, o, t := DirHead(was, g), ObjectFields(was), DirTail(was, g);
    assert DirBody(was, g) == h + o + t;
    assert h <= r.data by { assert h == DirBody(was, g)[..DTM] == r.data[..DTM]; }
    DirHeadMeans(r.data, was, g);
    ObjectAt(r.data, h, was, t, s);
    DirTailMeans(r.data, h + o, was, g, s);
  }

  lemma RwMeans(r: Rec, was: Subject, g: Gaps, s: Subject)
    requires RwKind(r.kind) && RwBody(was, g) <= r.data
    ensures SameRw(r.kind, r.data, s) <==> SaysNothingNew(r.kind, was, s)
  {
    var rest := g.a + g.b[..2];
    var head := Put16(was.objtype) + rest;
    assert RwBody(was, g) == head + ObjectFields(was) + g.c;
    assert [] + Put16(was.objtype) + (rest + ObjectFields(was) + g.c) == RwBody(was, g);
    Short(r.data, was.objtype, [], rest + ObjectFields(was) + g.c);
    ObjectAt(r.data, head, was, g.c, s);
  }

  lemma ViewMeans(r: Rec, was: Subject, g: Gaps, s: Subject)
    requires r.kind == VIEW && Named(s) && ViewBody(was, g) <= r.data
    ensures SameView(r.data, s) <==> SaysNothingNew(r.kind, was, s)
  {
    var head := Put16(|was.name| % LIMIT) + g.a[..2];
    assert ViewBody(was, g) == head + was.view + (was.name + [0]);
    Part(r.data, head, was.view, was.name + [0], 0, 16);
    assert ViewBody(was, g) == (head + was.view) + (was.name + [0]) + [];
    TagMeans(r.data, head + was.view, was.name, s.name);
  }

  /** A name without a null octet is found exactly if the name there begins with it. */
  lemma TagMeans(data: seq<Octet>, front: seq<Octet>, was: seq<Octet>, name: seq<Octet>)
    requires front + (was + [0]) + [] <= data && forall i :: 0 <= i < |name| ==> name[i] != 0
    ensures At(data, |front|, name) <==> name <= was
  {
    Part(data, front, was + [0], [], 0, |was| + 1);
    var there := data[|front|..|front| + |was| + 1];
    assert there == was + [0];
    if |name| <= |was| {
      assert data[|front|..|front| + |name|] == there[..|name|] == was[..|name|];
    } else {
      assert name[|was|] != 0 && data[|front| + |was|] == there[|was|] == 0;
      if |front| + |name| <= |data| { assert data[|front|..|front| + |name|][|was|] == data[|front| + |was|]; }
    }
  }

  /** The comparison finds a record exactly if a new one would say nothing new. */
  lemma SameMeans(r: Rec, was: Subject, g: Gaps, s: Subject)
    requires WrittenFor(r, was, g) && Named(s)
    ensures Same(r.kind, r.data, s) <==> SaysNothingNew(r.kind, was, s)
  {
    if DirKind(r.kind) {
      DirMeans(r, was, g, s);
    } else if RwKind(r.kind) {
      RwMeans(r, was, g, s);
    } else {
      ViewMeans(r, was, g, s);
    }
  }

  /**
    So a directory record about objects of a VOB that is left out as redundant would have
    been the one found, but for the octets of the view, the element and the meta-type.
   */
  lemma RedundantBytes(kind: nat, was: Subject, s: Subject, g: Gaps)
    requires DirKind(kind) && SaysNothingNew(kind, was, s) && s.obj.Some? && s.dir.Some?
    ensures |DirBody(was, g)| == |DirBody(s, g)|
    ensures forall i :: 0 <= i < |DirBody(s, g)| && !(24 <= i < 40) && !(ELEM <= i < DIRID) ==>
              DirBody(was, g)[i] == DirBody(s, g)[i]
  {
  }
}
