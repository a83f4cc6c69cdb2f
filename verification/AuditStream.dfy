/**
  The audit record stream: records laid end to end, each with the size of the record
  before it and its own size.
 */
module AuditStream {
  type Octet = b: int | 0 <= b < 256

  const VERSION: nat := 11
  const HEADER: nat := 8
  const LIMIT: nat := 0x1_0000

  /** `data` is everything after the header, with the padding that aligns the record. */
  datatype Rec = Rec(kind: nat, data: seq<Octet>) {
    function Size(): nat { HEADER + |data| }
  }

  predicate Fits(r: Rec) { r.kind < LIMIT && r.Size() < LIMIT }

  function Put16(x: nat): (s: seq<Octet>)
    requires x < LIMIT
    ensures |s| == 2
  {
    [x % 256, x / 256]
  }

  function Get16(s: seq<Octet>, o: nat): (x: nat)
    requires o + 2 <= |s|
    ensures x < LIMIT
  {
    s[o] as int + 256 * (s[o + 1] as int)
  }

  /** The four header fields and the data. */
  function Bytes(prev: nat, r: Rec): (s: seq<Octet>)
    requires prev < LIMIT && Fits(r)
    ensures |s| == r.Size()
  {
    Put16(VERSION) + Put16(prev) + Put16(r.Size()) + Put16(r.kind) + r.data
  }

  lemma HeaderFields(prev: nat, r: Rec)
    requires prev < LIMIT && Fits(r)
    ensures var s := Bytes(prev, r);
            Get16(s, 0) == VERSION && Get16(s, 2) == prev && Get16(s, 4) == r.Size() && Get16(s, 6) == r.kind &&
            s[HEADER..] == r.data
  {
    var s := Bytes(prev, r);
    assert s[0] == VERSION % 256 && s[1] == VERSION / 256 && s[2] == prev % 256 && s[3] == prev / 256;
    assert s[4] == r.Size() % 256 && s[5] == r.Size() / 256 && s[6] == r.kind % 256 && s[7] == r.kind / 256;
  }

  predicate AllFit(recs: seq<Rec>) { forall n :: 0 <= n < |recs| ==> Fits(recs[n]) }

  /** The size of the last record, 0 if there is none: what the next record's prevoff holds. */
  function LastSize(recs: seq<Rec>): (z: nat)
    requires AllFit(recs)
    ensures z < LIMIT && (z == 0 <==> recs == [])
  {
    if recs == [] then 0 else recs[|recs| - 1].Size()
  }

  function Encode(recs: seq<Rec>): (s: seq<Octet>)
    requires AllFit(recs)
  {
    if recs == [] then []
    else
      var before := recs[..|recs| - 1];
      Encode(before) + Bytes(LastSize(before), recs[|recs| - 1])
  }

  lemma EncodeSnoc(recs: seq<Rec>, r: Rec)
    requires AllFit(recs) && Fits(r)
    ensures Encode(recs + [r]) == Encode(recs) + Bytes(LastSize(recs), r)
  {
    assert (recs + [r])[..|recs|] == recs;
  }

  /** Where record n starts. */
  function Off(recs: seq<Rec>, n: nat): nat
    requires n <= |recs|
  {
    if n == 0 then 0 else Off(recs, n - 1) + recs[n - 1].Size()
  }

  /** The size of the record before record n. */
  function PrevSize(recs: seq<Rec>, n: nat): (z: nat)
    requires AllFit(recs) && n <= |recs|
    ensures z < LIMIT
  {
    if n == 0 then 0 else recs[n - 1].Size()
  }

  /** Bytes that the records tile, each where it belongs. */
  ghost predicate Tiled(s: seq<Octet>, recs: seq<Rec>)
    requires AllFit(recs)
  {
    |s| == Off(recs, |recs|) && forall n :: 0 <= n < |recs| ==> TileAt(s, recs, n)
  }

  ghost predicate TileAt(s: seq<Octet>, recs: seq<Rec>, n: nat)
    requires AllFit(recs) && n < |recs|
  {
    var o := Off(recs, n);
    o + recs[n].Size() <= |s| && s[o..o + recs[n].Size()] == Bytes(PrevSize(recs, n), recs[n])
  }

  lemma {:induction false} OffPrefix(recs: seq<Rec>, n: nat, m: nat)
    requires m <= n <= |recs|
    ensures Off(recs[..n], m) == Off(recs, m)
  {
    if m > 0 { OffPrefix(recs, n, m - 1); }
  }

  lemma {:induction false} OffOrder(recs: seq<Rec>, m: nat, n: nat)
    requires m <= n <= |recs|
    ensures Off(recs, m) <= Off(recs, n)
  {
    if m < n { OffOrder(recs, m, n - 1); }
  }

  /** The encoding is tiled by its records. */
  lemma {:induction false} EncodeTiled(recs: seq<Rec>)
    requires AllFit(recs)
    ensures Tiled(Encode(recs), recs)
  {
    if recs != [] {
      var before, r := recs[..|recs| - 1], recs[|recs| - 1];
      EncodeTiled(before);
      assert recs == before + [r];
      TiledSnoc(Encode(before), before, r);
    }
  }

  lemma TiledSnoc(s: seq<Octet>, recs: seq<Rec>, r: Rec)
    requires AllFit(recs) && Fits(r) && Tiled(s, recs)
    ensures AllFit(recs + [r]) && Tiled(s + Bytes(LastSize(recs), r), recs + [r])
  {
    var more, t := recs + [r], s + Bytes(LastSize(recs), r);
    assert more[..|recs|] == recs;
    forall n | 0 <= n < |more| ensures TileAt(t, more, n) {
      OffPrefix(more, |recs|, n);
      if n < |recs| {
        assert TileAt(s, recs, n);
        assert t[Off(more, n)..Off(more, n) + more[n].Size()] == s[Off(recs, n)..Off(recs, n) + recs[n].Size()];
      }
    }
    OffPrefix(more, |recs|, |recs|);
  }

  // ---- Reading ----

  /** A record can be read at this offset. */
  predicate Readable(s: seq<Octet>, o: nat) {
    o + HEADER <= |s| && Get16(s, o) == VERSION && HEADER <= Get16(s, o + 4) && o + Get16(s, o + 4) <= |s|
  }

  function ReadAt(s: seq<Octet>, o: nat): Rec
    requires Readable(s, o)
  {
    Rec(Get16(s, o + 6), s[o + HEADER..o + Get16(s, o + 4)])
  }

  /** Follow nextoff from an offset as far as it leads. */
  function Forward(s: seq<Octet>, o: nat): seq<Rec>
    decreases |s| - o
  {
    if Readable(s, o) then [ReadAt(s, o)] + Forward(s, o + Get16(s, o + 4)) else []
  }

  /** Follow prevoff back to the record that has none. */
  function Backward(s: seq<Octet>, o: nat): seq<Rec>
    decreases o
  {
    if !Readable(s, o) then []
    else
      var p := Get16(s, o + 2);
      [ReadAt(s, o)] + if p == 0 || p > o then [] else Backward(s, o - p)
  }

  /** What a reader finds where a record was written. */
  lemma ReadsBytes(s: seq<Octet>, o: nat, prev: nat, r: Rec)
    requires prev < LIMIT && Fits(r) && o + r.Size() <= |s| && s[o..o + r.Size()] == Bytes(prev, r)
    ensures Readable(s, o) && ReadAt(s, o) == r && Get16(s, o + 4) == r.Size() && Get16(s, o + 2) == prev
  {
    var b := Bytes(prev, r);
    HeaderFields(prev, r);
    assert forall k :: 0 <= k < |b| ==> s[o + k] == b[k];
    assert s[o + HEADER..o + r.Size()] == b[HEADER..];
  }

  lemma ReadsBack(s: seq<Octet>, recs: seq<Rec>, n: nat)
    requires AllFit(recs) && Tiled(s, recs) && n < |recs|
    ensures ReadsAs(s, Off(recs, n), recs[n], PrevSize(recs, n))
  {
    assert TileAt(s, recs, n);
    ReadsTile(s, recs, n, Off(recs, n), recs[n], PrevSize(recs, n));
  }

  /** At this offset a reader finds this record, with this size before it. */
  ghost predicate ReadsAs(s: seq<Octet>, o: nat, r: Rec, prev: nat) {
    Readable(s, o) && ReadAt(s, o) == r && Get16(s, o + 4) == r.Size() && Get16(s, o + 2) == prev
  }

  lemma ReadsTile(s: seq<Octet>, recs: seq<Rec>, n: nat, o: nat, r: Rec, prev: nat)
    requires AllFit(recs) && n < |recs| && TileAt(s, recs, n) && o == Off(recs, n)
    requires r == recs[n] && prev == PrevSize(recs, n)
    ensures ReadsAs(s, o, r, prev)
  {
    ReadsBytes(s, o, prev, r);
  }

  lemma Onward(s: seq<Octet>, o: nat)
    requires Readable(s, o)
    ensures Forward(s, o) == [ReadAt(s, o)] + Forward(s, o + Get16(s, o + 4))
  {
  }

  lemma Rearward(s: seq<Octet>, o: nat)
    requires Readable(s, o)
    ensures var p := Get16(s, o + 2);
            Backward(s, o) == [ReadAt(s, o)] + if p == 0 || p > o then [] else Backward(s, o - p)
  {
  }

  lemma ReadOn(s: seq<Octet>, recs: seq<Rec>, n: nat)
    requires AllFit(recs) && Tiled(s, recs) && n < |recs|
    ensures Forward(s, Off(recs, n)) == [recs[n]] + Forward(s, Off(recs, n + 1))
  {
    ReadsBack(s, recs, n);
    Onward(s, Off(recs, n));
  }

  lemma ReadBackOn(s: seq<Octet>, recs: seq<Rec>, n: nat)
    requires AllFit(recs) && Tiled(s, recs) && n < |recs|
    ensures Backward(s, Off(recs, n)) == [recs[n]] + if n == 0 then [] else Backward(s, Off(recs, n - 1))
  {
    ReadsBack(s, recs, n);
    Rearward(s, Off(recs, n));
    if n > 0 { assert Off(recs, n) - PrevSize(recs, n) == Off(recs, n - 1); }
  }

  lemma {:induction false} ForwardFrom(s: seq<Octet>, recs: seq<Rec>, n: nat)
    requires AllFit(recs) && Tiled(s, recs) && n <= |recs|
    ensures Forward(s, Off(recs, n)) == recs[n..]
    decreases |recs| - n
  {
    if n < |recs| {
      var on := Forward(s, Off(recs, n + 1));
      assert on == recs[n + 1..] by { ForwardFrom(s, recs, n + 1); }
      assert Forward(s, Off(recs, n)) == [recs[n]] + on by { ReadOn(s, recs, n); }
      assert recs[n..] == [recs[n]] + recs[n + 1..];
    } else {
      ForwardEnd(s);
    }
  }

  lemma ForwardEnd(s: seq<Octet>)
    ensures Forward(s, |s|) == []
  {
  }

  /** Reading forward gives the records in order. */
  lemma ForwardIsRecords(recs: seq<Rec>)
    requires AllFit(recs)
    ensures Forward(Encode(recs), 0) == recs
  {
    EncodeTiled(recs);
    ForwardFrom(Encode(recs), recs, 0);
    assert recs[0..] == recs;
  }

  function Reversed(recs: seq<Rec>): (r: seq<Rec>)
    ensures |r| == |recs| && forall k :: 0 <= k < |r| ==> r[k] == recs[|recs| - 1 - k]
  {
    if recs == [] then [] else [recs[|recs| - 1]] + Reversed(recs[..|recs| - 1])
  }

  lemma {:induction false} BackwardFrom(s: seq<Octet>, recs: seq<Rec>, n: nat)
    requires AllFit(recs) && Tiled(s, recs) && n < |recs|
    ensures Backward(s, Off(recs, n)) == Reversed(recs[..n + 1])
  {
    var back := if n == 0 then [] else Reversed(recs[..n]);
    assert Backward(s, Off(recs, n)) == [recs[n]] + back by {
      ReadBackOn(s, recs, n);
      if n > 0 { BackwardFrom(s, recs, n - 1); }
    }
    assert Reversed(recs[..n + 1]) == [recs[n]] + back;
  }

  /** Walking back from the last record gives the records in reverse. */
  lemma BackwardIsReverse(recs: seq<Rec>)
    requires AllFit(recs) && recs != []
    ensures LastSize(recs) <= |Encode(recs)|
    ensures Backward(Encode(recs), |Encode(recs)| - LastSize(recs)) == Reversed(recs)
  {
    var n := |recs| - 1;
    EncodeTiled(recs);
    assert Off(recs, |recs|) == Off(recs, n) + recs[n].Size();
    BackwardFrom(Encode(recs), recs, n);
    assert recs[..n + 1] == recs;
  }
}
