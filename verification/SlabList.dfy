/**
  The slab allocator: a list of slabs of one element size, with list-wide totals.

  Each method is one stretch of code under the list's lock.  A page that a thread
  carves while it does not hold the lock is `pending`: between that and the thread's
  return to the list any other methods may run.
 */
module SlabList {
  import opened SlabMemory

  // ---- Carving a page ----

  ghost function Upto(n: nat): (s: seq<nat>)
    ensures |s| == n && forall k :: 0 <= k < n ==> s[k] == k
  {
    seq(n, k => k)
  }

  /** Chunk j points back to its footer and on to the given address. */
  ghost predicate Linked(size: nat, cell: map<int, int>, f: nat, j: nat, next: int) {
    var c := ChunkAt(size, f, j);
    c in cell && cell[c] == f && c + WORD in cell && cell[c + WORD] == next
  }

  /** Where chunk j leads when all n chunks are free in address order. */
  ghost function Onward(size: nat, f: nat, n: nat, j: nat): int {
    if j + 1 < n then ChunkAt(size, f, j + 1) else NULL
  }

  ghost predicate LinkedTo(size: nat, cell: map<int, int>, f: nat, n: nat, j: nat) {
    Linked(size, cell, f, j, Onward(size, f, n, j))
  }

  /** Writing the two words of chunk i leaves the chunks before it alone. */
  lemma LinkNext(size: nat, cell: map<int, int>, cell': map<int, int>, f: nat, n: nat, i: nat)
    requires 2 * WORD <= size && n == Count(size) && i < n
    requires forall j: nat :: j < i ==> LinkedTo(size, cell, f, n, j)
    requires cell' == cell[ChunkAt(size, f, i) := f][ChunkAt(size, f, i) + WORD := Onward(size, f, n, i)]
    ensures forall j: nat :: j <= i ==> LinkedTo(size, cell', f, n, j)
  {
    forall j: nat | j <= i ensures LinkedTo(size, cell', f, n, j) {
      if j < i {
        assert LinkedTo(size, cell, f, n, j);
        ChunksApart(size, f, i, j);
      }
    }
  }

  lemma AllLinked(size: nat, cell: map<int, int>, f: nat, n: nat)
    requires size > 0 && n == Count(size) && forall j: nat :: j < n ==> LinkedTo(size, cell, f, n, j)
    ensures BackPointers(size, cell, f) && Threaded(size, cell, f, Upto(n))
  {
    forall j: nat | j < n
      ensures ChunkAt(size, f, j) in cell && cell[ChunkAt(size, f, j)] == f
    {
      assert LinkedTo(size, cell, f, n, j);
    }
    var s := Upto(n);
    forall k: nat | k < |s| ensures LinkAt(size, cell, f, s, k) { assert LinkedTo(size, cell, f, n, s[k]); }
  }

  /** The loop of mvfs_new_slab_int: link all chunks of a page in address order. */
  method Carve(size: nat, cell: map<int, int>, f: nat) returns (cell': map<int, int>)
    requires 2 * WORD <= size <= ROOM < f
    ensures Carves(size, cell, cell', f)
  {
    cell' := cell;
    var count := Count(size);
    var i, p := 0, f - ROOM;
    while i < count - 1
      invariant 0 <= i < count && p == ChunkAt(size, f, i)
      invariant forall j: nat :: j < i ==> LinkedTo(size, cell', f, count, j)
      invariant Outside(cell, cell', f)
    {
      cell' := LinkChunk(size, cell', f, count, i, p, p + size);
      p, i := p + size, i + 1;
    }
    cell' := LinkChunk(size, cell', f, count, i, p, NULL);
    AllLinked(size, cell', f, count);
  }

  /** All chunks of the page are threaded in address order and lead back to its footer; no other page changes. */
  ghost predicate Carves(size: nat, cell: map<int, int>, cell': map<int, int>, f: nat)
    requires size > 0
  {
    Outside(cell, cell', f) && BackPointers(size, cell', f) && Threaded(size, cell', f, Upto(Count(size)))
  }

  /** All words outside the page of f are as they were. */
  ghost predicate Outside(cell: map<int, int>, cell': map<int, int>, f: nat) {
    forall a :: a in cell && !(f - ROOM <= a < f) ==> a in cell' && cell'[a] == cell[a]
  }

  method LinkChunk(size: nat, cell: map<int, int>, f: nat, n: nat, i: nat, p: int, next: int)
    returns (cell': map<int, int>)
    requires 2 * WORD <= size && n == Count(size) && i < n && p == ChunkAt(size, f, i) && next == Onward(size, f, n, i)
    requires forall j: nat :: j < i ==> LinkedTo(size, cell, f, n, j)
    ensures forall j: nat :: j <= i ==> LinkedTo(size, cell', f, n, j)
    ensures Outside(cell, cell', f)
  {
    cell' := cell[p := f][p + WORD := next];
    LinkNext(size, cell, cell', f, n, i);
    ChunkBounds(size, f, i);
  }

  // ---- Totals ----

  ghost function Sum(s: seq<nat>, m: map<nat, nat>): nat
    requires forall f :: f in s ==> f in m
  {
    if s == [] then 0 else m[s[0]] + Sum(s[1..], m)
  }

  lemma {:induction false} SumSame(s: seq<nat>, m: map<nat, nat>, m': map<nat, nat>)
    requires forall f :: f in s ==> f in m && f in m' && m'[f] == m[f]
    ensures Sum(s, m') == Sum(s, m)
  {
    if s != [] { SumSame(s[1..], m, m'); }
  }

  function Without(s: seq<nat>, k: nat): (r: seq<nat>)
    requires k < |s|
    ensures |r| == |s| - 1 && forall j :: 0 <= j < |r| ==> r[j] == if j < k then s[j] else s[j + 1]
  {
    seq(|s| - 1, i requires 0 <= i < |s| - 1 => if i < k then s[i] else s[i + 1])
  }

  lemma WithoutMembers(s: seq<nat>, k: nat)
    requires k < |s| && Distinct(s)
    ensures Distinct(Without(s, k)) && forall f :: f in Without(s, k) <==> f in s && f != s[k]
  {
    var r := Without(s, k);
    forall f | f in s && f != s[k] ensures f in r {
      var j :| 0 <= j < |s| && s[j] == f;
      assert r[if j < k then j else j - 1] == f;
    }
  }

  lemma {:induction false} SumWithout(s: seq<nat>, k: nat, m: map<nat, nat>)
    requires k < |s| && forall f :: f in s ==> f in m
    ensures forall f :: f in Without(s, k) ==> f in m
    ensures Sum(s, m) == m[s[k]] + Sum(Without(s, k), m)
  {
    if k == 0 {
      assert Without(s, 0) == s[1..];
    } else {
      SumWithout(s[1..], k - 1, m);
      assert Without(s, k) == [s[0]] + Without(s[1..], k - 1);
    }
  }

  /** The sum after one slab changes its count. */
  lemma SumUpdate(s: seq<nat>, k: nat, m: map<nat, nat>, m': map<nat, nat>)
    requires k < |s| && Distinct(s) && (forall f :: f in s ==> f in m && f in m')
    requires forall f :: f in s && f != s[k] ==> m'[f] == m[f]
    ensures Sum(s, m') == Sum(s, m) - m[s[k]] + m'[s[k]]
  {
    SumWithout(s, k, m);
    SumWithout(s, k, m');
    WithoutMembers(s, k);
    SumSame(Without(s, k), m, m');
  }

  lemma {:induction false} SumZero(s: seq<nat>, m: map<nat, nat>)
    requires forall f :: f in s ==> f in m && m[f] == 0
    ensures Sum(s, m) == 0
  {
    if s != [] { SumZero(s[1..], m); }
  }

  /** Moving a slab to the head changes neither the members nor the sums. */
  function ToFront(s: seq<nat>, k: nat): (r: seq<nat>)
    requires k < |s|
  {
    [s[k]] + Without(s, k)
  }

  lemma ToFrontSame(s: seq<nat>, k: nat, m: map<nat, nat>)
    requires k < |s| && Distinct(s) && forall f :: f in s ==> f in m
    ensures Distinct(ToFront(s, k)) && |ToFront(s, k)| == |s| && (forall f :: f in ToFront(s, k) <==> f in s)
    ensures Sum(ToFront(s, k), m) == Sum(s, m)
  {
    WithoutMembers(s, k);
    SumWithout(s, k, m);
    assert ToFront(s, k)[1..] == Without(s, k);
  }

  // ---- The list as a value ----

  /** fr gives the free chunks of each slab in list order; pending are the carved pages not on the list. */
  datatype Pool = Pool(
    slabs: seq<nat>, foot: map<nat, Footer>, cell: map<int, int>, totElt: int, totFree: int,
    fr: map<nat, seq<nat>>, pending: set<nat>)

  ghost function Live(p: Pool): set<nat> { (set f | f in p.slabs) + p.pending }

  ghost function Frees(foot: map<nat, Footer>): map<nat, nat> { map f | f in foot :: foot[f].freecount }
  ghost function Elts(foot: map<nat, Footer>): map<nat, nat> { map f | f in foot :: foot[f].eltcount }

  ghost predicate SlabAt(size: nat, p: Pool, f: nat) {
    f in p.foot && f in p.fr && SlabOk(size, p.cell, f, p.foot[f], p.fr[f])
  }

  /** Pages are apart, and each is a well-formed slab. */
  ghost predicate PagesOk(size: nat, p: Pool) {
    (forall f :: f in Live(p) ==> SlabAt(size, p, f)) &&
    (forall f, g :: f in Live(p) && g in Live(p) && f != g ==> PagesApart(f, g))
  }

  /** All chunks of the slab are free. */
  ghost predicate Whole(size: nat, p: Pool, f: nat) { f in p.fr && size > 0 && |p.fr[f]| == Count(size) }

  ghost predicate TotalsOk(p: Pool) {
    (forall f :: f in p.slabs ==> f in p.foot) && p.totElt == Sum(p.slabs, Elts(p.foot)) &&
    p.totFree == Sum(p.slabs, Frees(p.foot))
  }

  ghost predicate OneWhole(size: nat, p: Pool) {
    forall f, g :: f in p.slabs && g in p.slabs && Whole(size, p, f) && Whole(size, p, g) ==> f == g
  }

  ghost predicate Inv(size: nat, p: Pool) {
    p.slabs != [] && Distinct(p.slabs) && (forall f :: f in p.slabs ==> f !in p.pending) && PagesOk(size, p) &&
    (forall f :: f in p.pending ==> Whole(size, p, f)) && TotalsOk(p) && OneWhole(size, p)
  }

  /** A chunk of a slab on the list that some caller holds. */
  ghost predicate Owned(size: nat, p: Pool, f: nat, i: nat)
    requires size > 0
  {
    f in p.slabs && f in p.fr && i < Count(size) && i !in p.fr[f]
  }

  // ---- Rewriting one slab ----

  ghost function Rewritten(p: Pool, f: nat, cell: map<int, int>, ft: Footer, s: seq<nat>): Pool
    requires f in p.foot
  {
    p.(cell := cell, foot := p.foot[f := ft], fr := p.fr[f := s],
       totFree := p.totFree - p.foot[f].freecount + ft.freecount)
  }

  /** Rewriting one page, and its footer, leaves the other slabs as they were. */
  lemma RewrittenPages(size: nat, p: Pool, f: nat, cell: map<int, int>, ft: Footer, s: seq<nat>)
    requires PagesOk(size, p) && f in p.foot && SlabOk(size, cell, f, ft, s) && Outside(p.cell, cell, f) && f in Live(p)
    ensures PagesOk(size, Rewritten(p, f, cell, ft, s))
  {
    var p' := Rewritten(p, f, cell, ft, s);
    forall g | g in Live(p') ensures SlabAt(size, p', g) {
      if g != f {
        assert SlabAt(size, p, g) && PagesApart(f, g);
        SlabFrame(size, p.cell, cell, g, p.foot[g], p.fr[g]);
      }
    }
  }

  lemma RewrittenTotals(p: Pool, k: nat, cell: map<int, int>, ft: Footer, s: seq<nat>)
    requires TotalsOk(p) && Distinct(p.slabs) && k < |p.slabs| && ft.eltcount == p.foot[p.slabs[k]].eltcount
    ensures TotalsOk(Rewritten(p, p.slabs[k], cell, ft, s))
  {
    var foot' := p.foot[p.slabs[k] := ft];
    SumUpdate(p.slabs, k, Frees(p.foot), Frees(foot'));
    SumUpdate(p.slabs, k, Elts(p.foot), Elts(foot'));
  }

  lemma RewrittenWhole(size: nat, p: Pool, k: nat, cell: map<int, int>, ft: Footer, s: seq<nat>)
    requires OneWhole(size, p) && size > 0 && k < |p.slabs| && p.slabs[k] in p.foot
    requires forall f :: f in p.slabs ==> f !in p.pending
    requires forall f :: f in p.pending ==> Whole(size, p, f)
    requires |s| == Count(size) ==> forall g :: g in p.slabs && g != p.slabs[k] ==> !Whole(size, p, g)
    ensures var p' := Rewritten(p, p.slabs[k], cell, ft, s);
            OneWhole(size, p') && forall f :: f in p'.pending ==> Whole(size, p', f)
  {
    var p' := Rewritten(p, p.slabs[k], cell, ft, s);
    assert p.slabs[k] in p.slabs;
    forall f, g | f in p'.slabs && g in p'.slabs && Whole(size, p', f) && Whole(size, p', g) ensures f == g {
      assert f != p.slabs[k] ==> Whole(size, p, f);
      assert g != p.slabs[k] ==> Whole(size, p, g);
    }
    forall f | f in p'.pending ensures Whole(size, p', f) { assert Whole(size, p, f); }
  }

  lemma RewrittenInv(size: nat, p: Pool, k: nat, cell: map<int, int>, ft: Footer, s: seq<nat>)
    requires Inv(size, p) && k < |p.slabs| && SlabOk(size, cell, p.slabs[k], ft, s) && Outside(p.cell, cell, p.slabs[k])
    requires |s| == Count(size) ==> forall g :: g in p.slabs && g != p.slabs[k] ==> !Whole(size, p, g)
    ensures Inv(size, Rewritten(p, p.slabs[k], cell, ft, s))
  {
    var f := p.slabs[k];
    assert PagesOk(size, Rewritten(p, f, cell, ft, s)) && ft.eltcount == p.foot[f].eltcount by {
      assert f in Live(p) && SlabAt(size, p, f);
      RewrittenPages(size, p, f, cell, ft, s);
    }
    RewrittenTotals(p, k, cell, ft, s);
    RewrittenWhole(size, p, k, cell, ft, s);
  }

  // ---- Moving, linking and dropping slabs ----

  lemma PromotedInv(size: nat, p: Pool, k: nat)
    requires Inv(size, p) && k < |p.slabs|
    ensures Inv(size, p.(slabs := ToFront(p.slabs, k)))
    ensures forall f :: f in ToFront(p.slabs, k) <==> f in p.slabs
  {
    ToFrontSame(p.slabs, k, Frees(p.foot));
    ToFrontSame(p.slabs, k, Elts(p.foot));
    var p' := p.(slabs := ToFront(p.slabs, k));
    assert Live(p') == Live(p);
    forall f | f in Live(p') ensures SlabAt(size, p', f) { assert SlabAt(size, p, f); }
    forall f, g | f in p'.slabs && g in p'.slabs && Whole(size, p', f) && Whole(size, p', g) ensures f == g {
      assert Whole(size, p, f) && Whole(size, p, g);
    }
  }

  /** A page just carved, still private to its thread. */
  ghost function Carved(size: nat, p: Pool, f: nat, cell: map<int, int>): Pool
    requires size > 0 && f >= ROOM
  {
    var n := Count(size);
    p.(cell := cell, foot := p.foot[f := Footer(f - ROOM, n, n, ROOM)], fr := p.fr[f := Upto(n)],
       pending := p.pending + {f})
  }

  lemma CarvedInv(size: nat, p: Pool, f: nat, cell: map<int, int>)
    requires Inv(size, p) && 2 * WORD <= size <= ROOM < f && (forall g :: g in Live(p) ==> PagesApart(f, g))
    requires Carves(size, p.cell, cell, f)
    ensures Inv(size, Carved(size, p, f, cell))
  {
    var p' := Carved(size, p, f, cell);
    assert PagesOk(size, p') by { CarvedPages(size, p, f, cell); }
    assert f !in p.slabs by { assert f in p.slabs ==> f in Live(p) && PagesApart(f, f); }
    SumSame(p.slabs, Frees(p.foot), Frees(p'.foot));
    SumSame(p.slabs, Elts(p.foot), Elts(p'.foot));
    assert forall g :: g in p.slabs || g in p.pending ==> (g == f || (Whole(size, p, g) <==> Whole(size, p', g)));
  }

  lemma CarvedPages(size: nat, p: Pool, f: nat, cell: map<int, int>)
    requires PagesOk(size, p) && 2 * WORD <= size <= ROOM < f && (forall g :: g in Live(p) ==> PagesApart(f, g))
    requires Carves(size, p.cell, cell, f)
    ensures PagesOk(size, Carved(size, p, f, cell))
  {
    var p' := Carved(size, p, f, cell);
    assert Live(p') == Live(p) + {f};
    forall g | g in Live(p') ensures SlabAt(size, p', g) {
      if g != f {
        assert SlabAt(size, p, g) && PagesApart(f, g);
        SlabFrame(size, p.cell, cell, g, p.foot[g], p.fr[g]);
      } else {
        assert Upto(Count(size))[0] == 0;
      }
    }
  }

  ghost function Attached(p: Pool, f: nat): Pool
    requires f in p.foot
  {
    p.(slabs := [f] + p.slabs, pending := p.pending - {f},
       totElt := p.totElt + p.foot[f].eltcount, totFree := p.totFree + p.foot[f].freecount)
  }

  /** With fewer free chunks than a page holds, no slab on the list is wholly free. */
  lemma NoneWhole(size: nat, p: Pool, g: nat)
    requires PagesOk(size, p) && TotalsOk(p) && size > 0 && p.totFree < Count(size) && g in p.slabs
    ensures !Whole(size, p, g)
  {
    var k :| 0 <= k < |p.slabs| && p.slabs[k] == g;
    assert g in Live(p) && SlabAt(size, p, g);
    SumWithout(p.slabs, k, Frees(p.foot));
  }

  lemma AttachedInv(size: nat, p: Pool, f: nat)
    requires Inv(size, p) && size > 0 && f in p.pending && f in p.foot && p.totFree < Count(size)
    ensures Inv(size, Attached(p, f))
  {
    var p' := Attached(p, f);
    assert Live(p') == Live(p);
    assert PagesOk(size, p') by {
      forall g | g in Live(p') ensures SlabAt(size, p', g) { assert SlabAt(size, p, g); }
    }
    assert p'.slabs[1..] == p.slabs;
    forall g | g in p.slabs ensures !Whole(size, p', g) {
      NoneWhole(size, p, g);
      assert !Whole(size, p, g);
    }
    forall g | g in p'.pending ensures Whole(size, p', g) { assert Whole(size, p, g); }
  }

  /** A page given back: off the list, or never on it. */
  ghost function Dropped(p: Pool, f: nat): Pool {
    p.(foot := p.foot - {f}, fr := p.fr - {f}, pending := p.pending - {f})
  }

  lemma DroppedInv(size: nat, p: Pool, f: nat)
    requires Inv(size, p) && f !in p.slabs
    ensures Inv(size, Dropped(p, f))
  {
    var p' := Dropped(p, f);
    forall g | g in Live(p') ensures g in Live(p) && SlabAt(size, p', g) { assert SlabAt(size, p, g); }
    SumSame(p.slabs, Frees(p.foot), Frees(p'.foot));
    SumSame(p.slabs, Elts(p.foot), Elts(p'.foot));
    assert forall g :: g != f ==> (Whole(size, p, g) <==> Whole(size, p', g));
  }

  ghost function Unlinked(p: Pool, k: nat): Pool
    requires k < |p.slabs| && p.slabs[k] in p.foot
  {
    var ft := p.foot[p.slabs[k]];
    p.(slabs := Without(p.slabs, k), totElt := p.totElt - ft.eltcount, totFree := p.totFree - ft.freecount)
  }

  lemma UnlinkedInv(size: nat, p: Pool, k: nat)
    requires Inv(size, p) && k < |p.slabs| && |p.slabs| > 1
    ensures p.slabs[k] in p.foot && Inv(size, Unlinked(p, k)) && p.slabs[k] !in Unlinked(p, k).slabs
  {
    assert p.slabs[k] in p.slabs;
    var p' := Unlinked(p, k);
    WithoutMembers(p.slabs, k);
    SumWithout(p.slabs, k, Frees(p.foot));
    SumWithout(p.slabs, k, Elts(p.foot));
    forall g | g in Live(p') ensures g in Live(p) && SlabAt(size, p', g) { assert SlabAt(size, p, g); }
    assert forall g :: Whole(size, p, g) <==> Whole(size, p', g);
  }

  /** Words outside the live pages do not matter. */
  lemma CellInv(size: nat, p: Pool, cell: map<int, int>, f: nat)
    requires Inv(size, p) && Outside(p.cell, cell, f) && forall g :: g in Live(p) ==> PagesApart(f, g)
    ensures Inv(size, p.(cell := cell))
  {
    var p' := p.(cell := cell);
    assert PagesOk(size, p') by {
      forall g | g in Live(p') ensures SlabAt(size, p', g) {
        assert SlabAt(size, p, g) && PagesApart(f, g);
        SlabFrame(size, p.cell, cell, g, p.foot[g], p.fr[g]);
      }
    }
    assert forall g :: Whole(size, p, g) <==> Whole(size, p', g);
  }

  /** More free chunks than one slab has means another slab. */
  lemma AnotherSlab(size: nat, p: Pool, k: nat)
    requires Inv(size, p) && k < |p.slabs| && p.slabs[k] in p.foot && p.totFree > p.foot[p.slabs[k]].freecount
    ensures |p.slabs| > 1
  {
    SumWithout(p.slabs, k, Frees(p.foot));
  }

  /** A slab taken off the list and given back, with one more link written into it before. */
  lemma GoneInv(size: nat, p: Pool, k: nat, cell: map<int, int>)
    requires Inv(size, p) && k < |p.slabs| && p.slabs[k] in p.foot && |p.slabs| > 1 && Outside(p.cell, cell, p.slabs[k])
    ensures Inv(size, Dropped(Unlinked(p, k), p.slabs[k]).(cell := cell))
    ensures forall g :: g in Without(p.slabs, k) <==> g in p.slabs && g != p.slabs[k]
  {
    var f := p.slabs[k];
    var q := Dropped(Unlinked(p, k), f);
    assert Inv(size, q) by {
      UnlinkedInv(size, p, k);
      DroppedInv(size, Unlinked(p, k), f);
    }
    WithoutMembers(p.slabs, k);
    forall g | g in Live(q) ensures PagesApart(f, g) { assert f in Live(p) && g in Live(p) && f != g; }
    CellInv(size, q, cell, f);
  }

  function IndexOf(s: seq<nat>, x: nat): (k: nat)
    requires x in s
    ensures k < |s| && s[k] == x
  {
    if s[0] == x then 0 else 1 + IndexOf(s[1..], x)
  }
}
