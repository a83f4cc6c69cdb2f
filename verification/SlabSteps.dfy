/**
  The slab allocator: what each stretch of code under the list's lock does to the list
  as a value, and to the owners of the chunks.
 */
module SlabSteps {
  import opened SlabList
  import opened SlabMemory

  /** Chunk i of slab f, the first free one, goes to a caller; nothing else about any chunk changes. */
  ghost predicate Handed(size: nat, p: Pool, p': Pool, f: nat, i: nat)
    requires size > 0
  {
    f in p.slabs && f in p.fr && p.fr[f] != [] && i == p.fr[f][0] && p'.fr == p.fr[f := p.fr[f][1..]] &&
    p'.pending == p.pending && (forall g :: g in p'.slabs <==> g in p.slabs) &&
    p'.cell == p.cell[ChunkAt(size, f, i) + WORD := NULL] && p'.totFree == p.totFree - 1
  }

  /** One chunk more is owned: one that was not. */
  ghost predicate Got(size: nat, p: Pool, p': Pool, f: nat, i: nat)
    requires size > 0
  {
    f in p'.slabs && i < Count(size) && !Owned(size, p, f, i) &&
    forall g, j :: Owned(size, p', g, j) <==> Owned(size, p, g, j) || (g == f && j == i)
  }

  lemma HandedOwns(size: nat, p: Pool, p': Pool, f: nat, i: nat)
    requires Inv(size, p) && size > 0 && Handed(size, p, p', f, i)
    ensures Got(size, p, p', f, i)
  {
    assert f in Live(p) && SlabAt(size, p, f);
    var s := p.fr[f];
    assert s == [i] + s[1..];
    forall j | 0 <= j < |s| - 1 ensures s[1..][j] != i { assert s[1..][j] == s[j + 1]; }
    assert i !in s[1..] && forall j :: j in s <==> j == i || j in s[1..];
  }

  /** The footer after its first free chunk is taken. */
  function Lowered(ft: Footer, next: nat): Footer
    requires ft.freecount > 0
  {
    ft.(free := next, freecount := ft.freecount - 1)
  }

  lemma PopInv(size: nat, p: Pool, k: nat)
    requires Inv(size, p) && size > 0 && k < |p.slabs| && p.slabs[k] in p.foot && p.foot[p.slabs[k]].freecount > 0
    ensures var f := p.slabs[k];
            var link := p.foot[f].free + WORD;
            f in p.fr && p.fr[f] != [] && link in p.cell && p.cell[link] >= 0 &&
            link == ChunkAt(size, f, p.fr[f][0]) + WORD &&
            Inv(size, Rewritten(p, f, p.cell[link := NULL], Lowered(p.foot[f], p.cell[link]), p.fr[f][1..])) &&
            Handed(size, p, Rewritten(p, f, p.cell[link := NULL], Lowered(p.foot[f], p.cell[link]), p.fr[f][1..]),
                   f, p.fr[f][0])
  {
    var f := p.slabs[k];
    var link := p.foot[f].free + WORD;
    FreeFirst(size, p, f);
    assert Outside(p.cell, p.cell[link := NULL], f) by { ChunkBounds(size, f, p.fr[f][0]); }
    RewrittenInv(size, p, k, p.cell[link := NULL], Lowered(p.foot[f], p.cell[link]), p.fr[f][1..]);
  }

  /** The head of a slab's free list, and the slab without it. */
  lemma FreeFirst(size: nat, p: Pool, f: nat)
    requires PagesOk(size, p) && size > 0 && f in Live(p) && f in p.foot && p.foot[f].freecount > 0
    ensures f in p.fr && p.fr[f] != [] && p.fr[f][0] < Count(size) && |p.fr[f][1..]| < Count(size)
    ensures var link := p.foot[f].free + WORD;
            link == ChunkAt(size, f, p.fr[f][0]) + WORD && link in p.cell && p.cell[link] >= 0 &&
            SlabOk(size, p.cell[link := NULL], f, Lowered(p.foot[f], p.cell[link]), p.fr[f][1..])
  {
    assert SlabAt(size, p, f);
    assert p.fr[f][0] < Count(size);
    PopOk(size, p.cell, f, p.foot[f], p.fr[f]);
    DistinctBelow(p.fr[f], Count(size));
  }

  /** A list of distinct chunks of a slab is no longer than the slab. */
  lemma {:induction false} DistinctBelow(s: seq<nat>, n: nat)
    requires Distinct(s) && forall k :: 0 <= k < |s| ==> s[k] < n
    ensures |s| <= n
    decreases n
  {
    assert |s| > 0 ==> s[0] < n;
    if n > 0 && n - 1 !in s {
      DistinctBelow(s, n - 1);
    } else if n > 0 {
      var k :| 0 <= k < |s| && s[k] == n - 1;
      var r := Without(s, k);
      forall j | 0 <= j < |r| ensures r[j] < n - 1 { assert r[j] in s && r[j] != s[k]; }
      DistinctBelow(r, n - 1);
    }
  }

  /** The list of a single page, all of it free. */
  ghost predicate First(size: nat, f: nat, cell: map<int, int>, p: Pool) {
    2 * WORD <= size <= ROOM < f && Carves(size, map[], cell, f) &&
    var n := Count(size);
    p == Pool([f], map[f := Footer(f - ROOM, n, n, ROOM)], cell, n, n, map[f := Upto(n)], {})
  }

  lemma FirstInv(size: nat, f: nat, cell: map<int, int>, p: Pool)
    requires First(size, f, cell, p)
    ensures Inv(size, p) && forall g, i :: !Owned(size, p, g, i)
  {
    var n := Count(size);
    assert n > 0 && Upto(n)[0] == 0;
    assert SlabAt(size, p, f);
    assert p.slabs[1..] == [];
    assert Sum(p.slabs[1..], Frees(p.foot)) == 0 && Sum(p.slabs[1..], Elts(p.foot)) == 0;
    forall i: nat | i < n ensures i in p.fr[f] { assert Upto(n)[i] == i; }
  }

  /** Chunk i of slab f comes back; its slab goes if that leaves it wholly free and another slab has a free chunk. */
  ghost predicate Returned(size: nat, p: Pool, p': Pool, f: nat, i: nat, gone: bool)
    requires size > 0
  {
    f in p.slabs && f in p.fr && f in p.foot &&
    (gone <==> |p.fr[f]| + 1 == Count(size) && p.totFree + 1 > Count(size)) &&
    p'.pending == p.pending &&
    p'.cell == p.cell[ChunkAt(size, f, i) + WORD := p.foot[f].free] &&
    (if gone then p'.fr == p.fr - {f} && forall g :: g in p'.slabs <==> g in p.slabs && g != f
     else p'.fr == p.fr[f := [i] + p.fr[f]] && forall g :: g in p'.slabs <==> g in p.slabs)
  }

  /** So exactly one chunk less is owned, and a page goes back only when none of its chunks is. */
  lemma ReturnedFrees(size: nat, p: Pool, p': Pool, f: nat, i: nat, gone: bool)
    requires Inv(size, p) && size > 0 && Owned(size, p, f, i) && Returned(size, p, p', f, i, gone)
    ensures forall g, j :: Owned(size, p', g, j) <==> Owned(size, p, g, j) && !(g == f && j == i)
  {
    assert f in Live(p) && SlabAt(size, p, f);
    if gone {
      forall j | Owned(size, p, f, j) ensures j == i {
        if j != i { TooMany(p.fr[f], i, j, Count(size)); }
      }
    }
  }

  /** Two chunks cannot both be missing from a free list that is only one short. */
  lemma TooMany(s: seq<nat>, i: nat, j: nat, n: nat)
    requires Distinct(s) && (forall k :: 0 <= k < |s| ==> s[k] < n) && i !in s && j !in s && i != j && i < n && j < n
    ensures |s| + 2 <= n
  {
    DistinctBelow([i, j] + s, n);
  }

  /** The footer after a chunk is put on its free list. */
  function Raised(ft: Footer, tp: nat): Footer { ft.(free := tp, freecount := ft.freecount + 1) }

  /** Putting an owned chunk back on its slab's list, when the slab stays. */
  lemma PushInv(size: nat, p: Pool, k: nat, i: nat)
    requires Inv(size, p) && size > 0 && k < |p.slabs| && Owned(size, p, p.slabs[k], i) && p.slabs[k] in p.foot
    requires |p.fr[p.slabs[k]]| + 1 == Count(size) ==> p.totFree + 1 <= Count(size)
    ensures var f := p.slabs[k];
            var tp := ChunkAt(size, f, i);
            var cell := p.cell[tp + WORD := p.foot[f].free];
            tp > 0 && Inv(size, Rewritten(p, f, cell, Raised(p.foot[f], tp), [i] + p.fr[f]))
  {
    var f := p.slabs[k];
    var tp := ChunkAt(size, f, i);
    var cell' := p.cell[tp + WORD := p.foot[f].free];
    assert tp > 0 && SlabOk(size, cell', f, Raised(p.foot[f], tp), [i] + p.fr[f]) &&
        p.foot[f].freecount == |p.fr[f]| by {
      assert f in Live(p) && SlabAt(size, p, f);
      PushOk(size, p.cell, f, p.foot[f], p.fr[f], i);
    }
    assert Outside(p.cell, cell', f) by { ChunkBounds(size, f, i); }
    assert |p.fr[f]| + 1 == Count(size) ==> forall g :: g in p.slabs && g != f ==> !Whole(size, p, g) by {
      if |p.fr[f]| + 1 == Count(size) {
        forall g | g in p.slabs && g != f ensures !Whole(size, p, g) { OthersFull(size, p, k, g); }
      }
    }
    RewrittenInv(size, p, k, cell', Raised(p.foot[f], tp), [i] + p.fr[f]);
  }

  /** A pending slab is wholly free. */
  lemma PendingSlab(size: nat, p: Pool, f: nat)
    requires Inv(size, p) && 0 < size <= ROOM && f in p.pending
    ensures f in p.foot && f in p.fr && p.foot[f].freecount == Count(size) == p.foot[f].eltcount
    ensures Count(size) > 0 && p.totFree >= 0
  {
    assert f in Live(p) && SlabAt(size, p, f) && Whole(size, p, f);
  }

  /** If one slab has all the free chunks of the list, the others have none. */
  lemma OthersFull(size: nat, p: Pool, k: nat, g: nat)
    requires Inv(size, p) && size > 0 && k < |p.slabs| && g in p.slabs && g != p.slabs[k] && p.slabs[k] in p.foot
    requires p.totFree <= p.foot[p.slabs[k]].freecount
    ensures g in p.foot && p.foot[g].freecount == 0 && !Whole(size, p, g)
  {
    assert p.foot[g].freecount == 0 by {
      SumWithout(p.slabs, k, Frees(p.foot));
      WithoutMembers(p.slabs, k);
      var rest := Without(p.slabs, k);
      var j :| 0 <= j < |rest| && rest[j] == g;
      SumWithout(rest, j, Frees(p.foot));
    }
    assert g in Live(p) && SlabAt(size, p, g);
  }

  /** Storage handed out shares no byte with other storage handed out, with a back pointer or with a footer. */
  lemma StorageApart(payload: nat, p: Pool, f: nat, i: nat, g: nat, j: nat)
    requires var size := EltSize(payload);
             Inv(size, p) && f in Live(p) && g in Live(p) && i < Count(size) && j < Count(size)
    ensures var size := EltSize(payload);
            var a, b := ChunkAt(size, f, i) + WORD, ChunkAt(size, g, j) + WORD;
            Disjoint(a, payload, b - WORD, WORD) && Disjoint(a, payload, g, FOOTER) &&
            ((f, i) != (g, j) ==> Disjoint(a, payload, b, payload))
  {
    assert f == g || PagesApart(f, g);
    PayloadsDisjoint(payload, f, i, g, j);
  }

  lemma WriteInv(size: nat, p: Pool, f: nat, i: nat, a: int, v: int)
    requires Inv(size, p) && size > 0 && Owned(size, p, f, i)
    requires ChunkAt(size, f, i) + WORD <= a < ChunkAt(size, f, i) + size
    ensures Inv(size, p.(cell := p.cell[a := v]))
  {
    var p' := p.(cell := p.cell[a := v]);
    assert PagesOk(size, p') by {
      assert f in Live(p) && SlabAt(size, p, f);
      OwnedWrite(size, p.cell, f, p.foot[f], p.fr[f], i, a, v);
      assert Outside(p.cell, p.cell[a := v], f) by { ChunkBounds(size, f, i); }
      RewrittenPages(size, p, f, p.cell[a := v], p.foot[f], p.fr[f]);
      assert p.foot[f := p.foot[f]] == p.foot && p.fr[f := p.fr[f]] == p.fr;
      assert Rewritten(p, f, p.cell[a := v], p.foot[f], p.fr[f]) == p';
    }
    assert forall g :: Whole(size, p, g) <==> Whole(size, p', g);
  }

  // ---- The stretches of code as functions of the list ----

  /** The first slab with a free chunk. */
  ghost function FirstFree(slabs: seq<nat>, foot: map<nat, Footer>): (k: nat)
    requires forall f :: f in slabs ==> f in foot
    ensures k <= |slabs| && (k < |slabs| ==> foot[slabs[k]].freecount > 0)
    ensures forall j :: 0 <= j < k ==> foot[slabs[j]].freecount == 0
  {
    if slabs == [] || foot[slabs[0]].freecount > 0 then 0 else 1 + FirstFree(slabs[1..], foot)
  }

  /** A positive total means that some slab has a free chunk. */
  lemma SomeFree(size: nat, p: Pool)
    requires Inv(size, p) && p.totFree > 0
    ensures FirstFree(p.slabs, p.foot) < |p.slabs|
  {
    if FirstFree(p.slabs, p.foot) == |p.slabs| { SumZero(p.slabs, Frees(p.foot)); }
  }

  ghost function Popped(size: nat, p: Pool, k: nat): (p': Pool)
    requires Inv(size, p) && size > 0 && k < |p.slabs| && p.slabs[k] in p.foot && p.foot[p.slabs[k]].freecount > 0
    ensures var f := p.slabs[k];
            f in p.fr && p.fr[f] != [] && p.foot[f].free == ChunkAt(size, f, p.fr[f][0]) && Inv(size, p') &&
            Handed(size, p, p', f, p.fr[f][0]) && p'.slabs == p.slabs && f in p'.foot
  {
    PopInv(size, p, k);
    var f := p.slabs[k];
    var link := p.foot[f].free + WORD;
    Rewritten(p, f, p.cell[link := NULL], Lowered(p.foot[f], p.cell[link]), p.fr[f][1..])
  }

  /** The chunk that goes next: its slab, its place there and the address of its storage. */
  ghost function NextSlab(size: nat, p: Pool): nat
    requires Inv(size, p) && p.totFree > 0
  {
    SomeFree(size, p);
    p.slabs[FirstFree(p.slabs, p.foot)]
  }

  ghost function NextChunk(size: nat, p: Pool): nat
    requires Inv(size, p) && p.totFree > 0
  {
    SomeFree(size, p);
    assert NextSlab(size, p) in Live(p) && SlabAt(size, p, NextSlab(size, p));
    p.fr[NextSlab(size, p)][0]
  }

  ghost function NextStorage(size: nat, p: Pool): int
    requires Inv(size, p) && p.totFree > 0
  {
    Storage(size, NextSlab(size, p), NextChunk(size, p))
  }

  /** Take the first free chunk of the first slab with one, and keep slabs with free chunks in front. */
  ghost function Taken(size: nat, p: Pool): (p': Pool)
    requires Inv(size, p) && size > 0 && p.totFree > 0
    ensures Inv(size, p') && Handed(size, p, p', NextSlab(size, p), NextChunk(size, p)) && p'.totElt == p.totElt
  {
    SomeFree(size, p);
    var k := FirstFree(p.slabs, p.foot);
    var q := Popped(size, p, k);
    if k != 0 && q.foot[p.slabs[k]].freecount != 0 then
      PromotedInv(size, q, k);
      q.(slabs := ToFront(q.slabs, k))
    else
      q
  }

  /** The list in which a thread that comes back with page f looks for its chunk. */
  ghost function WithPage(size: nat, p: Pool, f: nat): (p': Pool)
    requires Inv(size, p) && 0 < size <= ROOM && f in p.pending
    ensures Inv(size, p') && p'.totFree > 0
  {
    PendingSlab(size, p, f);
    if p.totFree < Count(size) then AttachedInv(size, p, f); Attached(p, f) else p
  }

  ghost function Resumed(size: nat, p: Pool, f: nat): (p': Pool)
    requires Inv(size, p) && 0 < size <= ROOM && f in p.pending
    ensures Inv(size, p') && p'.pending == p.pending - {f}
    ensures if p.totFree < Count(size) then f in p'.slabs else f !in p'.slabs && f !in p'.foot
  {
    var q := Taken(size, WithPage(size, p, f));
    if p.totFree < Count(size) then q else DroppedInv(size, q, f); Dropped(q, f)
  }

  /** The slab goes: the chunk makes it wholly free, and another slab has a free chunk. */
  ghost predicate Goes(p: Pool, f: nat)
    requires f in p.foot
  {
    p.foot[f].freecount + 1 == p.foot[f].eltcount && p.totFree > p.foot[f].freecount
  }

  /** The slab is off the list and its page freed. */
  ghost function Gone(size: nat, p: Pool, k: nat, i: nat): (p': Pool)
    requires Inv(size, p) && size > 0 && k < |p.slabs| && p.slabs[k] in p.foot && i < Count(size) && Goes(p, p.slabs[k])
    ensures Inv(size, p') && p'.fr == p.fr - {p.slabs[k]} && p'.pending == p.pending
    ensures p'.cell == p.cell[Storage(size, p.slabs[k], i) := p.foot[p.slabs[k]].free]
    ensures forall g :: g in p'.slabs <==> g in p.slabs && g != p.slabs[k]
    ensures p'.totElt - p'.totFree == p.totElt - p.totFree - 1
  {
    var f := p.slabs[k];
    var cell := p.cell[Storage(size, f, i) := p.foot[f].free];
    AnotherSlab(size, p, k);
    ChunkBounds(size, f, i);
    assert f in Live(p) && SlabAt(size, p, f);
    assert Outside(p.cell, cell, f);
    GoneInv(size, p, k, cell);
    assert f in p.slabs && f !in p.pending;
    Dropped(Unlinked(p, k), f).(cell := cell)
  }

  /** The slab stays with one more chunk on its free list. */
  ghost function Pushed(size: nat, p: Pool, k: nat, i: nat): (p': Pool)
    requires Inv(size, p) && size > 0 && k < |p.slabs| && p.slabs[k] in p.foot && Owned(size, p, p.slabs[k], i)
    requires !Goes(p, p.slabs[k])
    ensures Inv(size, p') && p'.slabs == p.slabs && p'.fr == p.fr[p.slabs[k] := [i] + p.fr[p.slabs[k]]]
    ensures p'.cell == p.cell[Storage(size, p.slabs[k], i) := p.foot[p.slabs[k]].free]
    ensures p'.pending == p.pending && p'.totElt == p.totElt && p'.totFree == p.totFree + 1
    ensures p.slabs[k] in p'.foot && p'.foot[p.slabs[k]].freecount > 0
  {
    var f := p.slabs[k];
    assert f in Live(p) && SlabAt(size, p, f);
    PushInv(size, p, k, i);
    var cell := p.cell[Storage(size, f, i) := p.foot[f].free];
    Rewritten(p, f, cell, Raised(p.foot[f], ChunkAt(size, f, i)), [i] + p.fr[f])
  }

  ghost function Freed(size: nat, p: Pool, f: nat, i: nat): (p': Pool)
    requires Inv(size, p) && 0 < size && Owned(size, p, f, i)
    ensures f in p.foot && Inv(size, p') && Returned(size, p, p', f, i, Goes(p, f))
    ensures p'.totElt - p'.totFree == p.totElt - p.totFree - 1
  {
    assert f in Live(p) && SlabAt(size, p, f);
    var k := IndexOf(p.slabs, f);
    if Goes(p, f) then
      Gone(size, p, k, i)
    else
      var q := Pushed(size, p, k, i);
      if q.slabs[0] != f && q.foot[q.slabs[0]].freecount == 0 then
        PromotedInv(size, q, k);
        q.(slabs := ToFront(q.slabs, k))
      else
        q
  }

  // ---- Owners ----

  /** The storage at an address is a caller's. */
  datatype Owner = Owner(elt: int, who: nat)

  function Storage(size: nat, f: nat, i: nat): int { ChunkAt(size, f, i) + WORD }

  ghost predicate Out(size: nat, p: Pool, elt: int)
    requires size > 0
  {
    exists f, i :: Owned(size, p, f, i) && elt == Storage(size, f, i)
  }

  /**
    The addresses with owners are those of the chunks that are on no free list, each
    has one owner, and the totals count them.
   */
  ghost predicate OwnersOk(size: nat, p: Pool, owners: set<Owner>)
    requires size > 0
  {
    (forall o :: o in owners ==> Out(size, p, o.elt)) &&
    (forall f, i :: Owned(size, p, f, i) ==> HasOwner(owners, Storage(size, f, i))) &&
    (forall o, o' :: o in owners && o' in owners && o.elt == o'.elt ==> o == o') &&
    |owners| == p.totElt - p.totFree
  }

  ghost predicate HasOwner(owners: set<Owner>, elt: int) { exists who :: Owner(elt, who) in owners }

  /** The chunk at an address that has an owner. */
  ghost function ChunkOf(size: nat, p: Pool, elt: int): (c: (nat, nat))
    requires size > 0 && Out(size, p, elt)
    ensures Owned(size, p, c.0, c.1) && elt == Storage(size, c.0, c.1)
  {
    var f, i :| Owned(size, p, f, i) && elt == Storage(size, f, i);
    (f, i)
  }

  lemma OwnedUnique(size: nat, p: Pool, f: nat, i: nat, g: nat, j: nat)
    requires Inv(size, p) && size > 0 && f in Live(p) && g in Live(p) && i < Count(size) && j < Count(size)
    requires Storage(size, f, i) == Storage(size, g, j)
    ensures f == g && i == j
  {
    assert f == g || PagesApart(f, g);
    ChunkUnique(size, f, i, g, j);
  }

  /** A chunk handed out gets an owner, and had none. */
  lemma OwnersGot(size: nat, p: Pool, p': Pool, owners: set<Owner>, f: nat, i: nat, who: nat)
    requires size > 0 && Inv(size, p') && Got(size, p, p', f, i) && OwnersOk(size, p, owners)
    requires p'.totElt - p'.totFree == p.totElt - p.totFree + 1
    ensures !HasOwner(owners, Storage(size, f, i))
    ensures OwnersOk(size, p', owners + {Owner(Storage(size, f, i), who)})
  {
    var a := Storage(size, f, i);
    assert Owned(size, p', f, i);
    forall o | o in owners ensures o.elt != a && Out(size, p', o.elt) {
      var c := ChunkOf(size, p, o.elt);
      assert Owned(size, p', c.0, c.1);
      if o.elt == a { OwnedUnique(size, p', f, i, c.0, c.1); }
    }
    var owners' := owners + {Owner(a, who)};
    assert Owner(a, who) in owners' && Owner(a, who) !in owners;
    forall g, j | Owned(size, p', g, j) ensures HasOwner(owners', Storage(size, g, j)) {
      if g != f || j != i {
        assert Owned(size, p, g, j);
        var w :| Owner(Storage(size, g, j), w) in owners;
        assert Owner(Storage(size, g, j), w) in owners';
      }
    }
  }

  /** A chunk that comes back has no owner any more. */
  lemma OwnersFreed(size: nat, p: Pool, p': Pool, owners: set<Owner>, f: nat, i: nat, who: nat)
    requires size > 0 && Inv(size, p) && OwnersOk(size, p, owners) && Owned(size, p, f, i)
    requires Owner(Storage(size, f, i), who) in owners
    requires forall g, j :: Owned(size, p', g, j) <==> Owned(size, p, g, j) && !(g == f && j == i)
    requires p'.totElt - p'.totFree == p.totElt - p.totFree - 1
    ensures OwnersOk(size, p', owners - {Owner(Storage(size, f, i), who)})
  {
    var a := Storage(size, f, i);
    var owners' := owners - {Owner(a, who)};
    forall o | o in owners' ensures Out(size, p', o.elt) {
      var c := ChunkOf(size, p, o.elt);
      assert o.elt != a;
      assert Owned(size, p', c.0, c.1);
    }
    forall g, j | Owned(size, p', g, j) ensures HasOwner(owners', Storage(size, g, j)) {
      if Storage(size, g, j) == a { OwnedUnique(size, p, f, i, g, j); }
      var w :| Owner(Storage(size, g, j), w) in owners;
      assert Owner(Storage(size, g, j), w) in owners';
    }
  }

  lemma OwnersSame(size: nat, p: Pool, p': Pool, owners: set<Owner>)
    requires size > 0 && OwnersOk(size, p, owners) && p'.totElt - p'.totFree == p.totElt - p.totFree
    requires forall g, j :: Owned(size, p', g, j) <==> Owned(size, p, g, j)
    ensures OwnersOk(size, p', owners)
  {
    forall o | o in owners ensures Out(size, p', o.elt) {
      var c := ChunkOf(size, p, o.elt);
      assert Owned(size, p', c.0, c.1);
    }
  }

  /** Taking a chunk under the lock. */
  lemma TakenOwners(size: nat, p: Pool, owners: set<Owner>, who: nat)
    requires Inv(size, p) && size > 0 && p.totFree > 0 && OwnersOk(size, p, owners)
    ensures var a := NextStorage(size, p);
            !HasOwner(owners, a) && OwnersOk(size, Taken(size, p), owners + {Owner(a, who)})
  {
    var f, i := NextSlab(size, p), NextChunk(size, p);
    HandedOwns(size, p, Taken(size, p), f, i);
    OwnersGot(size, p, Taken(size, p), owners, f, i, who);
  }

  /** Linking a private page, or giving it back, changes no owner. */
  lemma LinkedOwners(size: nat, p: Pool, owners: set<Owner>, f: nat)
    requires Inv(size, p) && 0 < size <= ROOM && f in p.pending && OwnersOk(size, p, owners)
    ensures OwnersOk(size, WithPage(size, p, f), owners)
  {
    PendingSlab(size, p, f);
    assert f in Live(p) && SlabAt(size, p, f);
    forall j: nat | j < Count(size) ensures j in p.fr[f] {
      if j !in p.fr[f] { DistinctBelow([j] + p.fr[f], Count(size)); }
    }
    OwnersSame(size, p, WithPage(size, p, f), owners);
  }

  lemma DroppedOwners(size: nat, p: Pool, owners: set<Owner>, f: nat)
    requires size > 0 && OwnersOk(size, p, owners) && f !in p.slabs
    ensures OwnersOk(size, Dropped(p, f), owners)
  {
    OwnersSame(size, p, Dropped(p, f), owners);
  }

  /** Coming back from the unlocked window, whatever happened in it. */
  lemma ResumedOwners(size: nat, p: Pool, owners: set<Owner>, f: nat, who: nat)
    requires Inv(size, p) && 0 < size <= ROOM && f in p.pending && OwnersOk(size, p, owners)
    ensures var a := NextStorage(size, WithPage(size, p, f));
            !HasOwner(owners, a) && OwnersOk(size, Resumed(size, p, f), owners + {Owner(a, who)})
  {
    var q := WithPage(size, p, f);
    LinkedOwners(size, p, owners, f);
    TakenOwners(size, q, owners, who);
    if p.totFree >= Count(size) {
      var a := NextStorage(size, q);
      DroppedOwners(size, Taken(size, q), owners + {Owner(a, who)}, f);
    }
  }

  /** A full list that gets a page of its own. */
  lemma GrownOwners(size: nat, p: Pool, owners: set<Owner>, f: nat, cell: map<int, int>, who: nat)
    requires Inv(size, p) && 0 < size <= ROOM <= f && OwnersOk(size, p, owners)
    requires (forall g :: g in Live(p) ==> PagesApart(f, g)) && Inv(size, Carved(size, p, f, cell))
    ensures var q := Carved(size, p, f, cell);
            var a := NextStorage(size, WithPage(size, q, f));
            !HasOwner(owners, a) && OwnersOk(size, Resumed(size, q, f), owners + {Owner(a, who)}) &&
            Resumed(size, q, f).pending == p.pending
  {
    CarvedOwners(size, p, owners, f, cell);
    ResumedOwners(size, Carved(size, p, f, cell), owners, f, who);
    assert f !in p.pending by { assert f in p.pending ==> f in Live(p) && PagesApart(f, f); }
  }

  lemma FreedOwners(size: nat, p: Pool, owners: set<Owner>, f: nat, i: nat, who: nat)
    requires Inv(size, p) && size > 0 && OwnersOk(size, p, owners) && Owned(size, p, f, i)
    requires Owner(Storage(size, f, i), who) in owners
    ensures OwnersOk(size, Freed(size, p, f, i), owners - {Owner(Storage(size, f, i), who)})
    ensures !HasOwner(owners - {Owner(Storage(size, f, i), who)}, Storage(size, f, i))
  {
    ReturnedFrees(size, p, Freed(size, p, f, i), f, i, Goes(p, f));
    OwnersFreed(size, p, Freed(size, p, f, i), owners, f, i, who);
  }

  /** Carving a private page changes no owner. */
  lemma CarvedOwners(size: nat, p: Pool, owners: set<Owner>, f: nat, cell: map<int, int>)
    requires size > 0 && f >= ROOM && OwnersOk(size, p, owners) && forall g :: g in Live(p) ==> PagesApart(f, g)
    ensures OwnersOk(size, Carved(size, p, f, cell), owners)
  {
    assert f !in p.slabs by { assert f in p.slabs ==> f in Live(p) && PagesApart(f, f); }
    OwnersSame(size, p, Carved(size, p, f, cell), owners);
  }

  lemma OwnerNotNull(size: nat, p: Pool, owners: set<Owner>, o: Owner)
    requires Inv(size, p) && size > 0 && OwnersOk(size, p, owners) && o in owners
    ensures o.elt > NULL
  {
    var c := ChunkOf(size, p, o.elt);
    ChunkNotNull(size, p, c.0, c.1);
  }

  lemma ChunkNotNull(size: nat, p: Pool, f: nat, i: nat)
    requires Inv(size, p) && size > 0 && f in Live(p) && i < Count(size)
    ensures ChunkAt(size, f, i) > NULL
  {
    assert SlabAt(size, p, f);
    ChunkBounds(size, f, i);
  }

  // ---- What callers keep in their storage ----

  /** The words of the storage at an address are as they were. */
  ghost predicate SameStorage(payload: nat, cell: map<int, int>, cell': map<int, int>, elt: int) {
    forall b :: elt <= b < elt + payload && b in cell ==> b in cell' && cell'[b] == cell[b]
  }

  /** A write into a chunk that is out keeps the list and its owners. */
  lemma WrittenInv(size: nat, p: Pool, owners: set<Owner>, elt: int, a: int, v: int)
    requires Inv(size, p) && size > 0 && OwnersOk(size, p, owners)
    requires HasOwner(owners, elt) && elt <= a < elt + size - WORD
    ensures Inv(size, p.(cell := p.cell[a := v])) && OwnersOk(size, p.(cell := p.cell[a := v]), owners)
  {
    var c := ChunkOf(size, p, elt);
    WriteInv(size, p, c.0, c.1, a, v);
    OwnersSame(size, p, p.(cell := p.cell[a := v]), owners);
  }

  lemma WrittenKeeps(payload: nat, p: Pool, owners: set<Owner>, elt: int, a: int, v: int)
    requires var size := EltSize(payload);
             Inv(size, p) && OwnersOk(size, p, owners) && HasOwner(owners, elt) && elt <= a < elt + size - WORD
    ensures forall o :: o in owners && o.elt != elt ==> SameStorage(payload, p.cell, p.cell[a := v], o.elt)
  {
    var size := EltSize(payload);
    var c := ChunkOf(size, p, elt);
    forall o | o in owners && o.elt != elt ensures SameStorage(payload, p.cell, p.cell[a := v], o.elt) {
      ChunkWrite(payload, p, c.0, c.1, a, v, o.elt);
    }
  }

  /** A write into one chunk does not touch the storage of another that is out. */
  lemma ChunkWrite(payload: nat, p: Pool, f: nat, i: nat, a: int, v: int, elt: int)
    requires var size := EltSize(payload);
             Inv(size, p) && f in Live(p) && i < Count(size) && Out(size, p, elt) && elt != Storage(size, f, i) &&
             ChunkAt(size, f, i) <= a < ChunkAt(size, f, i) + size
    ensures SameStorage(payload, p.cell, p.cell[a := v], elt)
  {
    var size := EltSize(payload);
    var c := ChunkOf(size, p, elt);
    ChunkBounds(size, f, i);
    ChunkBounds(size, c.0, c.1);
    if c.0 == f { ChunksApart(size, f, i, c.1); } else { assert PagesApart(f, c.0); }
  }
}
