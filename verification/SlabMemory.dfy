/**
  Slab memory: how a page is carved into chunks, and how the free chunks of a page
  are threaded through their own storage.

  Addresses are bytes; `cell` holds the 8-byte words that carry pointers.  A page of
  SLABSIZE bytes ends in a footer; chunk i of the page whose footer is at f starts
  with a back pointer to f, followed by the storage handed to the caller.  While the
  chunk is free, the first word of that storage is the link of the free list.
 */
module SlabMemory {
  const SLABSIZE: nat := 4096
  const FOOTER: nat := 40
  const ROOM: nat := SLABSIZE - FOOTER   // slb_baseoffset
  const WORD: nat := 8
  const NULL: nat := 0

  datatype Footer = Footer(free: nat, eltcount: nat, freecount: nat, baseoffset: nat)

  /** Element size: a spacer and the payload, rounded up to the alignment. */
  function EltSize(payload: nat): (size: nat)
    ensures size % WORD == 0 && payload + WORD <= size < payload + 2 * WORD
  {
    var size := WORD + payload;
    if size % WORD != 0 then size - size % WORD + WORD else size
  }

  function Count(size: nat): nat
    requires size > 0
  {
    ROOM / size
  }

  function ChunkAt(size: nat, f: nat, i: nat): int {
    if i == 0 then f - ROOM else ChunkAt(size, f, i - 1) + size
  }

  lemma {:induction false} ChunkIs(size: nat, f: nat, i: nat)
    ensures ChunkAt(size, f, i) == f - ROOM + i * size
  {
    if i > 0 { ChunkIs(size, f, i - 1); }
  }

  /** Chunk i lies in the page below the footer, after chunk j for j < i. */
  lemma ChunkBounds(size: nat, f: nat, i: nat)
    requires size > 0 && i < Count(size)
    ensures f - ROOM <= ChunkAt(size, f, i) && ChunkAt(size, f, i) + size <= f
  {
    ChunkIs(size, f, i);
    assert (i + 1) * size <= Count(size) * size <= ROOM;
  }

  lemma ChunkOrder(size: nat, f: nat, i: nat, j: nat)
    requires j < i
    ensures ChunkAt(size, f, j) + size <= ChunkAt(size, f, i)
  {
    ChunkIs(size, f, i);
    ChunkIs(size, f, j);
    assert (j + 1) * size <= i * size;
  }

  /** Two chunks of one page do not share a byte. */
  lemma ChunksApart(size: nat, f: nat, i: nat, j: nat)
    requires size > 0 && i < Count(size) && j < Count(size) && i != j
    ensures ChunkAt(size, f, i) + size <= ChunkAt(size, f, j) || ChunkAt(size, f, j) + size <= ChunkAt(size, f, i)
  {
    if i < j { ChunkOrder(size, f, j, i); } else { ChunkOrder(size, f, i, j); }
  }

  predicate PagesApart(f: nat, g: nat) { f + SLABSIZE <= g || g + SLABSIZE <= f }

  /** An address determines the page and the chunk it is the start of. */
  lemma ChunkUnique(size: nat, f: nat, i: nat, g: nat, j: nat)
    requires size > 0 && i < Count(size) && j < Count(size) && (f == g || PagesApart(f, g))
    requires ChunkAt(size, f, i) == ChunkAt(size, g, j)
    ensures f == g && i == j
  {
    ChunkBounds(size, f, i);
    ChunkBounds(size, g, j);
    if f == g && i != j { ChunksApart(size, f, i, j); }
  }

  /** Bytes [a, a + n) and [b, b + m) share nothing. */
  predicate Disjoint(a: int, n: nat, b: int, m: nat) { a + n <= b || b + m <= a }

  /** A payload shares nothing with another chunk's payload, with any back pointer, or with any footer. */
  lemma PayloadsDisjoint(payload: nat, f: nat, i: nat, g: nat, j: nat)
    requires i < Count(EltSize(payload)) && j < Count(EltSize(payload)) && (f == g || PagesApart(f, g))
    ensures var size := EltSize(payload);
            var p, q := ChunkAt(size, f, i) + WORD, ChunkAt(size, g, j);
            Disjoint(p, payload, q, WORD) && Disjoint(p, payload, g, FOOTER) &&
            ((f, i) != (g, j) ==> Disjoint(p, payload, q + WORD, payload))
  {
    var size := EltSize(payload);
    ChunkBounds(size, f, i);
    ChunkBounds(size, g, j);
    if f == g && i != j { ChunksApart(size, f, i, j); }
  }

  // ---- One slab ----

  ghost predicate Distinct(s: seq<nat>) { forall a, b :: 0 <= a < b < |s| ==> s[a] != s[b] }

  /** The address of the k-th free chunk, or null past the end. */
  ghost function FreeAt(size: nat, f: nat, fr: seq<nat>, k: nat): int {
    if k < |fr| then ChunkAt(size, f, fr[k]) else NULL
  }

  ghost predicate InRange(size: nat, fr: seq<nat>)
    requires size > 0
  {
    Distinct(fr) && forall k :: 0 <= k < |fr| ==> fr[k] < Count(size)
  }

  /** Every chunk points back to its footer. */
  ghost predicate BackPointers(size: nat, cell: map<int, int>, f: nat)
    requires size > 0
  {
    forall i: nat :: i < Count(size) ==> ChunkAt(size, f, i) in cell && cell[ChunkAt(size, f, i)] == f
  }

  /** The free chunks are linked in the order of fr. */
  ghost predicate Threaded(size: nat, cell: map<int, int>, f: nat, fr: seq<nat>) {
    forall k: nat :: k < |fr| ==> LinkAt(size, cell, f, fr, k)
  }

  /** Free chunk k leads to the next one. */
  ghost predicate LinkAt(size: nat, cell: map<int, int>, f: nat, fr: seq<nat>, k: nat)
    requires k < |fr|
  {
    var a := ChunkAt(size, f, fr[k]) + WORD;
    a in cell && cell[a] == FreeAt(size, f, fr, k + 1)
  }

  ghost predicate SlabOk(size: nat, cell: map<int, int>, f: nat, ft: Footer, fr: seq<nat>) {
    2 * WORD <= size <= ROOM < f && InRange(size, fr) && BackPointers(size, cell, f) && Threaded(size, cell, f, fr) &&
    ft.free == FreeAt(size, f, fr, 0) && ft.freecount == |fr| && ft.eltcount == Count(size) && ft.baseoffset == ROOM
  }

  /** A slab has a free chunk exactly when its list head is not null. */
  lemma FreeHead(size: nat, cell: map<int, int>, f: nat, ft: Footer, fr: seq<nat>)
    requires SlabOk(size, cell, f, ft, fr)
    ensures ft.free == NULL <==> ft.freecount == 0
  {
    if fr != [] { ChunkBounds(size, f, fr[0]); }
  }

  /** A slab depends on its own page only. */
  lemma SlabFrame(size: nat, cell: map<int, int>, cell': map<int, int>, f: nat, ft: Footer, fr: seq<nat>)
    requires SlabOk(size, cell, f, ft, fr)
    requires forall a :: f - ROOM <= a < f && a in cell ==> a in cell' && cell'[a] == cell[a]
    ensures SlabOk(size, cell', f, ft, fr)
  {
    forall i: nat | i < Count(size) ensures ChunkAt(size, f, i) in cell' && cell'[ChunkAt(size, f, i)] == f {
      ChunkBounds(size, f, i);
    }
    forall k: nat | k < |fr| ensures LinkAt(size, cell', f, fr, k) {
      assert LinkAt(size, cell, f, fr, k);
      ChunkBounds(size, f, fr[k]);
    }
  }

  /** Writing a word of the storage of chunk i touches no back pointer and no link of another chunk. */
  lemma WriteInside(size: nat, cell: map<int, int>, f: nat, i: nat, a: int, v: int)
    requires 2 * WORD <= size && i < Count(size) && ChunkAt(size, f, i) + WORD <= a < ChunkAt(size, f, i) + size
    requires BackPointers(size, cell, f)
    ensures BackPointers(size, cell[a := v], f)
    ensures forall j: nat :: j < Count(size) && j != i ==> ChunkAt(size, f, j) + WORD != a
  {
    forall j: nat | j < Count(size) && j != i ensures ChunkAt(size, f, j) != a && ChunkAt(size, f, j) + WORD != a {
      ChunksApart(size, f, i, j);
    }
  }

  /** Storage that is not free can be written freely. */
  lemma OwnedWrite(size: nat, cell: map<int, int>, f: nat, ft: Footer, fr: seq<nat>, i: nat, a: int, v: int)
    requires SlabOk(size, cell, f, ft, fr) && i < Count(size) && i !in fr
    requires ChunkAt(size, f, i) + WORD <= a < ChunkAt(size, f, i) + size
    ensures SlabOk(size, cell[a := v], f, ft, fr)
  {
    WriteInside(size, cell, f, i, a, v);
    var cell' := cell[a := v];
    forall k: nat | k < |fr|
      ensures LinkAt(size, cell', f, fr, k)
    {
      assert LinkAt(size, cell, f, fr, k) && fr[k] in fr;
    }
  }

  /** The links of the other free chunks survive a write into chunk i. */
  lemma StillThreaded(size: nat, cell: map<int, int>, f: nat, s: seq<nat>, i: nat, v: int, k: nat)
    requires 2 * WORD <= size && i < Count(size) && k < |s| && s[k] != i
    requires s[k] < Count(size) && LinkAt(size, cell, f, s, k)
    ensures LinkAt(size, cell[ChunkAt(size, f, i) + WORD := v], f, s, k)
  {
    ChunksApart(size, f, i, s[k]);
  }

  lemma PopThreaded(size: nat, cell: map<int, int>, f: nat, fr: seq<nat>)
    requires 2 * WORD <= size && InRange(size, fr) && Threaded(size, cell, f, fr) && fr != []
    ensures Threaded(size, cell[ChunkAt(size, f, fr[0]) + WORD := NULL], f, fr[1..])
  {
    var s, cell' := fr[1..], cell[ChunkAt(size, f, fr[0]) + WORD := NULL];
    forall k: nat | k < |s| ensures LinkAt(size, cell', f, s, k) {
      assert s[k] == fr[k + 1] && LinkAt(size, cell, f, fr, k + 1);
      assert LinkAt(size, cell, f, s, k);
      StillThreaded(size, cell, f, s, fr[0], NULL, k);
    }
  }

  lemma PushThreaded(size: nat, cell: map<int, int>, f: nat, fr: seq<nat>, i: nat)
    requires 2 * WORD <= size && InRange(size, fr) && Threaded(size, cell, f, fr) && i < Count(size) && i !in fr
    ensures Threaded(size, cell[ChunkAt(size, f, i) + WORD := FreeAt(size, f, fr, 0)], f, [i] + fr)
  {
    var s, v := [i] + fr, FreeAt(size, f, fr, 0);
    var cell' := cell[ChunkAt(size, f, i) + WORD := v];
    forall k: nat | k < |s| ensures LinkAt(size, cell', f, s, k) {
      if k > 0 {
        assert s[k] == fr[k - 1] && fr[k - 1] in fr && LinkAt(size, cell, f, fr, k - 1);
        assert LinkAt(size, cell, f, s, k);
        StillThreaded(size, cell, f, s, i, v, k);
      }
    }
  }

  /** Taking the first free chunk. */
  lemma PopOk(size: nat, cell: map<int, int>, f: nat, ft: Footer, fr: seq<nat>)
    requires SlabOk(size, cell, f, ft, fr) && fr != []
    ensures ft.free + WORD in cell && cell[ft.free + WORD] >= 0 && ft.free in cell && cell[ft.free] == f
    ensures SlabOk(size, cell[ft.free + WORD := NULL], f,
                   ft.(free := cell[ft.free + WORD], freecount := ft.freecount - 1), fr[1..])
  {
    var c := ft.free;
    assert fr[0] < Count(size) && c == ChunkAt(size, f, fr[0]) && LinkAt(size, cell, f, fr, 0);
    assert cell[c + WORD] == FreeAt(size, f, fr, 1) == FreeAt(size, f, fr[1..], 0);
    assert cell[c + WORD] >= 0 by {
      if |fr| > 1 { ChunkBounds(size, f, fr[1]); }
    }
    assert c + WORD < c + size;
    WriteInside(size, cell, f, fr[0], c + WORD, NULL);
    PopThreaded(size, cell, f, fr);
  }

  /** Returning a chunk that is not free. */
  lemma PushOk(size: nat, cell: map<int, int>, f: nat, ft: Footer, fr: seq<nat>, i: nat)
    requires SlabOk(size, cell, f, ft, fr) && i < Count(size) && i !in fr
    ensures ChunkAt(size, f, i) > 0
    ensures SlabOk(size, cell[ChunkAt(size, f, i) + WORD := ft.free], f,
                   ft.(free := ChunkAt(size, f, i), freecount := ft.freecount + 1), [i] + fr)
  {
    var c := ChunkAt(size, f, i);
    assert c > 0 by { ChunkBounds(size, f, i); }
    assert c + WORD < c + size;
    WriteInside(size, cell, f, i, c + WORD, ft.free);
    PushThreaded(size, cell, f, fr, i);
    assert FreeAt(size, f, [i] + fr, 0) == c;
  }
}
