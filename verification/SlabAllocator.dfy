/**
  The slab allocator's list, as the code keeps it.

  Each method is one stretch of code under the list's lock.  Between mvfs_new_slab_int,
  which runs without the lock, and the thread's return to the list, any other methods
  may run: all that is known then is `Valid` and that the thread's page is pending.
 */
module SlabAllocator {
  import opened SlabList
  import opened SlabMemory
  import opened SlabSteps

  class List {
    const payload: nat
    const size: nat
    var slabs: seq<nat>            // footer addresses, head first
    var foot: map<nat, Footer>
    var cell: map<int, int>
    var totElt: int
    var totFree: int
    ghost var fr: map<nat, seq<nat>>
    ghost var pending: set<nat>
    ghost var owners: set<Owner>   // who holds which storage

    ghost function Model(): Pool
      reads this
    {
      Pool(slabs, foot, cell, totElt, totFree, fr, pending)
    }

    ghost predicate Sized() {
      2 * WORD <= payload && size == EltSize(payload) <= ROOM
    }

    ghost predicate Sound()
      reads this
    {
      Sized() && Inv(size, Model())
    }

    ghost predicate Valid()
      reads this
    {
      Sound() && OwnersOk(size, Model(), owners)
    }

    /** mvfs_create_slablist, given the page it gets. */
    constructor (payload: nat, base: nat)
      requires 2 * WORD <= payload && EltSize(payload) <= ROOM && base > 0
      ensures Valid() && this.payload == payload && slabs == [base + ROOM] && pending == {} && owners == {}
      ensures First(size, base + ROOM, cell, Model())
    {
      var sz := EltSize(payload);
      var f := base + ROOM;
      var c := Carve(sz, map[], f);
      var n := Count(sz);
      this.payload, size, slabs, cell := payload, sz, [f], c;
      foot := map[f := Footer(base, n, n, ROOM)];
      totElt, totFree := n, n;
      fr, pending, owners := map[f := Upto(n)], {}, {};
      new;
      FirstInv(size, f, c, Model());
    }

    // ---- Taking a chunk ----

    lemma FreeHeads()
      requires Sound()
      ensures forall j :: 0 <= j < |slabs| ==>
                slabs[j] in foot && (foot[slabs[j]].free == NULL <==> foot[slabs[j]].freecount == 0)
    {
      forall j | 0 <= j < |slabs|
        ensures slabs[j] in foot && (foot[slabs[j]].free == NULL <==> foot[slabs[j]].freecount == 0)
      {
        assert slabs[j] in Live(Model()) && SlabAt(size, Model(), slabs[j]);
        FreeHead(size, cell, slabs[j], foot[slabs[j]], fr[slabs[j]]);
      }
    }

    /** The search of mvfs_slab_getchunk: the first slab with a free chunk. One pass finds it. */
    method Search() returns (k: nat)
      requires Sound() && totFree > 0
      ensures k < |slabs| && foot[slabs[k]].freecount > 0
      ensures forall j :: 0 <= j < k ==> foot[slabs[j]].freecount == 0
    {
      SomeFree(size, Model());
      ghost var w := FirstFree(slabs, foot);
      k := 0;
      FreeHeads();
      while foot[slabs[k]].free == NULL
        invariant k <= w && forall j :: 0 <= j < k ==> foot[slabs[j]].freecount == 0
        decreases w - k
      {
        k := k + 1;
      }
    }

    /** Move a slab to the head of the list. */
    method Promote(k: nat)
      requires Sound() && k < |slabs|
      modifies this`slabs
      ensures Sound() && slabs == ToFront(old(slabs), k) && forall g :: g in slabs <==> g in old(slabs)
    {
      PromotedInv(size, Model(), k);
      slabs := ToFront(slabs, k);
    }

    /** Take the first free chunk of slab k. */
    method Pop(k: nat) returns (elt: int)
      requires Sound() && k < |slabs| && slabs[k] in foot && foot[slabs[k]].freecount > 0
      modifies this`foot, this`cell, this`totFree, this`fr
      ensures Model() == Popped(size, old(Model()), k)
      ensures elt == Storage(size, slabs[k], old(fr)[slabs[k]][0])
    {
      var f := slabs[k];
      PopInv(size, Model(), k);
      var tp := foot[f].free;
      var next := cell[tp + WORD];
      foot, totFree, fr := foot[f := Lowered(foot[f], next)], totFree - 1, fr[f := fr[f][1..]];
      cell := cell[tp + WORD := NULL];
      elt := tp + WORD;
    }

    /** Take a chunk out of the first slab that has one, and keep slabs with free chunks in front. */
    method TakeFirst() returns (elt: int)
      requires Sound() && totFree > 0
      modifies this`slabs, this`cell, this`foot, this`totFree, this`fr
      ensures Model() == Taken(size, old(Model()))
      ensures elt == NextStorage(size, old(Model()))
    {
      var k := Search();
      assert k == FirstFree(slabs, foot);
      elt := Pop(k);
      if k != 0 && foot[slabs[k]].freecount != 0 { Promote(k); }
    }

    method Take(ghost who: nat) returns (elt: int)
      requires Valid() && totFree > 0
      modifies this`slabs, this`cell, this`foot, this`totFree, this`fr, this`owners
      ensures Valid() && Model() == Taken(size, old(Model())) && elt == NextStorage(size, old(Model()))
      ensures !HasOwner(old(owners), elt) && owners == old(owners) + {Owner(elt, who)}
    {
      ghost var p, os := Model(), owners;
      TakenOwners(size, p, os, who);
      elt := TakeFirst();
      owners := os + {Owner(elt, who)};
      assert Model() == Taken(size, p);
    }

    // ---- A new page ----

    /** mvfs_new_slab_int: carve a page that the thread has to itself. */
    method NewSlab(base: nat) returns (f: nat)
      requires Valid() && base > 0 && forall g :: g in Live(Model()) ==> PagesApart(base + ROOM, g)
      modifies this`cell, this`foot, this`fr, this`pending
      ensures Valid() && f == base + ROOM && f !in old(pending)
      ensures Carves(size, old(cell), cell, f) && Model() == Carved(size, old(Model()), f, cell)
    {
      ghost var p := Model();
      f := CarvePage(base);
      CarvedOwners(size, p, owners, f, cell);
    }

    method CarvePage(base: nat) returns (f: nat)
      requires Sound() && base > 0 && forall g :: g in Live(Model()) ==> PagesApart(base + ROOM, g)
      modifies this`cell, this`foot, this`fr, this`pending
      ensures Sound() && f == base + ROOM && f !in old(pending)
      ensures Carves(size, old(cell), cell, f) && Model() == Carved(size, old(Model()), f, cell)
    {
      f := base + ROOM;
      ghost var p := Model();
      var c := Carve(size, cell, f);
      CarvedInv(size, p, f, c);
      var n := Count(size);
      cell, foot := c, foot[f := Footer(base, n, n, ROOM)];
      fr, pending := fr[f := Upto(n)], pending + {f};
      assert f in p.pending ==> f in Live(p) && PagesApart(f, f);
    }

    /** Put a pending slab at the head of the list. */
    method Attach(f: nat)
      requires Sound() && f in pending && totFree < Count(size)
      modifies this`slabs, this`totElt, this`totFree, this`pending
      ensures Sound() && Model() == WithPage(size, old(Model()), f)
    {
      ghost var p := Model();
      PendingSlab(size, p, f);
      AttachedInv(size, p, f);
      slabs := [f] + slabs;
      totElt, totFree := totElt + foot[f].eltcount, totFree + foot[f].freecount;
      pending := pending - {f};
      assert Model() == Attached(p, f);
    }

    /** mvfs_free_slab of a page that is on no list. */
    method Discard(f: nat)
      requires Sound() && f !in slabs
      modifies this`foot, this`fr, this`pending
      ensures Model() == Dropped(old(Model()), f)
    {
      foot, fr, pending := foot - {f}, fr - {f}, pending - {f};
    }

    /**
      The rest of mvfs_slab_getchunk once the lock is taken again, whatever happened
      meanwhile: the new slab is linked if the list has fewer free chunks than it, else
      given back; either way the search succeeds.
     */
    method Resume(f: nat, ghost who: nat) returns (elt: int, linked: bool)
      requires Valid() && f in pending
      modifies this
      ensures Valid() && Model() == Resumed(size, old(Model()), f)
      ensures linked <==> old(totFree) < Count(size)
      ensures elt == NextStorage(size, WithPage(size, old(Model()), f))
      ensures !HasOwner(old(owners), elt) && owners == old(owners) + {Owner(elt, who)}
    {
      ResumedOwners(size, Model(), owners, f, who);
      elt, linked := Rejoin(f);
      owners := owners + {Owner(elt, who)};
    }

    method Rejoin(f: nat) returns (elt: int, linked: bool)
      requires Sound() && f in pending
      modifies this`slabs, this`cell, this`foot, this`totElt, this`totFree, this`fr, this`pending
      ensures Model() == Resumed(size, old(Model()), f) && elt == NextStorage(size, WithPage(size, old(Model()), f))
      ensures linked <==> old(totFree) < Count(size)
    {
      PendingSlab(size, Model(), f);
      linked := totFree < foot[f].freecount;
      if linked { Attach(f); }
      elt := TakeFirst();
      if !linked { Discard(f); }
    }

    /** mvfs_slab_getchunk without interference; page is what the page allocator returns, null on failure. */
    method GetChunk(page: nat, ghost who: nat) returns (elt: int)
      requires Valid() && (page == NULL || forall h :: h in Live(Model()) ==> PagesApart(page + ROOM, h))
      modifies this
      ensures Valid() && pending == old(pending)
      ensures elt == NULL <==> old(totFree) == 0 && page == NULL
      ensures elt == NULL ==> Model() == old(Model()) && owners == old(owners)
      ensures elt != NULL ==> !HasOwner(old(owners), elt) && owners == old(owners) + {Owner(elt, who)}
    {
      if totFree == 0 {
        if page == NULL { return NULL; }
        elt := Grow(page, who);
      } else {
        TotalNotNegative();
        elt := Take(who);
      }
      OwnerNotNull(size, Model(), owners, Owner(elt, who));
    }

    /** A full list gets a new page and a chunk of it. */
    method Grow(page: nat, ghost who: nat) returns (elt: int)
      requires Valid() && totFree == 0 && page > 0 && forall h :: h in Live(Model()) ==> PagesApart(page + ROOM, h)
      modifies this
      ensures Valid() && pending == old(pending)
      ensures !HasOwner(old(owners), elt) && owners == old(owners) + {Owner(elt, who)}
    {
      ghost var p := Model();
      var f := CarvePage(page);
      GrownOwners(size, p, owners, f, cell, who);
      var linked;
      elt, linked := Rejoin(f);
      owners := owners + {Owner(elt, who)};
    }

    lemma TotalNotNegative()
      requires Sound()
      ensures totFree >= 0
    {
    }

    // ---- Giving a chunk back ----

    /** mvfs_slab_freechunk: the word before the storage leads to the slab of the chunk. */
    method FreeChunk(elt: int, ghost who: nat) returns (gone: bool)
      requires Valid() && Owner(elt, who) in owners
      modifies this
      ensures Valid() && owners == old(owners) - {Owner(elt, who)} && !HasOwner(owners, elt)
      ensures var c := ChunkOf(size, old(Model()), elt);
              Model() == Freed(size, old(Model()), c.0, c.1) && (gone <==> Goes(old(Model()), c.0))
      ensures !gone ==> slabs[0] in foot && foot[slabs[0]].freecount > 0
    {
      ghost var p, os := Model(), owners;
      ghost var c := ChunkOf(size, p, elt);
      FreedOwners(size, p, os, c.0, c.1, who);
      owners := os - {Owner(elt, who)};
      gone := Return(elt - WORD, c.0, c.1);
    }

    method Return(tp: int, ghost f: nat, ghost i: nat) returns (gone: bool)
      requires Sound() && Owned(size, Model(), f, i) && tp == ChunkAt(size, f, i)
      modifies this`cell, this`slabs, this`foot, this`totElt, this`totFree, this`fr
      ensures Model() == Freed(size, old(Model()), f, i) && (gone <==> Goes(old(Model()), f))
      ensures !gone ==> |slabs| > 0 && slabs[0] in foot && foot[slabs[0]].freecount > 0
    {
      assert f in Live(Model()) && SlabAt(size, Model(), f);
      var slp := cell[tp];
      var k := IndexOf(slabs, slp);
      gone := foot[slp].freecount + 1 == foot[slp].eltcount && totFree + 1 > foot[slp].freecount + 1;
      if gone {
        GiveBack(k, tp, i);
      } else {
        PutBack(k, tp, i);
        assert slabs[0] in slabs;
        if slabs[0] != slp && foot[slabs[0]].freecount == 0 { Promote(k); }
      }
    }

    /** The slab is wholly free and not the only one with free chunks: off the list, and its page is freed. */
    method GiveBack(k: nat, tp: int, ghost i: nat)
      requires Sound() && k < |slabs| && Owned(size, Model(), slabs[k], i) && tp == ChunkAt(size, slabs[k], i)
      requires slabs[k] in foot && Goes(Model(), slabs[k])
      modifies this`cell, this`slabs, this`foot, this`totElt, this`totFree, this`fr
      ensures Model() == Gone(size, old(Model()), k, i)
    {
      var f := slabs[k];
      ghost var p := Model();
      cell := cell[tp + WORD := foot[f].free];
      totElt, totFree := totElt - foot[f].eltcount, totFree + 1 - (foot[f].freecount + 1);
      slabs, foot := Without(slabs, k), foot - {f};
      fr := fr - {f};
      assert pending - {f} == pending;
      assert Model() == Gone(size, p, k, i);
    }

    /** The slab stays: one more chunk on its free list. */
    method PutBack(k: nat, tp: int, ghost i: nat)
      requires Sound() && k < |slabs| && Owned(size, Model(), slabs[k], i) && tp == ChunkAt(size, slabs[k], i)
      requires slabs[k] in foot && !Goes(Model(), slabs[k])
      modifies this`cell, this`foot, this`totFree, this`fr
      ensures Model() == Pushed(size, old(Model()), k, i)
    {
      var f := slabs[k];
      ghost var p := Model();
      var next := foot[f].free;
      ChunkNotNull(size, p, f, i);
      cell, foot := cell[tp + WORD := next], foot[f := Raised(foot[f], tp)];
      totFree := totFree + 1;
      fr := fr[f := [i] + fr[f]];
      assert Model() == Pushed(size, p, k, i);
    }

    /** The owner of a chunk may write anywhere in its storage; the word holding byte off takes value v. */
    method Write(elt: int, off: nat, v: int, ghost who: nat)
      requires Valid() && Owner(elt, who) in owners && off < payload
      modifies this`cell
      ensures Valid() && cell == old(cell)[elt + off - off % WORD := v]
      ensures forall o :: o in owners && o.elt != elt ==> SameStorage(payload, old(cell), cell, o.elt)
    {
      ghost var p := Model();
      WrittenInv(size, p, owners, elt, elt + off - off % WORD, v);
      WrittenKeeps(payload, p, owners, elt, elt + off - off % WORD, v);
      cell := cell[elt + off - off % WORD := v];
    }
  }
}
