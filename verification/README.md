# MVFS: a verified model of five kernel components

MVFS is the multi-version file system of ClearCase: a kernel module that shows the files of
versioned object bases (VOBs) through a view. This project models, in Dafny, the parts of it whose
correctness is a matter of whole runs, and proves what they guarantee.

* **Directory name cache** (`mvfs_dncops.c`). `Rings` are the intrusive lists, `NameHash`,
  `HashSize` and `BuildHandles` the pieces that only compute, `DncTable` the table as a value.
  `DncRun` is the protocol: threads add, remove, look up, flush and invalidate in any
  interleaving, one step per lock-protected stretch. `DncRunProofs` shows what every step keeps,
  `DncTheorems` what every run guarantees, `DncRoots` what becomes of VOB roots, which are added
  without a lock, `DncHandles` how an entry's build handles follow from its history in the run, and
  `DncLimits` gives a run that shows where the guarantees stop.
  `NameCache` is the cache with its arrays and linked lists, proved against the table; the whole
  operations are shown to be runs of the protocol without interference.
* **Client directory operations** (`mvfs_clnt.c`, `mvfs_vnodeops.c`). `Client` puts lookup,
  create, link, rename, mkdir, rmdir, symlink and remove on top of the cache protocol, against a
  server whose directories other clients change too and whose replies get lost. `ClientCache`,
  `ClientProofs` and `ClientAgreement` are the invariants, `ClientTheorems` what callers get,
  `ClientUpward` what becomes of ".." when a rename moves the directory itself, `ClientLimits` gives
  runs that show where it stops.
* **Slab allocator** (`mvfs_kmem.c`). `SlabMemory` is the layout of a page down to the words that
  hold pointers, `SlabList` the list as a value, `SlabSteps` what each locked stretch does to it and
  to the owners of chunks, `SlabAllocator` the list with its operations, `SlabRuns` every
  interleaving of its callers.
* **Audit stream** (`mvfs_auditops.c`, `mfs_audit.h`). `AuditStream` is the byte format, written
  and read in both directions; `AuditRecord` the fields of a record, and when a new one would say
  nothing new; `AuditFile` the buffer, its flushes and its retries.
* **EACL cache** (`mvfs_acl.c`, `mvfs_clnt.c`). `EaclFetch` is the cursor-based fetch,
  `EaclState` the reference-counted table as a value, `EaclTable` the table and the access check.
  `EaclRuns` lets threads lock mnodes, copy attributes, fetch call by call, replace handles and check
  access in any interleaving; `EaclRunProofs` shows what every step keeps, `EaclTheorems` what every
  run guarantees, `EaclLimits` gives runs that show where it stops.
* **Cleartext binding and credentials** (`mvfs_clearops.c`). `Cleartext` is the binding of an
  mnode to its cleartext vnode, `Credentials` the lists of validated credentials and the
  system-wide table they are shared through.

`dafny verify dfyconfig.toml` checks the whole project.

## What turned out false, and exactly when

* Re-adding a cached "not found" overwrites its flags in place without telling the counter of
  "other" not-found entries, so that an invalidation of these may be skipped wrongly. A run agrees
  with the plain map throughout if and only if no invalidation in it meets a zero counter while a
  live entry of that kind is there (`SkipBreaks` for one step, `AgreesIffNoSkip` for runs). A caller
  can rule that out: if nobody re-adds a name known to be absent as one that is merely not found, the
  counter is never too low and what is served is what was last added (`ZeroCounterMeansNone`,
  `ServedWithoutClears`). `StaleNotFoundIsServed` is a run in which agreement is lost.
* VOB roots are entered without a lock, although a comment asks for one on every add. All results
  about other keys hold over runs with such adds. The key of a VOB root stays unique throughout a run
  if and only if no two adds of it overlap in it (`UniqueIffNoOverlap`); `RootTwice` is a run that
  leaves two entries of one root and serves the older.
* An access check validates its entry under the chain's lock and looks at the list after giving the
  lock back, although a comment says that the lock is needed to use the entry. A check that grants
  has used the whole of a list that the server had if and only if no other thread was in the middle
  of fetching the entry again just then (`ReadsWhole`); that takes another mnode of the same rolemap
  (`BusyMeansShared`), and does not happen with the chain's lock in hand (`LockedReadsWhole`).
  `PartIsRead` is a run in which a check meets the first entry of a list of two. Likewise a check
  that has seen a whole list walks it, unchanged and not freed, if and only if no thread starts to
  fetch the entry again before it is done (`UsesLiveList`), which again takes another mnode of the
  same rolemap (`RefetchMeansShared`); `FreedIsUsed` is a run in which the list is freed under it.
* A rename locks the two directories it names, drops their names and refreshes their attributes. It
  does not touch a directory that it moves to another parent. Afterwards the cache is wrong about
  ".." of that directory if and only if it has, or is about to have, another parent for it
  (`MoveWrongs`): if it was right before, if and only if ".." is cached at all (`MoveWrongsCached`).
  A lookup of ".." that is open meanwhile enters the old parent if and only if its test is passed,
  that is, the directory's attributes are valid with the time saved before (`MoveInWindow`), which a
  rename does not see to. `StaleParent` is a run without other clients and without lost replies in
  which ".." is cached wrongly.
* A create or mkdir that the server carries out but for which no vnode can be made leaves the
  cache wrong about the name if and only if it held another translation of it and the change was
  expected (`FailedMakeIsStale`); `StaleAfterFailedMake` is such a run. Symlinks drop the name first and are not affected.

## Assumptions

The cache's enable flags do not change during a run; a found vnode has a type and a fid; a VOB
directory has a view; the view of a translation's object is a function of the key; no build session
is 0xffffffff; slab elements fit in a page and pages come from an allocator that does not hand out
overlapping ones; a 64-bit kernel (8-byte pointers and alignment, 40-byte slab footer); an audit
buffer is shorter than 65536 bytes (4096 or 8192 by default), so record sizes fit in 16 bits; names
in audit records have room for 4096 bytes, as on Linux; each
change of a directory has a modification time not used before for it; moving a directory to another
parent changes in its own listing the way up only; a time identifies one
version of an EACL and is not zero, the value that marks an entry as outdated; the limit of EACL
blocks is positive; the server says that a directory change was expected only if the directory was
as the client's cached time has it. I/O, clocks, memory allocation and servers are parameters with
any outcome.

## Model

| member | source | states |
|---|---|---|
| Rings.Lists.InsertAfter | mvfs_dncops.c:323-358 | linking an element keeps every ring of every list well linked in both directions and puts it at that position of that list |
| Rings.Lists.Remove | mvfs_dncops.c:323-358 | unlinking takes the element off its list, clears its links and leaves all other lists as they were |
| NameHash.HashName | mvfs_dncops.c:944-966 | the loop computes the left fold of the 64-bit mixing step and the length |
| NameHash.CaseCompare | mvfs_utils.c:423-448 | the comparison succeeds exactly for names of equal length that agree up to ASCII case, position by position, with the rule about bytes after non-ASCII ones |
| NameHash.SameFoldSameHash | mvfs_dncops.c:944-966 | names equal up to case have equal length and equal hash |
| NameHash.SynonymsShareChain | mvfs_dncops.c:297-300 | hence case-insensitive synonyms in one directory are on one hash chain |
| HashSize.CapsArePrime | mvfs_dncops.c:294-296 | both caps are prime, on which termination of the search rests |
| HashSize.FindHashSize | mvfs_dncops.c:415-439 | for every input the result is a prime within the caps, and strictly between them the least prime not below a tenth of the entries |
| BuildHandles.AcceptsExactly | mvfs_dncops.c:2825-2894 | a lookup is accepted by the ring exactly when the plain history of recorded handles says so: a recent session, a valid null handle, or the null-handle shortcut |
| BuildHandles.StepHolds | mvfs_dncops.c:2776-2818 | every event on an entry keeps the ring equal to the last three handles recorded, with distinct sessions |
| BuildHandles.RingIsRecentHistory | mvfs_dncops.c:1152-1190 | after any events since the last reset the ring holds exactly the last three or fewer non-null handles |
| BuildHandles.LookupAcceptedOnlyByHistory | mvfs_dncops.c:1811-1833 | over any list of events since a fill, acceptance is acceptance by the history |
| DncHandles.RingInRun | mvfs_dncops.c:1152-1190 | in every run the ring of an entry, from its fill for as long as it stays on its chain, is the one that the events of the steps in between give |
| DncHandles.AcceptedByHistory | mvfs_dncops.c:1811-1833 | in every run a lookup of an entry is accepted exactly if the history of handles recorded since its fill says so |
| DncRun.ChainAnswersForTable | mvfs_dncops.c:2663-2770 | an entry matches a key exactly if the key is its own, and is then on the key's chain |
| DncRun.FindNoneIsAbsent | mvfs_dncops.c:2663-2770 | a search of one chain that finds nothing means no entry of the whole table has the key |
| DncRunProofs.StepInv | mvfs_dncops.c:1067-2652 | every step of the protocol keeps the invariant: slots placed, entries on their own chain, LRU order, private slots held by one thread, the counter exact up to the drift; and, for any set of keys whose adds do not overlap, unique keys and agreement with the plain map. Locks ensure that for all keys but VOB roots, so with that set of keys no step is excluded, unlocked adds of VOB roots included |
| DncTheorems.FreshInv | mvfs_dncops.c:447-522 | the initial table satisfies the table invariant for any partition sizes |
| DncTheorems.RunInv | mvfs_dncops.c:1067-2652 | so does every state of every run, whatever the interleaving, with VOB roots added without a lock |
| DncTheorems.AddLeavesEntry | mvfs_dnc.h:198-210 | an add, left alone, of a new name, of one whose translation has changed or of one that is there, valid or not, ends with a valid entry of that translation that a lookup by the same caller is served, unless no slot is left |
| DncTheorems.ServedIsLastAdded | mvfs_dncops.c:1791-1857 | in every run in which no invalidation was wrongly skipped, what a case-sensitive lookup is served is the fid, event time and flag last added for that key, with no later removal, invalidation or flush, and no other slot could have answered; for all keys but VOB roots of which two adds overlapped |
| DncTheorems.ServedWithoutClears | mvfs_dncops.c:1160-1190 | the same for every run in which no re-add turns a name known to be absent into one that is merely not found |
| DncTheorems.EverySlotPlaced | mvfs_dncops.c:323-381 | in every reachable state a slot is on its own partition's list exactly once, or in transition, on no list and no chain, and held by exactly one thread |
| DncTheorems.EvictionIsLru | mvfs_dncops.c:1220-1242 | an add evicts a live translation only if every other slot of the partition is in use, and then the one least recently filled or hit |
| DncTheorems.SynonymsOnOneChain | mvfs_dncops.c:2619-2652 | a case-insensitive synonym anywhere in the table is on the chain the walk visits |
| DncTheorems.NoSynonymSurvives | mvfs_dncops.c:1331-1340 | after every remove, and after the synonym step of every add that takes a slot, no valid synonym is left anywhere |
| DncTheorems.RootScanIsFullScan | mvfs_dncops.c:1987-2033 | scanning the directory partition for VOB roots equals scanning the whole table |
| DncTheorems.NotFoundScanIsFullScan | mvfs_dncops.c:2508-2565 | scanning from the start of the not-found partition equals scanning the whole table for not-found entries |
| DncTheorems.SkipBreaks | mvfs_dncops.c:2524-2558 | from a state that agrees with the plain map, invalidating the not-found entries keeps agreement if and only if the counter is not zero or no live entry of that kind is there |
| DncTheorems.AgreesIffNoSkip | mvfs_dncops.c:2508-2565 | a run agrees with the plain map at every point if and only if no invalidation in it is wrongly skipped |
| DncTheorems.ZeroCounterMeansNone | mvfs_dncops.c:2524-2558 | in every run without such re-adds the counter is at least the number of such entries, so a zero counter means there is none and no skip is wrong |
| DncLimits.FlippedEntrySurvives | mvfs_dncops.c:1160-1190 | after such a re-add with a zero counter the invalidation is skipped and the entry is still there, valid, although its binding is gone |
| DncLimits.StaleNotFoundIsServed | mvfs_dncops.c:2508-2565 | a concrete reachable state in which a lookup is served a stale not-found entry |
| DncRoots.UniqueNext | mvfs_dncops.c:1952-1985 | as long as a key has been unique, the next step keeps it so if and only if it does not insert the key in a thread that searched before another thread's insertion of it that is still there |
| DncRoots.UniqueIffNoOverlap | mvfs_vnodeops.c:6677-6691 | a VOB root's key is unique throughout a run if and only if no two adds of it overlap in the run |
| DncRoots.OneByOneUnique | mvfs_dncops.c:1952-1985 | in particular it is unique if each add of it begins when no other is past its search |
| DncRoots.RootTwice | mvfs_dncops.c:1952-1985 | a reachable state with two valid entries of one VOB root, in which a lookup may be served the one that was not added last |
| NameCache.Cache.constructor | mvfs_dncops.c:447-522 | initialisation sizes the table with a prime and leaves every slot on its partition's list, in the order the pushes give |
| NameCache.Cache.Walk | mvfs_dncops.c:2663-2770 | walking one chain finds an entry that matches or shows that none on the chain does |
| NameCache.Cache.Search | mvfs_dncops.c:2663-2770 | the result is the only slot of the table that answers to the key, or none does |
| NameCache.Cache.AddEntry | mvfs_dncops.c:1067-1438 | in-place update, superseding and insertion end in the table that the value-level add gives, with chains and lists intact |
| NameCache.Cache.RemoveEntry | mvfs_dncops.c:2084-2217 | a remove ends in the value-level table: entry gone, slot first on its list, synonyms and a VOB root alias invalidated; the result says whether it was there |
| NameCache.Cache.Lookup | mvfs_dncops.c:1791-1857 | a slot is returned, and moved to the back of its list, only if it may be served; none is returned only if none may |
| NameCache.Cache.InvalidateSynonyms | mvfs_dncops.c:2619-2652 | walking one chain marks exactly the synonyms among all entries in the table, and nothing else |
| NameCache.Cache.InvalidateNotFound | mvfs_dncops.c:2508-2565 | with a right counter, skipping or scanning the last partition equals a scan of everything |
| NameCache.Cache.FlushRoots | mvfs_dncops.c:1987-2033 | the partial scan has the effect of the full scan |
| NameCache.Cache.Flush | mvfs_dncops.c:2226-2315 | afterwards exactly the used entries of the VOB, or all of them, are free, and every other slot is untouched |
| NameCache.AddWholeIsRun | mvfs_dncops.c:1067-1438 | the whole add is the protocol's add run to its end without interference |
| NameCache.RemoveWholeIsRun | mvfs_dncops.c:2084-2217 | the whole remove is the protocol's remove run to its end |
| ClientCache.ContinueEffect | mvfs_dncops.c:1067-1438 | a later stretch of an operation can enter into the reference map only what its thread set out to add |
| ClientProofs.GrantOk | mvfs_clnt.c:1022-1036 | a change the server calls expected followed directly on the version whose attributes are cached, and altered only the names of the call |
| ClientProofs.WindowFresh | mvfs_clnt.c:857-906 | if the time saved before unlocking is still the cached one, the answer for ".." is of a version no older than the cached attributes |
| ClientProofs.ActInv | mvfs_clnt.c:622-1429 | every step of every operation keeps bounded staleness |
| ClientAgreement.RecheckTrue | mvfs_clnt.c:857-906 | with the directory locked again and the test passed, the answer for ".." still holds now, unless someone else changed the name |
| ClientAgreement.ActAgree | mvfs_clnt.c:622-1429 | every step of every operation, renames that move a directory included, keeps agreement with the server on names not changed behind the cache's back |
| ClientTheorems.AnswersAreRecent | mvfs_vnodeops.c:2612-2760 | in every run, with other clients and lost replies, a name the cache answers is right in a version of the directory no older than the one whose attributes are cached; it is right now if the cached time is the directory's |
| ClientTheorems.AnswersAgree | mvfs_clnt.c:35-44 | in every run, a name with no call in flight on it that was not changed behind the cache's back, or was entered afresh since, is answered as the directory has it now |
| ClientTheorems.OnlyTheseTaint | mvfs_clnt.c:1187-1225 | nothing can leave the cache wrong about a name but: another client's change of that name, a lost reply of a call that touches it, a rename that moves the directory to another parent for its "..", and a create or mkdir of a cached name without a vnode |
| ClientTheorems.UndisturbedAnswers | mvfs_clnt.c:622-1429 | every entry that a lookup is served for a name to which none of these has happened names the current object, or an absent name if it is a not-found entry, at every moment no call is in flight on it |
| ClientUpward.ActTracked | mvfs_clnt.c:857-906 | every step, whatever it does to the directory's listing and attributes, keeps the answer of an open ".." lookup right, or its test failing, or the directory locked by a call that will make it fail, unless the step changes ".." unseen |
| ClientUpward.UpwardEntersTruth | mvfs_clnt.c:857-906 | in every run ".." is entered after its directory was unlocked only with its current object, unless since the reply ".." was changed by another client, by a call whose reply was lost or by a rename of the directory itself |
| ClientUpward.MoveWrongs | mvfs_clnt.c:1187-1225 | a rename that moves a directory leaves the cache wrong about its ".." if and only if another parent than the new one is cached or being added |
| ClientUpward.MoveWrongsCached | mvfs_clnt.c:1187-1225 | from a cache that is right about "..", if and only if ".." is cached or being added at all; the moved directory's attributes and names are untouched |
| ClientUpward.MoveLeavesOthers | mvfs_clnt.c:1187-1225 | for every other name that the rename does not touch, the cache is wrong afterwards exactly if it was before |
| ClientUpward.RecheckWrongs | mvfs_clnt.c:890-905 | after the re-check the cache is wrong about ".." exactly if the test is passed with an answer that is not true, or fails with the cache wrong before |
| ClientUpward.MoveInWindow | mvfs_clnt.c:857-906 | if a rename moves the directory to another parent than the answer of an open lookup, the cache is wrong about ".." after the re-check if and only if the test is passed or it was wrong before |
| ClientTheorems.LocksHeld | mvfs_clnt.c:35-44 | whenever an operation is due to use the name cache it holds the lock the cache insists on |
| ClientTheorems.FailedMakeIsStale | mvfs_clnt.c:1022-1054 | a create without a vnode leaves a wrong name if and only if another translation was cached and the change was expected; the cached time does not betray it |
| ClientLimits.StaleAfterFailedMake | mvfs_clnt.c:1022-1054 | a concrete run, a lookup and then a create whose vnode cannot be made, after which the cache says "not found" for an existing name |
| ClientLimits.StaleParent | mvfs_clnt.c:857-906 | a concrete run, a ".." lookup and a rename of its directory in between, after which the old parent is cached for ".." |
| SlabMemory.PayloadsDisjoint | mvfs_kmem.c:947-979 | storage of a chunk shares no byte with other storage, with any back pointer or with any footer |
| SlabMemory.ChunkUnique | mvfs_kmem.c:947-979 | an address is the start of at most one chunk of at most one page |
| SlabMemory.OwnedWrite | mvfs_kmem.c:792-814 | writing storage that is not free leaves its slab well formed |
| SlabMemory.PopOk | mvfs_kmem.c:742-775 | taking the first free chunk leaves the slab well formed with the rest of its list, and the chunk points back to its footer |
| SlabMemory.PushOk | mvfs_kmem.c:792-818 | returning a chunk that is not free leaves the slab well formed with the chunk in front |
| SlabList.Carve | mvfs_kmem.c:934-981 | carving gives every chunk a back pointer and threads all of them in address order, touching only its own page |
| SlabList.RewrittenInv | mvfs_kmem.c:742-775 | rewriting one slab within its page keeps all slabs, the totals and the limit of one wholly free slab |
| SlabList.AttachedInv | mvfs_kmem.c:716-741 | linking a new slab when fewer chunks are free than it has keeps the invariant: no other slab is wholly free |
| SlabList.GoneInv | mvfs_kmem.c:820-841 | taking a slab off the list and freeing its page keeps the invariant and leaves the list non-empty |
| SlabSteps.StorageApart | mvfs_kmem.c:947-979 | in every reachable list all storage is disjoint from all other storage, back pointers and footers |
| SlabSteps.HandedOwns | mvfs_kmem.c:742-775 | handing out the head of a free list makes exactly one chunk more owned, one that was free |
| SlabSteps.ReturnedFrees | mvfs_kmem.c:781-857 | returning a chunk makes exactly that one free, and a page is freed only when none of its chunks is owned |
| SlabSteps.TakenOwners | mvfs_kmem.c:742-775 | the address that a caller gets had no owner; with it the owned addresses are again exactly those of the chunks on no free list, one owner each, as many as the totals say |
| SlabSteps.ResumedOwners | mvfs_kmem.c:712-777 | so it is for a caller that comes back with a page of its own, whatever happened meanwhile and whether the page is linked or given back |
| SlabSteps.FreedOwners | mvfs_kmem.c:781-857 | so it is without the owner of a chunk that comes back, also when its page goes |
| SlabRuns.StepGood | mvfs_kmem.c:680-857 | every step of every caller, in both unlocked gaps of mvfs_slab_getchunk too, keeps the list, its owners and the private pages in order |
| SlabRuns.OneOwner | mvfs_kmem.c:680-857 | at every point of every run an address has at most one owner, storage of different owners is disjoint, and the owned and the free chunks add up to the total |
| SlabRuns.ReturnsUnowned | mvfs_kmem.c:680-779 | in every run what a call returns is not null, had no owner and is its caller's from then on |
| SlabRuns.ContentsKept | mvfs_kmem.c:680-857 | over any stretch of any run, storage that is owned throughout and not written by its owner keeps its contents, whatever other callers take, carve, free and write |
| SlabAllocator.List.constructor | mvfs_kmem.c:863-902 | a new list has one slab, all free, totals that are its sums, and no owners |
| SlabAllocator.List.Search | mvfs_kmem.c:742-750 | if the total is positive one pass finds the first slab with a free chunk |
| SlabAllocator.List.Take | mvfs_kmem.c:742-775 | the first free chunk of the first slab that has one goes to the caller, whose address had no owner, and that slab is at the head if it has more |
| SlabAllocator.List.Resume | mvfs_kmem.c:697-777 | after the unlocked window, whatever happened in it, the new slab is linked exactly if the list has fewer free chunks than it, else given back, and an address without owner is found |
| SlabAllocator.List.GetChunk | mvfs_kmem.c:680-779 | an address without owner becomes the caller's and nothing else changes owner; null exactly if nothing is free and no page is to be had, with nothing changed |
| SlabAllocator.List.FreeChunk | mvfs_kmem.c:781-857 | given only an address that the caller owns, the back pointer recovers the slab; the address has no owner any more and its chunk is free; the slab goes exactly if it is wholly free and another slab has a free chunk, else the head has one |
| SlabAllocator.List.Write | mvfs_kmem.c:130-149 | an owner's write anywhere in its storage keeps the list valid and changes no word of any other owner's storage |
| AuditStream.HeaderFields | mfs_audit.h:100-112 | the four header fields and the data read back as written |
| AuditStream.ForwardIsRecords | mfs_audit.h:194-195 | following nextoff through the stream gives exactly the records in order |
| AuditStream.BackwardIsReverse | mfs_audit.h:194-194 | following prevoff from the last record gives exactly the reverse, across any flush |
| AuditRecord.SameMeans | mvfs_auditops.c:780-905 | the comparison of a record's octets finds it equal exactly if a new one would say nothing new: same name, type, time, directory and object for directory operations; same type and object, and for a read the same time; for a view the same view and a tag that the old one begins with |
| AuditRecord.RedundantBytes | mvfs_auditops.c:780-835 | a directory record about objects of a VOB that is left out as redundant would have been the one found, but for the octets of view, element and meta-type |
| AuditFile.SearchBack | mvfs_auditops.c:911-964 | following prevoff back from the last record, at most the given number of times and not below the buffer, finds whether a record of the same kind there compares equal, for kinds that are compared |
| AuditFile.Buffer.OneStream | mvfs_auditops.c:1510-1516 | until the first write error the file and the buffer are one stream, readable both ways |
| AuditFile.Buffer.IsDuplicate | mvfs_auditops.c:911-964 | a new record is a duplicate exactly if one of the last buffered ones of its kind was written for a subject about which it would say nothing new |
| AuditFile.Buffer.Audit | mvfs_auditops.c:1177-1517 | the record is appended exactly if it is no duplicate, of a known kind, fits and there was no error; a flush is asked for exactly if the buffer is full and not empty; a record too large for an empty buffer is an error |
| AuditFile.Buffer.WriteAll | mvfs_auditops.c:1643-1678 | the write loop ends, without error only when every byte is written, and whatever happens the file has grown by a prefix of the buffer |
| AuditFile.Buffer.Flush | mvfs_auditops.c:1549-1708 | the buffer is empty afterwards, the size of the last record survives, and without error the file is the encoding of all records accepted so far |
| AuditFile.Buffer.AuditRetrying | mvfs_base.h:1444-1453 | one flush is enough; then the record has been appended unless it is a duplicate, of unknown kind, or there is an error |
| EaclFetch.CallExtends | mvfs_clnt.c:2262-2341 | one call extends a partial list of a version by more of that same version, completes it, or loses it |
| EaclFetch.NextOk | mvfs_acl.c:1094-1134 | every round of the loop, with its one restart, keeps what is accumulated a proper part of one version, or ends with all of one or with nothing |
| EaclFetch.Fetch | mvfs_acl.c:1060-1178 | for any block limit the handle is null or the complete list of one version the server had; at most one restart and twice the limit of calls; an undisturbed list within the limit is fetched; the calls are those of the round by round scan |
| EaclState.InsertInv | mvfs_acl.c:990-1012 | adding an entry of a new key with one hold keeps counts, chains and unique keys |
| EaclState.DropInv | mvfs_acl.c:898-945 | releasing a hold keeps them too, also when it is the last and the entry goes |
| EaclState.LastHold | mvfs_acl.c:919-939 | when the count reaches zero no mnode points at the entry |
| EaclTable.Table.Find | mvfs_acl.c:954-984 | a chain walk finds the entry of a key, or no entry of the table has it |
| EaclTable.Table.Validate | mvfs_acl.c:1190-1230 | the list is fetched again exactly if the object's time is newer, or some time after a failure; else nothing changes |
| EaclTable.Table.Get | mvfs_acl.c:803-893 | the result is the entry of the key with one hold more, null only if there is neither an entry nor storage |
| EaclTable.Table.ReleaseHandle | mvfs_acl.c:691-701 | the handle is gone, the entry exactly if that was its last hold, and nothing else has changed |
| EaclTable.Table.CacheAcl | mvfs_acl.c:624-681 | from a mnode whose rolemap was changed under its old handle to one with a handle for its new key, or with none without a rolemap; other mnodes keep theirs and no hold is left over |
| EaclTable.Table.InvalOid | mvfs_acl.c:706-744 | walking all chains outdates every entry of that rolemap or policy and no other |
| EaclTable.GrantsIffBits | mvfs_acl.c:211-298 | for lists that grant exactly the subsets of some permissions, the check grants a request if and only if each of its bits is among the mode bits that these permissions show, so the mapping of requests inverts the one from permissions to mode bits |
| EaclTable.GrantedMeans | mvfs_acl.c:266-298 | whoever is granted a request has a list; never writes a file of a VOB; executes one only with an x bit of owner or group; and is granted every smaller request |
| EaclTable.Table.CheckAccess | mvfs_acl.c:170-322 | without other threads, mode bits decide exactly for objects without a rolemap; otherwise a non-root caller is granted access exactly if the whole of a list that the server had for this object's key grants it |
| EaclRunProofs.SoundStep | mvfs_acl.c:624-1038 | a step that works on one mnode and one chain, has both to itself and is right about its own thread disturbs no other thread, no count and no list |
| EaclRunProofs.StepInv | mvfs_acl.c:624-1230 | every step of every thread, with rolemaps changed under old handles and fetches interrupted between calls, keeps counts, chains, keys, locks, holds and lists in order |
| EaclTheorems.RunInv | mvfs_acl.c:624-1230 | so does every interleaving from an empty table |
| EaclTheorems.Conserved | mvfs_acl.c:635-1038 | in every reachable state an entry's count is the mnodes pointing at it plus the threads that carry a hold, it is in the table exactly while that is positive, on the chain its key selects, and the chain's count is its length |
| EaclTheorems.WholeIffNotBusy | mvfs_acl.c:1060-1178 | a list in an entry is the whole of a list that the server had if and only if no thread is in the middle of fetching the entry again |
| EaclTheorems.HandlesComplete | mvfs_vnodeops.c:2590-2600 | at every point of every run an mnode that no thread has locked has no handle or one for its own rolemap, with nothing or the whole of a list the server had for it unless a thread is fetching that entry again |
| EaclTheorems.ReadsWhole | mvfs_acl.c:223-316 | at every look of an access check in every run, the entry is of the mnode's own rolemap, and a check that grants used the whole of a list the server had if and only if no other thread was fetching it again just then |
| EaclTheorems.BusyMeansShared | mvfs_acl.c:223-316 | that takes another mnode of the same rolemap |
| EaclTheorems.LockedReadsWhole | mvfs_acl.c:762-790 | with the chain's lock in hand a look never meets part of a list |
| EaclTheorems.UsesLiveList | mvfs_acl.c:239-300 | in every run a check that has seen a whole list uses that list, unchanged and not freed, if and only if no thread starts to fetch the entry again between the look at the handle and the use |
| EaclTheorems.RefetchMeansShared | mvfs_acl.c:239-300 | that takes another mnode of the same rolemap |
| EaclLimits.PartIsRead | mvfs_acl.c:239-258 | a concrete run in which a check looks at the first entry of a list of two |
| EaclLimits.PartIsNotWhole | mvfs_acl.c:239-258 | what it looks at is not the whole of any list the server had |
| EaclLimits.FreedIsUsed | mvfs_acl.c:239-300 | a concrete run in which a list that was whole when it was looked at is freed before it is used |
| Cleartext.WhoReached | mvfs_clearops.c:776-806 | who is recorded as having reached the bound file did look it up or make it by name, with the binding lasting ever since |
| Cleartext.Mnode.MarkNamePurge | mvfs_clearops.c:372-388 | a name marked for purging takes a bound vnode with it |
| Cleartext.Mnode.MarkRwerr | mvfs_clearops.c:390-414 | a read or write error marks the name, and a bound vnode with it |
| Cleartext.Mnode.NewCleartext | mvfs_clearops.c:731-773 | the old hold goes, a new vnode gets its own, and the credential list is emptied |
| Cleartext.Mnode.ClearRele | mvfs_clearops.c:419-485 | vnode, name and credentials go as the marks say, an open vnode is closed first, holds stay conserved, and the marks are cleared |
| Cleartext.Mnode.Compare | mvfs_clearops.c:985-1037 | a permission lookup that finds another file replaces the binding and empties the list, or fails if the mnode is open; the lookup's hold is released |
| Cleartext.Mnode.FetchAndBind | mvfs_clearops.c:1077-1195 | after a miss the retried lookup binds the file the caller reached, or leaves nothing behind |
| Cleartext.Mnode.GetCleartext | mvfs_clearops.c:815-1228 | a vnode goes only to a caller whose identity has reached the file by name since it was bound; after a change of binding no other identity is on the list; the caller's hold is the only new one |
| Cleartext.Mnode.ClearCreate | mvfs_clearops.c:1264-1380 | a created file is bound with its creator as the only identity, and holds are conserved on every path |
| Credentials.SharedOnce | mvfs_clearops.c:1593-1677 | equal credentials are in the system table at most once |
| Credentials.System.Intern | mvfs_clearops.c:1626-1664 | the node in hand gets a hold on the credential or on the equal one already shared, and the table a second one only if it is new |
| Credentials.System.Record | mvfs_clearops.c:1593-1677 | a credential equal to the caller's is put on the mnode's list, or nothing changes when either allocation fails; holds are conserved on every path |
| Credentials.System.ReleaseList | mvfs_clearops.c:1531-1569 | every node of the list gives up exactly its hold |
| Credentials.System.Flush | mvfs_clearops.c:1709-1735 | the system table is emptied and the holds left are those of the mnode lists |

## Left out

- Changing the name cache's size while it runs, and the pending-resize handover of entries in transit.
- Lookups in the name cache by a case-insensitive name beyond the invalidation of synonyms, its statistics and its dump interface.
- Lookups of a directory whose mnode was reclaimed and reloaded: the generation kept in entries is not tested; the code treats the mismatch as a miss and invalidates the directory's entries, which a run may do at any time.
- Invalidations by object, directory, view and VOB are single steps; lookups and removes that run during one of these scans see all of it or nothing.
- DncRunProofs.StepInv: taking a slot is one step. A slot seen free gets no chain lock, and the check made after the locks are taken is then skipped, so that a slot filled meanwhile, and at the head of its list again, would be taken off its chain without that chain's lock; the model does not have this.
- History-mode names: a name and its "@@" form are two independent names of a directory; only the removal of both is modelled.
- ClientTheorems.AnswersAreRecent: reclaiming a directory's mnode, attribute timeouts and the handling of stale file handles are not modelled; attributes may be fetched at any time.
- A name dropped from the cache by a failed lookup of its vnode: to the cache it is the dropping that a refused remove begins with.
- Locking order and the absence of deadlock.
- Destroying a slab list, and the tracing and debugging allocators.
- The slab list's next and previous pointers are a sequence of footers; free lists are pointers in memory.
- Bodies of audit records of the kinds that are never compared, other than directory operations, are octets.
- The translation of audit records for 32-bit readers, audit file lifetime, and other threads that fill the buffer between a flush and the retry.
- EaclTable.Decide: the check of a complete list against permissions is a parameter.
- A fetch for an mnode without a view, which fails before the call and leaves the entry's time alone.
- Mode-bit access checks, group membership, credential encoding and XDR.
- Cleartext attributes, NFSv4 shadow vnodes, and pathname translation.
- Cleartext.Mnode.ClearCreate: setting the name of an mnode at create time is modelled for unbound mnodes only.
- The Linux glue, RPC transport, ioctls, copy-in and copy-out, logging and statistics.
