# Aragonite Alexandria: a verified model of the BOOX server core

The server archives what BOOX tablets write through a sync Gateway, publishes
owner changes back to them, removes notebooks for good, and shows the reading
library as a file tree. This project models that core in Dafny and proves what
it promises. Each area has modules for what it does and modules for what follows.
`dafny verify dfyconfig.toml` checks the whole project.

| area | modules |
|---|---|
| Gateway store and publication journal | `GatewayStore`, `Publication` (the state machine), `Publisher` (the server's methods, call by call), `PublicationSafety`, `PublicationTheorems`, `PublicationTurns` (a transaction against the rest of the world), `PublicationChain`, `PublicationRecovery`, `PublicationCrashes`, `PublicationLimits` |
| Observation, purge and garbage collection | `Archive` (transactions and object-store effects), `ArchiveServer` (the server's methods), `ArchiveRecords`, `ArchiveBlobs`, `ArchiveCollection`, `ArchivePurge`, `ArchiveStages`, `ArchiveStrays`, `ArchiveProgress`, `ArchiveLimits` |
| Reading library | `Library`, `LibraryState`, `LibraryFrames`, `ShelfPlans`, `ShelfDelete`, `ShelfRise`, `BookPlans`, `PlanActions`, `BookCounts`, `BookBatch`, `PlanFences`, `QueuedChanges`, `PlanAcceptance`, `BatchAcceptance` |
| File view | `FileNames`, `SlashPaths`, `FileView`, `FileDisplay`, `FileLookups`, `FilePaths` |
| Leased jobs | `Jobs`, `JobSafety`, `JobStore` |
| ONY1 recordings | `Ony1`, `Ony1Header`, `Ony1Repair` |
| Preview cache | `PreviewCache` |
| Orders and merges | `Prefix`, `Utf8Order`, `Listing`, `Merge`, `MergeOrders`, `Resources`, `PageShapes`, `SessionTimes`, `NaturalOrder` |
| Shared | `Outcomes`, `Ordering`, `Decimal`, `Names`, `NameText` |

Code that changes state in place is a class or a method with a loop, proved
equal to a function of the old state (`Publisher.Service`,
`ArchiveServer.Server`, `LibraryState.LibrarySnapshot`, `JobStore.Store`,
`PreviewCache.Cache`, the array loops of `FileNames`, `Ony1` and `Prefix`); the
promises are then lemmas about those functions and about every run of them.

## How the two protocols are modelled

**Publication.** Rows of `boox_operation` are committed only at the end of a
locked transaction. Every Gateway call is a step of its own, so devices write
and delete, owners cancel and new operations arrive between any two calls. A
transaction may stop before any call, or after a write whose acknowledgement is
lost: its rows roll back and the Gateway keeps what it accepted. A revision is
its position in the Gateway's history, so revisions are never reused, and every
write is compare-and-swap on the revision it replaces. Checks of a record's
shape and of the records it points at are one Boolean, `accepted`, which may
come out either way at every read.

What happens around one call is a *turn*: what others do before it, whether it
fails, whether its acknowledgement is lost and what `accepted` is. The turns
decide a delivery entirely (`PublicationTurns.Drive`), and the publisher's methods
make exactly that run: they stop early only where a turn makes a call fail.

**Archive.** One library-wide lock serialises the transactions, so each is one
event: it commits, or it rolls its rows back after any number of its effects on
the object store. Effects take place before their transaction ends. The server's
methods take a *budget*, the number of external calls that still succeed: they
commit exactly when it is enough, and otherwise leave what its calls did.

Assumptions, each a `requires` of the lemmas that need it or part of the state:
a tombstone row starts pending (migrations/0035_notebook_management.sql:17); a
document keeps the notebook that owns it; digests and ids made by hashing do not
collide; a new membership id is unused and belongs to one book; library record
ids are not empty and one document has one mode; letter-case
folding works character by character and leaves digits alone; the block cipher
maps blocks to blocks.

## What does not hold

- *The chain of library changes.* docs/reading-file-operations.md:113-116 says a
  device edit in between blocks a chained change. `publishLibrary` records the
  revision it reads back after its PUT
  (internal/boox/book_management.go:889-893), so an edit between the two becomes
  the recorded revision and the next change of the chain replaces it, whether the
  edit keeps the marker (`PublicationLimits.ChainReplacesDeviceEdit`) or drops it
  and the first change ends superseded
  (`PublicationLimits.ChainReplacesUnmarkedEdit`). Over every run the revision
  replaced is the predecessor's own write if and only if no one else changed the
  record between that write and the read-back
  (`PublicationChain.ChainReplacesPredecessorIff`).
- *Recovery of a creation.* internal/boox/journal.go:145-146 says a lost
  acknowledgement is recoverable. A library creation checks what it refers to
  again before it looks for its own record, so it can end blocked with the record
  written and no message (`PublicationLimits.CreationBlockedAfterItsWrite`). Exactly
  when an operation is recovered: `PublicationRecovery.RecoversIff`.
- *The file view's paths.* A book whose name and title have no printable
  characters is listed under its raw id and file type; if one of them holds a
  slash, no path leads to the entry (`FilePaths.SlashedBookIsLost`). Exactly
  those entries are unreachable: `FilePaths.BooksAreReachedIff`.
- *The purge fence of the preview cache.* A key is taken to belong to the
  notebook named up to its second colon, so a purged notebook whose id holds a
  colon is cached again (`PreviewCache.ColonSlipsFence`); the fence holds exactly
  when neither the notebook id nor the library id holds one
  (`PreviewCache.FenceHoldsIff`).
- *A complete purge.* If a document changes its owner, a purge can be complete
  with a tombstone pending (`ArchiveLimits.OwnerChangeLeavesCompletePending`). Over
  every run this happens if and only if a live body is suppressed for another
  notebook than the one its document is remembered for, while that one's purge is
  complete (`ArchiveStrays.CompletePurgesSettleIff`).
- *Merging.* Whether a merge is refused can depend on the order of the lists,
  because an ambiguity among superseded records is noticed only before the newest
  one has been read (`Resources.OrderDecidesSuccess`). The order decides if and only
  if all records have ids, no id has two different latest records and two
  different older ones share id and time (`MergeOrders.OrderDecidesIff`); the winners
  never depend on it.
- *Zeroed archives.* The time kept is the earliest one exactly when the first
  archive that has a time has no negative one (`PageShapes.EmptyAtIsEarliestIff`);
  names that give the times -5 and 3 break it (`SessionTimes.NegativeTimeIsKept`).
- *Shelf depth.* Creating and moving check that the parent is visible, not the
  depth the shelf ends at: at the limit the shelf is accepted and then hidden
  (`ShelfPlans.CreatedShelfVisibleIff`, `ShelfPlans.MovedShelfVisibleIff`).

## Model

| member | source | states |
|---|---|---|
| PublicationTheorems.UpdatesAtMostOnce | internal/boox/journal.go:287-353 | over every run with device edits and aborts, no operation updates one of its records twice |
| PublicationTheorems.UpdateReplacesItsFence | internal/boox/book_management.go:840-888 | every change of the Gateway is one write; an operation's update replaces exactly its fence (its expected revision, or the one recorded for its predecessor), changes only the planned fields, and the operation is open and started |
| PublicationTheorems.CreatesAgainOnlyAfterDeletion | internal/boox/journal.go:425-439 | whatever an operation created it creates again only if someone deleted it in between |
| PublicationTheorems.WritesFollowStartMarker | internal/boox/journal.go:185-196 | a Gateway write by an operation implies that its start marker was committed before |
| PublicationTheorems.CancelHitsNoTrace | internal/boox/notebook_management_http.go:64 | an owner's cancel only hits an operation that left nothing at the Gateway, and it never leaves anything later |
| PublicationTheorems.CommittedStates | internal/boox/journal.go:347-407 | no committed row is ever found half published |
| PublicationTheorems.PublishedWasSeen | internal/boox/journal.go:354-421 | an operation is published only by a transaction that saw its record, its message and any commit it needs carry its marker |
| PublicationTheorems.NotebookRemoved | internal/boox/notebook_purge.go:95-97 | a notebook's removal cancels the operations on it and no others, and later drops their revisions |
| PublicationTheorems.RefusedIs | internal/boox/journal.go:178-219 | an open operation is blocked when its library was replaced, cancelled once started when its notebook is removed; no finished one is touched |
| PublicationTheorems.StartIs | internal/boox/journal.go:185-196 | the start marker of an open operation is committed alone |
| PublicationSafety.RunKeeps | internal/boox/journal.go:148-421 | the protocol invariant over every run: rows, the running transaction, fences of past writes, markers and one update per record |
| PublicationRecovery.RecoversIff | internal/boox/journal.go:145-421 | from every reachable state, an undisturbed delivery of a started operation whose record carries its marker ends published exactly when its book, commit and message can be had (and a creation's references are there); it writes the record no more and makes exactly the changes that are missing |
| PublicationRecovery.LostAnswerIsRecovered | internal/boox/journal.go:145-146 | so a lost acknowledgement is recovered wherever it was lost, unless others changed the operation's own documents |
| PublicationRecovery.PublishesIff | internal/boox/journal.go:226-421 | an undisturbed first delivery ends published exactly when the record may be written on the revision it was planned on and the rest can be had; it makes one change of the record and the missing ones. Else a library update is blocked on a missing record, waits for a predecessor that is queued with nothing on record, and is blocked on any other revision; a creation is blocked; other changes are blocked on another revision and stay on a missing record; a taken upload stays |
| PublicationRecovery.RepairIff | internal/boox/journal.go:242-284 | a queued repair first repairs its file, exactly when the record is the expected one, and writes no record; it is blocked on another revision and stays on a missing record |
| PublicationRecovery.OvertakenIff | internal/boox/book_management.go:889-904 | a record read back without the marker: its revision is recorded and the operation superseded; a missing one leaves it as it was |
| PublicationCrashes.CrashesAreHarmless | internal/boox/journal.go:145-225 | however many deliveries crash, before or after any call, while no one else acts, the next undisturbed one publishes the operation and the Gateway has the same changes as if none had crashed |
| PublicationTurns.AdvanceLeaves | internal/boox/journal.go:226-421 | every call leaves fewer calls to make, so each transaction ends |
| GatewayStore.WriteKeepsWellFormed | internal/boox/journal.go:340-346 | a compare-and-swap write keeps the store consistent: the current revision of a document is its last live change, and parents are adjacent |
| GatewayStore.WriteThenGet | internal/boox/journal.go:340-346 | after an accepted write the next read finds it (or nothing, after a deletion), and every other document is as before |
| GatewayStore.SecondIsRefused | internal/boox/journal.go:342-344 | of two writes prepared from the same revision only the first is accepted |
| PublicationLimits.ChainReplacesDeviceEdit | internal/boox/book_management.go:889-893 | a run in which the edit keeps the marker and the chained change writes over it |
| PublicationLimits.ChainReplacesUnmarkedEdit | internal/boox/book_management.go:889-903 | a run in which the edit drops the marker, the first change is superseded, and the chained change writes over the edit all the same |
| PublicationChain.ChainReplacesPredecessorIff | internal/boox/book_management.go:840-893 | over every run, a chained change replaces the revision read back for its predecessor; it is the predecessor's own write if and only if no one else had changed the record before that read-back |
| PublicationLimits.CreationBlockedAfterItsWrite | internal/boox/book_management.go:823-841 | a run in which a creation is blocked after its record was written |
| Publisher.Service.PublishOne | internal/boox/journal.go:148-225 | a delivery is exactly the run its turns allow: the start marker on its own, then every call of the transaction up to one that fails; a replaced library or removed notebook writes nothing; success is reported only for a published row |
| Publisher.Service.PublishLibrary | internal/boox/book_management.go:806-927 | the library branch ends in the very run in which the machine's transaction ends under the same turns, so it gives up only where a turn fails |
| Publisher.Service.FetchLibrary | internal/boox/book_management.go:840-870 | the read and fence check: the transaction goes on to the same end as the machine's, and is over only if that is |
| Publisher.Service.PublishRecord | internal/boox/journal.go:226-421 | the branch for notes, repairs, reader records and uploads ends in the very run in which the machine's transaction ends |
| Publisher.Service.PutRecord | internal/boox/journal.go:340-353 | the PUT on the revision that was read is made unless its turn fails, and leads to the machine's end |
| Publisher.Service.ReadBack | internal/boox/book_management.go:889-904 | the record is read back and recorded, or found superseded, as the machine does unless its turn fails |
| Publisher.Service.PutIdempotent | internal/boox/journal.go:425-439 | GET then PUT only if missing, both made unless a turn fails; another operation's document ends the transaction |
| Publisher.Service.TouchBook | internal/boox/journal.go:372-397 | the book is touched on its previewed revision or the operation is blocked, as the machine does unless a turn fails |
| ArchiveRecords.ObservedIsRecorded | internal/boox/journal.go:56-132 | a committed pass: each leaf whose document is not remembered and whose owner is not removed has its row, the content recorded first stays, no other row appears, its body is stored and no other; the projection shows the last winner or none; exactly the claimed documents are remembered, pending if a live body came |
| ArchiveRecords.FeedIsTaken | internal/boox/journal.go:56-132 | a pass takes the bodies of its feed one after the other, leaves before their winner |
| ArchiveBlobs.LiveOverRuns | internal/boox/oss.go:130-243 | over every run, what is live under a key is the body uploaded last, nothing after a deletion or the removal of its notebook's rows, and no other transaction changes it |
| ArchiveBlobs.VersionsAre | internal/boox/oss.go:150-243 | uploads and deletions add their version to the record, a deletion one without a body; older versions stay |
| ArchiveCollection.CollectionIsSafe | internal/boox/notebook_purge.go:147-186 | in every committed state, under every interleaving and abort, each digest of a blob version or archived revision is stored |
| ArchiveCollection.PlanKeepsRetained | internal/boox/oss.go:130-165 | no effect of any transaction harms a committed row, and its own rows are covered when it commits |
| ArchiveCollection.CollectionIsExact | internal/boox/notebook_purge.go:169-184 | a collection step deletes exactly the keys of its batch that no row uses |
| ArchiveProgress.CompleteHasCollected | internal/boox/notebook_purge.go:147-186 | over every run, a purge that reads complete has offered each object ever recorded for it to a collection, and one that is still stored was in use then or was stored again |
| ArchiveProgress.PurgedObjectsAreGone | internal/boox/notebook_purge.go:147-291 | so none of the objects its notebook's rows referred to is left but those |
| ArchiveProgress.RowsAreRecorded | internal/boox/notebook_purge.go:249-291 | the server-row stage leaves no binding, blob version, projection or revision of the notebook, keeps all others, and records every object the removed rows referred to |
| ArchiveProgress.StageNears | internal/boox/notebook_purge.go:103-186 | every stage, with any batch, brings a purge nearer to its end |
| ArchiveProgress.PurgeReachesComplete | internal/boox/notebook_purge.go:61-188 | from every state past admission, undisturbed stages end with the purge complete and neither a tombstone nor an object left, whatever batches are taken |
| ArchiveStages.AdmitIs | internal/boox/notebook_purge.go:62-102 | an admitted purge shuts late writers out, cancels just the unfinished operations on the notebook, and remembers the notebook and every document whose rows name it |
| ArchiveStages.AdmissionIs | internal/boox/notebook_purge.go:62-76 | only a queued purge is taken up: admitted, or blocked when it is not as previewed |
| ArchiveStages.QueueIs | internal/boox/journal.go:178-184 | which operations are queued, and which are blocked by a replaced library |
| ArchiveStages.TombstoneBatchIs | internal/boox/notebook_purge.go:103-112 | a batch is at most 32 documents with a tombstone to write, and fewer only if there are no more |
| ArchiveStages.TombstonedIs | internal/boox/notebook_purge.go:113-139 | just the batch is marked written; the purge moves on exactly when none is left |
| ArchiveStages.CollectedIs | internal/boox/notebook_purge.go:176-186 | the batch is struck off the list; then the purge stays, goes back to tombstones, or is complete, exactly as rows are left |
| ArchiveStages.ReopenIs | internal/boox/notebook_purge.go:53-57 | a live body of a removed notebook reopens its complete purge and touches no other operation |
| ArchiveStages.BoundIs | internal/boox/notebook_purge.go:43-45 | which notebook a body is bound to |
| ArchivePurge.PurgeIsPermanent | internal/boox/notebook_purge.go:249-291 | after the server-row stage no later run leaves a projection or revision that names the notebook |
| ArchivePurge.CompleteHasNothingPending | internal/boox/notebook_purge.go:40-59 | a purge that reads complete has no tombstone pending, since a late body reopens it |
| ArchivePurge.RunKeeps | internal/boox/notebook_purge.go:61-188 | the purge invariant over every run: who owns which row and tombstone, one running purge per notebook |
| ArchiveLimits.OwnerChangeLeavesCompletePending | internal/boox/notebook_purge.go:43-58 | a run that breaks the previous promise when a document changes its owner |
| ArchiveStrays.LeafIff | internal/boox/notebook_purge.go:28-59 | observing one leaf keeps complete purges without pending tombstones exactly when it does not stray |
| ArchiveStrays.WinnerIff | internal/boox/notebook_purge.go:28-59 | the same for the current winner |
| ArchiveStrays.CompletePurgesSettleIff | internal/boox/notebook_purge.go:28-188 | over every run, with no assumption on documents: a complete purge never has a tombstone pending if and only if no stray body was observed |
| ArchiveServer.Server.Observe | internal/boox/journal.go:18-132 | the loops over changes and leaves commit the whole pass exactly when every upload succeeds; otherwise its rows are rolled back after exactly the uploads before the failing one |
| ArchiveServer.Server.ObserveLeafByLeaf | internal/boox/journal.go:56-95 | each leaf is suppressed, or stored and then recorded, until an upload fails |
| ArchiveServer.Server.PutBlob | internal/boox/oss.go:113-165 | the body is stored before its version and binding, which are there exactly when both calls succeed; a removed notebook is refused |
| ArchiveServer.Server.DeleteBlob | internal/boox/oss.go:208-243 | the deletion marker and the dropped binding, or nothing for a removed notebook |
| ArchiveServer.Server.AdmitPurge | internal/boox/notebook_purge.go:62-102 | admission records the purge, cancels the other operations and finds the notebook's documents |
| ArchiveServer.Server.TombstoneDocuments | internal/boox/notebook_purge.go:103-139 | one batch is marked, and the stage moves on when nothing is pending, exactly when every deletion succeeds; otherwise nothing changes |
| ArchiveServer.Server.ClearServerRows | internal/boox/notebook_purge.go:249-291 | nothing of the notebook is left, everything else is, and the objects of the removed rows are listed for collection |
| ArchiveServer.Server.CollectObjects | internal/boox/notebook_purge.go:147-186 | the collection loop with its usage check commits exactly when every deletion succeeds; otherwise only the objects before the failing one are gone |
| Library.FindShelf | internal/boox/book_management.go:241-252 | the walk with its set of shelves seen answers a shelf exactly when its ancestry is live and native within 33 shelves |
| Library.IsWithin | internal/boox/book_management.go:282-296 | the bounded walk answers whether the ancestor is met within 33 shelves |
| Library.WithinIsAncestry | internal/boox/book_management.go:282-296 | for any parent the lookup accepts, the bounded walk decides ancestry exactly |
| LibraryState.LibrarySnapshot.Change | internal/boox/book_management.go:209-238 | a queued change updates its record in place and nothing else |
| LibraryState.LibrarySnapshot.Replay | internal/boox/book_management.go:146-178 | pending changes are applied in queue order |
| LibraryState.Admit | internal/boox/book_management.go:401-409 | a plan is queued exactly when it has at most 2000 ops and writes no record twice |
| LibraryFrames.ApplyAt | internal/boox/book_management.go:404-409 | in a plan that writes each record once, a record ends as its own op left it |
| ShelfPlans.CreateKeepsNames | internal/boox/book_management.go:433-447 | creating keeps live sibling names distinct |
| ShelfPlans.CreatedShelfVisibleIff | internal/boox/book_management.go:433-447 | creating adds one shelf with that parent and name; it is visible exactly when the parent is within 32 shelves |
| ShelfPlans.RenameKeepsNames | internal/boox/book_management.go:448-466 | renaming keeps live sibling names distinct |
| ShelfPlans.RenameKeepsTree | internal/boox/book_management.go:448-466 | renaming gives the shelf its name, and changes no other record and no shelf's visibility |
| ShelfPlans.MoveKeepsNames | internal/boox/book_management.go:468-495 | moving keeps live sibling names distinct |
| ShelfPlans.MoveKeepsForest | internal/boox/book_management.go:468-495 | after an accepted move every walk to the top that ended still ends, so no cycle arises |
| ShelfPlans.MovedShelfVisibleIff | internal/boox/book_management.go:468-495 | a moved shelf stays visible exactly when its new parent is within 32 shelves |
| PlanAcceptance.ShownIff | internal/boox/book_management.go:241-252 | a shelf can be seen exactly if at most 33 live native shelves lead from it to the top |
| PlanAcceptance.CreateAcceptedIff | internal/boox/book_management.go:433-447 | a shelf is created exactly under a good name that no live sibling has, at the top or on a shelf that can be seen |
| PlanAcceptance.RenameAcceptedIff | internal/boox/book_management.go:448-466 | a rename is accepted exactly for a shelf that can be seen and a good name that is its own or free |
| PlanAcceptance.MoveShelfAcceptedIff | internal/boox/book_management.go:468-495 | a shelf can be moved exactly to the top or to a shelf that can be seen and is not below it, under a good and free name; a cycle is refused as such |
| PlanAcceptance.AddAcceptedIff | internal/boox/book_management.go:594-617 | a book is added exactly where it is already or as its first shelf |
| PlanAcceptance.MoveBookAcceptedIff | internal/boox/book_management.go:626-658 | when a move of a book is accepted, and when it is refused for being on several shelves |
| PlanAcceptance.RemoveAcceptedIff | internal/boox/book_management.go:660-690 | when a removal is accepted |
| PlanAcceptance.RestoreAcceptedIff | internal/boox/book_management.go:712-740 | a book is restored exactly if it is in the trash and the shelf asked for can be seen |
| PlanFences.ShelfPlansFenced | internal/boox/book_management.go:340-350 | every op of a creation, rename or move of a shelf rests on the operation pending on its record, else on the record's revision; a new record rests on nothing |
| PlanFences.DeletionFenced | internal/boox/book_management.go:499-558 | so does every op of a shelf's deletion |
| PlanFences.MoveFenced | internal/boox/book_management.go:626-658 | and of a book's move |
| PlanFences.RemoveFenced | internal/boox/book_management.go:668-690 | and of its removal |
| PlanFences.RestoreFenced | internal/boox/book_management.go:720-740 | and of its restoring |
| PlanFences.AddFenced | internal/boox/book_management.go:580-617 | and of adding it |
| PlanFences.BatchFenced | internal/boox/book_web.go:157-181 | and of every batch of these |
| QueuedChanges.ShelfChanged | internal/boox/book_management.go:209-238 | a queued change of a shelf changes just the fields it gives; the revision stays and the operation becomes the shelf's head |
| QueuedChanges.BookChanged | internal/boox/book_management.go:209-238 | so with a book |
| QueuedChanges.MemberChanged | internal/boox/book_management.go:209-238 | and with a membership |
| QueuedChanges.QueuedIsHead | internal/boox/book_management.go:146-238 | after a plan is queued each of its records has the operation queued for it as its head |
| QueuedChanges.NextRestsOnQueued | internal/boox/book_management.go:340-350 | so the next change planned for a record rests on the one queued before it |
| ShelfDelete.DeletePlan | internal/boox/book_management.go:499-558 | the planner's loops, the renaming loop included, compute the plan and end |
| ShelfDelete.DeleteWritesOnce | internal/boox/book_management.go:404-409 | the plan writes no record twice |
| QueuedChanges.DeletionOrder | internal/boox/book_management.go:499-558 | a deletion writes the memberships, then the children, each in the order of ids, and the shelf last, which ends |
| ShelfDelete.DeleteRaisesContents | internal/boox/book_management.go:499-558 | memberships and non-empty children move up exactly one level, empty children and the shelf end, nothing else changes |
| ShelfDelete.DeleteLeavesNothingBehind | internal/boox/book_management.go:496-498 | nothing live points at the deleted shelf |
| ShelfDelete.DeleteKeepsBooksShelved | internal/boox/book_management.go:515-521 | a book on a nested shelf is on its parent afterwards |
| ShelfDelete.DeleteKeepsNames | internal/boox/book_management.go:529-554 | live sibling names stay pairwise different |
| ShelfRise.RaisedNames | internal/boox/book_management.go:529-554 | a shelf that moves up keeps its name if no shelf beside the deleted one and none before it has it and it is not the trash's; else it gets the first free number |
| ShelfRise.EmptyIff | internal/boox/book_management.go:533-544 | a child shelf ends with its parent exactly if no live membership and no live shelf is on it |
| Names.FreeName | internal/boox/book_management.go:546-550 | the renaming loop ends with the first free candidate |
| NameText.ValidIff | internal/boox/book_management.go:298-300 | which names are valid, by code point and by bytes of UTF-8 |
| BookPlans.Membership | internal/boox/book_management.go:265-273 | the search in any order finds the live membership with the least id, else the least of the others |
| BookPlans.Move | internal/boox/book_management.go:626-658 | the planner computes the move plan, every refusal included |
| BookPlans.Remove | internal/boox/book_management.go:668-690 | the planner computes the removal plan |
| BookPlans.Restore | internal/boox/book_management.go:720-740 | the planner with its loop over memberships computes the restore plan |
| BookPlans.ShelveBook | internal/boox/book_management.go:580-590 | shelving does nothing, revives the found membership or makes a new one |
| PlanActions.ShelveActions | internal/boox/book_management.go:580-590 | a book is put on a shelf by nothing if it is on it, by reviving its first former membership, or by a new one |
| PlanActions.MoveActions | internal/boox/book_management.go:626-658 | a move from a shelf changes the first live membership there: it ends, or goes to the other shelf, or to the top and ends |
| PlanActions.RemoveActions | internal/boox/book_management.go:668-690 | a removal ends the first live membership on the shelf, and trashes the book before that exactly if it is on no other |
| PlanActions.RestoreActions | internal/boox/book_management.go:720-740 | a restored book is made live, its first visible membership goes to the shelf asked for or ends, and the others end in order |
| BookCounts.MoveFromTop | internal/boox/book_management.go:632-640 | a move from the top level leaves the book on exactly that shelf |
| BookCounts.MoveBetween | internal/boox/book_management.go:641-658 | a move takes the one membership off its shelf, changes no other, and the book is on the other shelf |
| BookCounts.MoveLimits | internal/boox/book_management.go:626-658 | the visible membership count never exceeds one or what it was |
| BookCounts.AddLimits | internal/boox/book_management.go:594-617 | adding puts the book on the shelf within the same limit |
| BookCounts.RemoveLeaves | internal/boox/book_management.go:660-690 | one membership ends; the book is trashed exactly when it had no other, and then none is visible |
| BookCounts.RestorePuts | internal/boox/book_management.go:712-740 | a restored book is live and on exactly the shelf asked for, or on none |
| BookBatch.Batch | internal/boox/book_web.go:157-181 | the loop plans all books from one snapshot and stops at the first refusal |
| BookBatch.BatchIsOneByOne | internal/boox/book_web.go:157-181 | the batch equals planning and carrying out its books one at a time in any order, refusals included, and writes no record twice |
| BatchAcceptance.BatchAcceptedIff | internal/boox/book_web.go:157-181 | a batch is accepted exactly if each book is: one in the library is trashed or moved to a shelf that can be seen, to the top only from one shelf; one in the trash is restored |
| BatchAcceptance.BatchRefusal | internal/boox/book_web.go:157-181 | the first book that is not decides the refusal |
| BatchAcceptance.BatchJoins | internal/boox/book_web.go:157-181 | a batch writes what its parts write, one after the other |
| BatchAcceptance.ShelfOfIs | internal/boox/book_web.go:166-171 | a book is taken from the shelf of its first visible membership, or from the top |
| FileNames.DisplayNameIsProper | internal/boox/library_fs.go:31-45 | a display name is empty or can stand in a path |
| FileNames.Disambiguate | internal/boox/library_fs.go:118-143 | both passes over the slice, in place, give the told-apart names |
| FileNames.FreeSuffix | internal/boox/library_fs.go:134-142 | the suffix loop ends with the first unused number |
| FileNames.NamesAreDistinct | internal/boox/library_fs.go:103-144 | within a folder no two names agree, ignoring case |
| FileNames.RenamedEntries | internal/boox/library_fs.go:103-144 | renaming keeps what an entry is, and the first claimant keeps its name |
| FileDisplay.DisplayedIs | internal/boox/library_fs.go:31-45 | a displayed name is the name with slashes and backslashes as '_' and without its control characters, all else in order, or empty exactly when that is blank or a dot name |
| FileDisplay.PrintsOnce | internal/boox/library_fs.go:31-45 | that text is determined by the name |
| FileDisplay.PlainNames | internal/boox/library_fs.go:46-72 | plain names are displayed as they are; a nameless shelf is untitled, a nameless book has its title with its type, else its id |
| FileDisplay.NumbersAreLeast | internal/boox/library_fs.go:118-143 | entries that repeat a name get, in order, the least free number from 2 on |
| FileDisplay.SuffixedIs | internal/boox/library_fs.go:128-136 | a folder's number comes last, a file's before its extension |
| FileDisplay.ExtIs | internal/boox/library_fs.go:130-132 | the extension starts at the last dot that no slash follows |
| SlashPaths.SplitJoin | internal/boox/library_fs.go:168 | splitting undoes joining |
| SlashPaths.JoinSplit | internal/boox/library_fs.go:168 | joining undoes splitting |
| FileView.List | internal/boox/library_fs.go:60-94 | a folder's entries, sorted and told apart |
| FileView.ListChildren | internal/boox/library_fs.go:147-155 | the entries of a folder and the placeholders whose names are free |
| FileDisplay.FolderOrder | internal/boox/library_fs.go:103-117 | a folder is ordered by name, shelves before books, then by id, with the trash first at the top |
| FileDisplay.PlainShelfIsListed | internal/boox/library_fs.go:63-72 | a visible shelf with a plain name that nothing else claims is listed under exactly that name |
| FileDisplay.PlainBookIsListed | internal/boox/library_fs.go:73-90 | so is a book, in each folder it belongs in |
| FileDisplay.FolderHoldsBook | internal/boox/library_fs.go:73-90 | a folder lists a book exactly if it is the trash and the book is in it, the book is on that shelf, or it is on none and the folder is the top |
| FileDisplay.FolderHoldsShelf | internal/boox/library_fs.go:60-72 | a folder lists a shelf exactly if that can be seen and is its child; the top lists the trash |
| FileDisplay.TrashIsListed | internal/boox/library_fs.go:62 | the trash is the first entry of the top and keeps its name |
| FileView.Lookup | internal/boox/library_fs.go:166-186 | the lookup loop resolves at most 34 parts from the root |
| FileLookups.FolderFinds | internal/boox/library_fs.go:147-163 | a folder finds its listed entries by name, a placeholder for any other name it is given, and nothing else |
| FileLookups.NothingBelow | internal/boox/library_fs.go:175-178 | no path leads on from a book or a placeholder |
| FileLookups.OneBelow | internal/boox/library_fs.go:179-184 | from a folder it leads to what the folder finds |
| FileLookups.LookupLimits | internal/boox/library_fs.go:166-174 | the empty path is the root, and more than 34 parts lead nowhere |
| FileLookups.TrimIs | internal/boox/library_fs.go:168 | just the slashes around a path are taken off |
| FilePaths.ChildFound | internal/boox/library_fs.go:147-163 | every listed entry is found among its folder's children by its name, placeholders or not |
| FilePaths.ShelfIsListed | internal/boox/library_fs.go:63-72 | every visible shelf is listed in its parent |
| FilePaths.BookIsListed | internal/boox/library_fs.go:73-90 | every stored book is listed, in every folder it is placed in |
| FilePaths.ReachedIffProper | internal/boox/library_fs.go:166-186 | joining the names on an entry's chain finds that entry exactly when its name is not empty and has no slash |
| FilePaths.ShelvesAreReached | internal/boox/library_fs.go:60-94 | every listed shelf is reached, up to the depth the library shows |
| FilePaths.BooksAreReachedIff | internal/boox/library_fs.go:46-58 | a book is reached exactly when its name prints, or its file type has no slash and its title prints or its id has none |
| FilePaths.SlashedBookIsLost | internal/boox/library_fs.go:46-58 | a listed book that no path finds |
| JobSafety.Counts | internal/jobs/jobs.go:56-101 | over every interleaving, attempts are the handler starts, never above the maximum, and a job completes at most once, exactly when it is done |
| JobSafety.FinishedStays | internal/jobs/jobs.go:97-125 | done and failed are absorbing |
| JobSafety.OlderLosesLease | internal/jobs/jobs.go:127-139 | a worker holding an older attempt always loses and changes nothing |
| JobSafety.LeaseIsExclusive | internal/jobs/jobs.go:56-101 | of all leases handed out on a job at most one is accepted, and its report ends it |
| JobSafety.LostStaysLost | internal/jobs/jobs.go:97-125 | a lease once lost is never accepted again |
| JobSafety.NoneIsStranded | internal/jobs/jobs.go:103-125 | a pending job always has an attempt left and becomes claimable; an expired lease waits again or has failed |
| JobSafety.RetryWaits | internal/jobs/jobs.go:103-114 | a failed attempt is tried again after its doubled delay and not before |
| JobSafety.RequeueSparesLive | internal/jobs/jobs.go:116-125 | a requeue leaves every row alone but the leases whose time is over |
| JobSafety.HeldUntil | internal/jobs/jobs.go:56-77 | a lease is held from its claim on, and the first requeue after its end time takes it, no earlier one |
| JobSafety.DelayDoubles | internal/jobs/jobs.go:104 | the delay is a minute, doubled with each attempt five times at most |
| JobSafety.OneJobPerKey | internal/jobs/jobs.go:35-54 | an idempotency key names one job |
| JobStore.Store.Enqueue | internal/jobs/jobs.go:35-54 | a used key answers the job that has it, unchanged; otherwise one pending job is added, due at once, with five attempts if none are given |
| JobStore.Store.Claim | internal/jobs/jobs.go:56-77 | the claim takes an unlocked claimable job that has been available longest, then the oldest, or there is none |
| JobStore.Store.ClaimID | internal/jobs/jobs.go:81-95 | the named job is leased exactly when it is claimable |
| JobStore.Store.Complete | internal/jobs/jobs.go:97-101 | the job is done, or the lease is lost and nothing changes |
| JobStore.Store.Fail | internal/jobs/jobs.go:103-114 | the job waits for its delay or has failed, or the lease is lost and nothing changes |
| JobStore.Store.RequeueExpired | internal/jobs/jobs.go:116-125 | exactly the leases that ended before now are returned or failed, and they are counted; every other row is as it was |
| JobStore.Runner.RunOne | internal/jobs/runner.go:25-43 | the call is idle exactly when the job is not claimable; else it takes exactly the lease, what others do meanwhile and its report, and its outcome says whether the lease still held and the handler succeeded |
| JobStore.EndingIs | internal/jobs/runner.go:25-43 | a completed outcome means the handler succeeded and the job is done; a failed one that it did not and the job waits or has failed |
| JobStore.Runner.Poll | internal/jobs/runner.go:45-92 | each turn takes the job the claim picks and reports on it, and does nothing only if no claimable job is unlocked; together the turns are a run of the machine |
| Ony1.ReadKey | internal/boox/audio_repair.go:34-48 | the loops collect key and initial block from their places in the header |
| Ony1.CryptBlocks | internal/boox/audio_repair.go:76-77 | the buffer is filled with the chained decryption |
| Ony1.OpenEnvelope | internal/boox/audio_repair.go:85-123 | the checks, the repair, the content and the damaged output of an upload |
| Ony1.OpenPlaintext | internal/boox/audio_repair.go:53-83 | both layouts decode; other bytes pass unchanged |
| Ony1Header.KeyIs | internal/boox/audio_repair.go:34-42 | the key byte by byte: eight offsets from each of four bases |
| Ony1Header.IvIs | internal/boox/audio_repair.go:43-47 | the initial block byte by byte |
| Ony1Header.SizeIs | internal/boox/audio_repair.go:63 | the size's bytes count by powers of 256, the greatest first |
| Ony1Header.DecryptedAt | internal/boox/audio_repair.go:76-77 | each plaintext byte is that of its own decrypted block combined with the block before, or the initial block |
| Ony1Header.RepairedIff | internal/boox/audio_repair.go:85-114 | exactly which bytes are repaired: mark, lengths, limits, the block after the header and the padding |
| Ony1Header.PlaintextIff | internal/boox/audio_repair.go:53-83 | exactly which bytes have a plaintext, and that unmarked ones are their own |
| Ony1Repair.RepairKeepsContent | internal/boox/audio_repair.go:50-83 | upload and repair decode to the same content, of the stated size |
| Ony1Repair.RepairIsRefused | internal/boox/audio_repair.go:25-31 | repaired bytes are never taken for an upload |
| Ony1Repair.RepairLosesNothing | internal/boox/audio_repair.go:115-117 | the upload can be put together again from its repair |
| Ony1Repair.DamagedIsShifted | internal/boox/audio_repair.go:118-122 | the damaged output is one garbage block followed by the content, cut to size |
| Ony1Repair.UploadRoundTrip | internal/boox/audio_repair.go:85-123 | whatever was recorded in this format comes back |
| Ony1Repair.AcceptedIsUpload | internal/boox/audio_repair.go:85-114 | nothing else is accepted: an accepted upload is the recording of its content |
| PreviewCache.Cache.Cached | internal/boox/preview_cache.go:47-59 | a hit is the stored preview with its time renewed; a fenced key never hits |
| PreviewCache.Cache.Store | internal/boox/preview_cache.go:60-87 | the bytes stay the sum of the sizes, at most 64 entries and 64 MiB; only the longest unused go, none without need; with a later clock the new entry stays |
| PreviewCache.Cache.RenderPreview | internal/boox/preview_cache.go:92-111 | a cached page is answered; else a drawn one, kept exactly when it has no warnings, fits and is not fenced; a purged notebook without colons in its ids is always drawn anew and never kept |
| PreviewCache.Cache.Evict | internal/boox/preview_cache.go:75-86 | the eviction loop ends within the limits |
| PreviewCache.Cache.Forget | internal/boox/notebook_purge.go:293-304 | a purge drops the notebook's entries and fences it |
| PreviewCache.NewestStays | internal/boox/preview_cache.go:75-86 | eviction never removes a strictly newest entry that fits |
| PreviewCache.FenceHoldsIff | internal/boox/preview_cache.go:158-164 | the fence recognises a notebook's keys exactly when no colon is in its id or the library's |
| PreviewCache.ColonSlipsFence | internal/boox/preview_cache.go:158-164 | a purged notebook that is cached again |
| PreviewCache.PreviewSize | internal/boox/preview_cache.go:148-156 | the loops add up the size of a preview |
| PreviewCache.SizeIs | internal/boox/preview_cache.go:148-156 | a preview is as large as all its parts put together |
| Prefix.PrefixUpper | internal/boox/prefix.go:11-27 | the backward loop over the runes computes the bound |
| Prefix.PrefixIsRange | internal/boox/prefix.go:8-27 | a string starts with the prefix exactly when it lies from the prefix up to the bound, across the surrogate gap |
| Prefix.UpperNoneIff | internal/boox/prefix.go:8-10 | there is no bound exactly for runs of the greatest rune |
| Prefix.NoBoundExists | internal/boox/prefix.go:8-10 | and then no string could be one |
| Prefix.DirectoryUpperIs | internal/boox/prefix.go:29-36 | a directory's bound replaces the final slash by '0' |
| Utf8Order.ByteOrderIsRuneOrder | internal/boox/prefix.go:8-10 | comparing code points is comparing UTF-8 bytes |
| Utf8Order.EncodingIsUtf8 | internal/boox/prefix.go:8-10 | the bytes compared are UTF-8: their bits are the character, in as few bytes as hold it |
| Listing.List | internal/boox/oss.go:316-387 | the checks and the page of a listing |
| Listing.ReadRows | internal/boox/oss.go:362-380 | the row loop stops at the first row beyond the page |
| Listing.RowsAre | internal/boox/oss.go:349-356 | index range and prefix test select the same rows |
| Listing.PageIsExact | internal/boox/oss.go:362-380 | a page holds as many keys as fit, is cut off exactly when there are more, and then names its last key as the next marker |
| Listing.EffectiveIs | internal/boox/oss.go:331-347 | the keys looked through are those of the account under the prefix asked for |
| Listing.WalkRises | internal/boox/oss.go:366-379 | following the markers, keys rise strictly |
| Listing.WalkFindsOnce | internal/boox/oss.go:345-379 | a key that is there throughout a finished walk appears exactly once, whatever comes and goes between pages |
| Listing.WalkListsLive | internal/boox/oss.go:345-379 | a walk lists only keys under the prefix that were there for their page |
| Listing.StaysInAccount | internal/boox/oss.go:331-347 | no listing leaves the account |
| Merge.WinnersAreNewest | internal/booxpage/audio.go:121-145 | each id's winner is its unique newest record |
| Merge.MergesAgree | internal/booxpage/audio.go:121-145 | two orders that both succeed agree |
| Merge.AmbiguityIsRefused | internal/booxpage/audio.go:139-144 | two different newest records are refused in every order |
| Merge.SucceedsIff | internal/booxpage/audio.go:135-144 | exactly when a merge succeeds |
| Merge.RefusalIs | internal/booxpage/audio.go:135-144 | the first record that cannot be merged decides the refusal: a missing id or an ambiguity |
| MergeOrders.SomeOrderSucceedsIff | internal/booxpage/audio.go:135-144 | some order merges exactly when all records have ids and no id has two different latest records |
| MergeOrders.SomeOrderIsRefusedIff | internal/booxpage/audio.go:135-144 | some order is refused exactly when a record has no id or two different ones share id and time |
| MergeOrders.OrderDecidesIff | internal/booxpage/audio.go:135-144 | exactly when the order of the records decides whether they merge |
| MergeOrders.OrdersAgree | internal/booxpage/audio.go:121-145 | in all other cases every order gives the same winners, or every order is refused |
| Resources.CurrentResources | internal/booxpage/audio.go:128-160 | the loop over the lists and the sort compute the current resources |
| Resources.CurrentIsNewest | internal/booxpage/audio.go:121-160 | the result is the unique newest record of each id unless removed, by creation time and id |
| Resources.WinningIff | internal/booxpage/audio.go:128-146 | there is a result exactly if every list parses and all their records merge |
| Resources.WinningRefusal | internal/booxpage/audio.go:130-144 | the first list that fails decides the refusal |
| Resources.OrderDecidesSuccess | internal/booxpage/audio.go:139-144 | records that merge in one order and are refused in another |
| PageShapes.ReadPage | internal/booxpage/load.go:65-133 | the loops over archives, files and records, with every limit, compute the page |
| PageShapes.PageIsMerge | internal/booxpage/load.go:107-133 | the shapes are the merge of all records read, within the limits, and zeroed archives are counted |
| PageShapes.PageReadIff | internal/booxpage/load.go:71-133 | a page is read exactly if nothing in its archives is at fault, limits and ambiguities counted in reading order, and the first fault decides the refusal |
| PageShapes.PageUsableIff | internal/booxpage/load.go:71-106 | its archives can be had exactly if each is zeroed or all its files are readable within their limits |
| PageShapes.PageHolds | internal/booxpage/load.go:71-110 | the records taken in are those of the page's archives in the order of their names |
| PageShapes.PageHoldsBytes | internal/booxpage/load.go:94-106 | the decoded bytes of all the files count towards the limit |
| PageShapes.OfPageIff | internal/booxpage/load.go:72-74 | which keys are the page's archives |
| PageShapes.ShapesAreNewest | internal/booxpage/load.go:61-64 | each shape is the unique newest record of its id |
| PageShapes.EmptyAtIsEarliestIff | internal/booxpage/load.go:81-87 | when the time kept of zeroed archives is the earliest |
| SessionTimes.NameRoundTrip | internal/booxpage/recover.go:78-87 | the time in an archive's name is the time read from it, negative ones included |
| SessionTimes.SessionTimeIs | internal/booxpage/recover.go:80-87 | the time is the 64-bit number after the last '#' of a name, and zero without one |
| SessionTimes.PlainTimesAreEarliest | internal/booxpage/load.go:81-87 | without negative times the page keeps the earliest |
| SessionTimes.NegativeTimeIsKept | internal/booxpage/recover.go:80-87 | two named archives for which the time kept is not the earliest |
| NaturalOrder.NaturalKey | internal/searchorder/order.go:52-74 | the loop cuts a title into its pieces |
| NaturalOrder.NaturalOrder | internal/searchorder/order.go:38-49 | the comparison loop answers -1, 0 or 1 as the order does |
| NaturalOrder.NaturalIsTotal | internal/searchorder/order.go:35-49 | a total order on lower-cased titles |
| NaturalOrder.NumbersCompare | internal/searchorder/order.go:66-71 | digit runs shorter than 10^10 compare by value, zero-padded or not |
| NaturalOrder.NaturalIsTokenOrder | internal/searchorder/order.go:26-49 | the string keys order titles as their numbers and texts do |

## Left out

- HTTP handlers, templates, WebDAV, MCP, CalDAV, authentication and channels: plumbing around the operations modelled.
- SQL, JSON and protobuf texts: rows, documents and records are datatypes; the conditions that decide transitions are kept.
- `libraryReferences` (internal/boox/book_management.go:748-801) and the shape checks of records are the Boolean `accepted`; the Gateway re-check of a shelf's ancestry is not modelled.
- Fields a publication writes besides the planned ones (`updatedAt`, freshness of a restored record) are not modelled.
- Asset binding inside a repair and the book and note uploads' own records: one document per operation is modelled, with its commit, message and companion book.
- Order in which operations become due (`next_attempt_at`): any selectable operation may be next.
- Rows the purge deletes in the note, recognition and thumbnail tables: only rows that refer to objects, name an owner or decide a stage are kept.
- Tombstoning at the Gateway (internal/boox/notebook_purge.go:222-247) is one external call that succeeds or fails; conflicting leaves are not modelled.
- Publisher.Service.PublishOne: the operation to publish is a parameter; purge operations are `ArchiveServer`'s.
- Loading the snapshot from rows (internal/boox/book_management.go:64-179): `Snapshot` starts as its three maps, and pending changes are replayed on it.
- BookBatch.BatchIsOneByOne: the operation queued for a record has the same id in the batch and in the single runs, where the program derives it from the request.
- Renaming a book and uploading one: single-op plans beside the ones proved.
- FileView.List: one folder is listed at a time, where the program fills a map of all folders in one loop; the library sort is an insertion sort here.
- Digest, size and times of the file view's books: they are carried along, not decided on.
- JobStore.Runner.Poll: the loop runs for a given number of turns; timers, logging and the handlers' own work are not modelled.
- `NaturalSQL` (internal/searchorder/order.go:31-33): the SQL expression; only its Go counterpart is modelled.
- Cipher, hash and UUID internals, ZIP reading and the parsing of resource records.
- Page drawing, recognition, speech and other model clients.
