# ClawSweeper Worker: durable stores and their arithmetic

A Dafny model of the stores behind ClawSweeper's exact-review Worker, with proofs of what they keep
over every run. Each SQL table is a map keyed by its primary key, each synchronous transaction is
one atomic step that commits or rolls back, and the clock is an argument of every step, so the laws
hold for any clock unless they name a condition on it.

Each store comes in layers. A model module defines its tables as a datatype and its operations as
transitions on them. A laws module proves invariants, two-state relations and theorems over whole
runs of those transitions; an answers module says of each operation, from the rows it meets and
without its definition, when it succeeds and exactly what it then leaves in the tables. A store module has the class with the tables as fields and the
operations statement by statement (loops, early returns, rollback from a saved copy), each method
proved equal to its transition, so that the laws are about the imperative form too.

| modules | what they cover |
|---|---|
| `Basics`, `SqlOrder`, `Counting` | shared vocabulary, ORDER BY and LIMIT over any total order, counting and sums |
| `Blobs`, `ByteOrderMarks`, `RecordTables`, `ExportSeed` | chunked content, record and index tables, the coherence invariant, seeding the index |
| `TupleCompletion`, `DirectPublication`, `PublicationLaws`, `PlanAnswers`, `RecordHistory`, `ClosedPlans` | plan acceptance, compare-and-set tuple mutation, commit publication |
| `ChangeFeed`, `RecordStore` | the paged export and its readers under concurrent writes; the store class |
| `PublicationBatches`, `BatchLaws`, `FencingLaws`, `BatchReports`, `BatchAnswers`, `BatchStore` | leases, fencing generations, completion, cleanup, reports |
| `CommandIntake`, `IntakeLaws`, `IntakeAnswers`, `IntakeStore` | command queue, receipts, watermarks, item revisions |
| `ProofRequests`, `ProofLaws`, `ProofAnswers`, `ProofStore` | the single-slot proof request machine and its batch cursor |
| `EtagCache`, `EtagLifetimes` | the cached row count of the ETag cache, its evictions, and how long a response is served |
| `Automerge`, `DecimalIdentifiers`, `RetryBudget`, `Der`, `Coverage` | metrics, run order, retry times, DER encoding, coverage projection |

## Main results

- Change feed: under any interleaving of writes and page fetches, a pass that ends leaves the
  reader with exactly the exported part of the store (`PassConverges`), and a later pass may start
  from the watermark of any page of a finished pass (`ReplayConverges`, `SecondPassConverges`); with
  no writes paging ends within one page a row (`QuietPassIsTheFeed`). The source comment at
  dashboard/exact-review-direct-publication.ts:831 names only the first page's watermark; the proof
  shows that every page's is safe once the pass has finished.
- Records: index, content and chunk rows agree in every reachable state, no item is both open and
  closed, every accepted write carries a revision above all earlier ones, a tuple reads as it was
  last written, by whichever path (`LastWriteIsRead`), and a published commit never changes.
- The feed is the store: what a reader ends with is what the store reads, deletions included
  (`ReplicaReads`), and a write is exported as it was made until its tuple is written again
  (`LastWriteIsExported`).
- Leases: until it is deleted a batch keeps its owner and memberships, a finished one stays
  finished, no lease shortens (`BatchLaws.RunLaw`), and only cleanup deletes, only finished batches.
- Fencing: a fence that no leased batch has is refused for good, a completion is accepted in at most
  one transaction, and the current owner of an item has the greatest generation the item was ever
  given, across cleanup and reuse of batch ids.
- A batch's own fences keep its lease alive for as long as it runs (`GrantedFencesSuffice`), and a
  plan above every receipt of its fence is accepted while revisions remain (`NewPlanAnswer`).
- A human command version is dispatched for proof at most once, ever: its 24-hour claim window is
  shorter than the retention of the record that answers repeats (`DispatchedOnce`).
- Command intake: a version can be admitted a second time exactly when its receipt has been pruned
  and its comment's watermark stands at its timestamp under another version (`ReadmissionExactly`);
  `ReadmissionHappens` is a run of four steps in which this occurs.

Behaviour worth knowing that the proofs bring out:

- `complete` hands a held fence to its callback as often as the call names it (`HandoffCount`), so
  every fence at most once exactly when the call repeats none that the batch holds
  (`HandedOffAtMostOnce`), and always once when item keys are distinct (`HandedOffOnce`). Its callers
  keep them distinct: dashboard/exact-review-queue.ts:18091 refuses repeats, and
  dashboard/exact-review-queue.ts:8480 passes distinct memberships. A repeated fence would be handed
  off twice and its first outcome recorded (`RepeatedHandoff`).
- `finish` may replace one terminal receipt outcome by another (`OutcomeOverwritten`). Pruning aside,
  a step keeps a terminal outcome exactly when it is not a finish of that version with another one
  (`OutcomeKeptExactly`).
- `accept` may leave a live plan beside a live closed record (`ClosedPlanHappens`).
  `AcceptedClosedPlan` says exactly which plans do, from their operations and what was live before,
  and `MutatedClosedPlan` that a mutation would only by writing both, which
  dashboard/exact-review-direct-publication.ts:1695-1699 refuses.
- An uploaded record of more than 1,572,864 bytes that starts with a byte-order mark cannot be read
  back (`RecordReads`): its length is the upload's, and decoding its chunks drops the mark.
- A stored ETag row can be evicted by its own store, exactly when the table is full and every other
  row comes after it, validated later or in the same millisecond under a greater key
  (`StoredRowSurvives`, `StoredRowEvicted`); the answer reports it as stored all the same.
- A complete review dated ahead of the clock counts as expired until its date (`RecordAges`).
- `derLength` is right exactly below 2^31 (`LengthRoundTrip`): its shifts are 32-bit.

## Model

| member | source | states |
|---|---|---|
| `ChangeFeed.PassConverges` | dashboard/exact-review-direct-publication.ts:821-925 | Any interleaving of accepts, mutations, commit publications and page fetches: when a pass from an empty replica ends, the replica equals the exported rows of its scope, tombstones included |
| `ChangeFeed.ReplicaReads` | dashboard/exact-review-direct-publication.ts:1312-1360 | That replica has exactly the indexed rows of its repository and sections; each record in it has the content, digest, revision, time and deletion the store reads it with, and each commit its stored bytes |
| `ChangeFeed.ReplayConverges` | dashboard/exact-review-direct-publication.ts:831-832 | After a finished pass and any further writes, a pass from the watermark of any page of it again ends equal to the store |
| `ChangeFeed.SecondPassConverges` | dashboard/exact-review-direct-publication.ts:821-925 | Two passes end to end, from an empty replica, with any writes during and between them, the second from the watermark of any page of the first: the replica again equals the store |
| `ChangeFeed.QuietPassIsTheFeed` | dashboard/exact-review-direct-publication.ts:906-924 | Without writes any chain of consecutive pages, finished or not, is at most one page a row long and continues the feed without gap or repeat; it has returned every row past its start exactly when no cursor is left |
| `ChangeFeed.AbsorbPage` | dashboard/exact-review-direct-publication.ts:821-925 | One page moves what the replica is known to hold right up to its cursor, or to the whole store on the last page, and the cursor strictly advances |
| `ChangeFeed.EventKeepsInPass` | dashboard/exact-review-direct-publication.ts:821-925 | Between any two pages, no write can make the rows up to the cursor wrong or missing in the replica |
| `ChangeFeed.FeedAfterCursor` | dashboard/exact-review-direct-publication.ts:868-877 | The rows past the n-th row's store revision are exactly the rest of the feed: nothing is skipped or repeated at a page boundary |
| `ChangeFeed.SnapshotWellFormed` | dashboard/exact-review-direct-publication.ts:1312-1360 | Every index row in scope is exportable, and store revisions identify rows and never exceed the counter |
| `ChangeFeed.SnapshotMoves` | dashboard/exact-review-direct-publication.ts:1166-1187 | Between two states of the store an exported row is either unchanged or has moved past the earlier counter, and none disappears |
| `RecordStore.ExactReviewDirectPublicationStore.ExportRecords` | dashboard/exact-review-direct-publication.ts:821-925 | A page is the longest nonempty prefix of the feed that keeps the row limit and both byte budgets, and says where to go on exactly when rows remain |
| `RecordStore.QueryIsFeed` | dashboard/exact-review-direct-publication.ts:837-877 | The index query in its order and the feed of the snapshot are the same rows, entry by entry |
| `RecordStore.RestExactly` | dashboard/exact-review-direct-publication.ts:906-918 | The has-more probe finds a row exactly when the feed continues |
| `RecordStore.ExactReviewDirectPublicationStore.SelectWithinSource` | dashboard/exact-review-direct-publication.ts:879-888 | The source budget admits a maximal prefix of the rows, and always the first one |
| `RecordStore.ExactReviewDirectPublicationStore.Reconstruct` | dashboard/exact-review-direct-publication.ts:889-905 | The response budget admits a maximal prefix of the entries, each as the index has it, and always the first one |
| `RecordStore.ExactReviewDirectPublicationStore.SourceByteLength` | dashboard/exact-review-direct-publication.ts:1487-1501 | The joined length column is the length of the content the entry will have, so the two budgets look at the same bytes |
| `RecordTables.PutCoherent` | dashboard/exact-review-direct-publication.ts:1108-1188 | Every record write keeps row, chunk rows and index row of every record in agreement, store revisions distinct and at most the counter |
| `RecordTables.PutIsAMapUpdate` | dashboard/exact-review-direct-publication.ts:1108-1188 | After a write the record reads back exactly as written and no other record's content, revision or digest changes, whatever was chunked |
| `RecordTables.PutEntry` | dashboard/exact-review-direct-publication.ts:1165-1187 | A write is exported as it was made: content or tombstone, digest, revision and time, under the next store revision |
| `RecordTables.EntryIsRecord` | dashboard/exact-review-direct-publication.ts:1312-1360 | In a coherent store a tuple section is exported exactly as it is read, tombstones included |
| `RecordTables.EntryIsCommit` | dashboard/exact-review-direct-publication.ts:1396-1455 | In a coherent store a commit is exported live, with its stored bytes and digest |
| `RecordTables.PutAdvances` | dashboard/exact-review-direct-publication.ts:1165-1187 | A write leaves every other index row and its exported entry as they were and puts its own past the old counter |
| `RecordTables.PutAllCoherent` | dashboard/exact-review-direct-publication.ts:445-446 | The write loop of a whole tuple keeps the coherence invariant and only moves index rows forward |
| `RecordTables.PublishCommitsCoherent` | dashboard/exact-review-direct-publication.ts:927-972 | Publishing any list of commits, repeats included, keeps the coherence invariant and only adds index rows |
| `RecordTables.CommitInsertIsFresh` | dashboard/exact-review-direct-publication.ts:1361-1393 | A commit not yet in the index has no backfill row or chunk rows, so the plain inserts cannot collide |
| `RecordTables.EntryDefined` | dashboard/exact-review-direct-publication.ts:1312-1360 | In a coherent store no index row lacks its source: for content without a byte-order mark the consistency error cannot occur |
| `Blobs.PutThenRead` | dashboard/exact-review-direct-publication.ts:554-590 | Stored content is what is read back, whatever was stored under the key before; chunk rows are exactly 0 to chunk_count - 1 |
| `Blobs.PutKeepsOthers` | dashboard/exact-review-direct-publication.ts:1114-1120 | Deleting and rewriting one record's chunk rows changes no other record's bytes or chunk rows |
| `ByteOrderMarks.RecordReads` | dashboard/exact-review-direct-publication.ts:554-590 | Reading an uploaded record back fails exactly when the upload starts with a byte-order mark and is stored in chunks; otherwise it is the decoded text |
| `ByteOrderMarks.CommitReads` | dashboard/exact-review-direct-publication.ts:1395-1455 | A stored commit always reads, without its byte-order mark exactly when it is stored in chunks |
| `ByteOrderMarks.UnmarkedRecord` | dashboard/exact-review-direct-publication.ts:1108-1163 | Without a byte-order mark, layout and reads are those PutThenRead is about |
| `Blobs.ChunksConcat` | dashboard/exact-review-direct-publication.ts:2386-2396 | Splitting loses nothing: the chunks concatenate to the content, each nonempty and within the bound |
| `Blobs.LayoutExactly` | dashboard/exact-review-direct-publication.ts:1121-1163 | Up to 1.5 MiB a content is stored inline, a longer one in the fewest chunk rows of half a MiB that hold it, and its length is recorded |
| `Blobs.ReadFailsExactly` | dashboard/exact-review-direct-publication.ts:563-590 | A chunked read fails exactly when the rows are not as many as recorded or do not add up to the recorded length |
| `Blobs.ByteChunks` | dashboard/exact-review-direct-publication.ts:2386-2396 | The chunking loop yields the chunk list whose concatenation and bounds ChunksConcat states |
| `RecordStore.Combine` | dashboard/exact-review-direct-publication.ts:578-584 | Copying the parts into one buffer gives their concatenation |
| `RecordStore.ExactReviewDirectPublicationStore.WriteCanonicalOperation` | dashboard/exact-review-direct-publication.ts:1108-1188 | Replaces the record, its chunk rows and its index row in one step, failing only when the store revision runs out |
| `RecordStore.ExactReviewDirectPublicationStore.ReadCanonicalContent` | dashboard/exact-review-direct-publication.ts:554-590 | Answers with the recorded content, and in a valid store, for content without a byte-order mark, never with the mismatch error |
| `RecordStore.ExactReviewDirectPublicationStore.RecordExportEntry` | dashboard/exact-review-direct-publication.ts:1312-1360 | The exported form of an index row, from the canonical or the backfill content its source names |
| `RecordStore.ExactReviewDirectPublicationStore.NextExportRevision` | dashboard/exact-review-direct-publication.ts:1240-1254 | The counter moves by one and is refused only past the safe integers |
| `ExportSeed.SeedLaw` | dashboard/exact-review-direct-publication.ts:1207-1238 | Seeding indexes exactly the records without an index row, changes no existing row, ends coherent, fails exactly when revisions run out, and does nothing on a coherent store |
| `ExportSeed.SeedRowsLaw` | dashboard/exact-review-direct-publication.ts:1224-1237 | Each seeded row gets a store revision of its own above all earlier ones, so readers in progress see it as new |
| `RecordStore.ExactReviewDirectPublicationStore.SeedExportIndex` | dashboard/exact-review-direct-publication.ts:1207-1238 | Establishes the coherence invariant from a store whose canonical records may lack index rows |
| `RecordHistory.LastWriteIsRead` | dashboard/exact-review-direct-publication.ts:546-590 | A record reads exactly as it was last written, by a plan, by a deletion completing a plan or by a mutation, after any number of writes to other tuples and commits |
| `RecordHistory.StampedReads` | dashboard/exact-review-direct-publication.ts:436-446 | A plan or mutation that stamps a tuple leaves each operation it wrote, completing deletions included, readable as it is under the stamped revision |
| `RecordHistory.StampedExports` | dashboard/exact-review-direct-publication.ts:445-446 | Each operation a step writes is exported as written, deletions as tombstones, under consecutive new store revisions in the order of the operations |
| `RecordHistory.LastWriteIsExported` | dashboard/exact-review-direct-publication.ts:1312-1360 | And it stays exported as it was last written until its tuple is written again, whatever else is |
| `RecordHistory.PlanIsWritten` | dashboard/exact-review-direct-publication.ts:1503-1553 | Every operation of a plan that does not write both primaries is among those written |
| `RecordHistory.RunLeavesTuple` | dashboard/exact-review-direct-publication.ts:1108-1188 | Steps that do not write a tuple leave all its sections reading the same |
| `RecordHistory.CommitIsImmutable` | dashboard/exact-review-direct-publication.ts:927-972 | A published commit is exported unchanged under its first store revision after every run |
| `RecordHistory.RepublishedCommit` | dashboard/exact-review-direct-publication.ts:936-962 | Publishing a commit again after any run counts as matching and changes nothing, or conflicts when the digest differs |
| `PlanAnswers.CommitAnswer` | dashboard/exact-review-direct-publication.ts:936-968 | An unknown commit is inserted at revision 1 under the next store revision while one is left; a known one matches by its digest or conflicts |
| `PlanAnswers.CommitsAccounted` | dashboard/exact-review-direct-publication.ts:927-972 | Of a published list every commit is known afterwards and counted once, as inserted or unchanged, and inserted is the number of new index rows |
| `PlanAnswers.CommitsFailAsFirst` | dashboard/exact-review-direct-publication.ts:954-956 | A list fails exactly as its first failing commit does after the ones before it |
| `TupleCompletion.CompletionLaw` | dashboard/exact-review-direct-publication.ts:1503-1553 | For validated operations the file-limit error is unreachable, completion fails exactly when both primaries are live, and otherwise only deletions of absent sections are added |
| `TupleCompletion.FourSections` | dashboard/exact-review-direct-publication.ts:1546-1552 | Operations on distinct sections of one item are at most four |
| `TupleCompletion.SettledByLaw` | dashboard/exact-review-direct-publication.ts:1535-1540 | A live primary is completed by a decision on the other primary and on the plan and packet it disowns |
| `RecordStore.CanonicalTupleOperations` | dashboard/exact-review-direct-publication.ts:1503-1553 | The appending loop computes the completion CompletionLaw is about |
| `PublicationLaws.AcceptLaw` | dashboard/exact-review-direct-publication.ts:395-465 | Only an accepted plan touches a record, index row or counter; refusals leave the whole store alone; the invariant is kept; an invalid tuple is exactly one with two live primaries |
| `PlanAnswers.NewPlanAnswer` | dashboard/exact-review-direct-publication.ts:422-463 | A plan without a settled receipt is superseded exactly when a kept receipt of its fence has a greater revision, otherwise accepted exactly while revisions remain, at the least revision above the tuple's and not below its own; its receipt records which |
| `PlanAnswers.KnownPlanAnswer` | dashboard/exact-review-direct-publication.ts:400-420 | A plan with a kept settled receipt is answered as that receipt says, changing no record, or refused when it is another plan |
| `PlanAnswers.SameBodyExactly` | dashboard/exact-review-direct-publication.ts:2031-2060 | A retry is the same plan exactly when target, fence, revision, size, lifecycle and every operation's record, size, deletion and digest agree, whatever its claim generation |
| `PlanAnswers.TupleRevisionIsGreatest` | dashboard/exact-review-direct-publication.ts:1190-1205 | The revision of a tuple is the greatest that any of its four sections holds |
| `PublicationLaws.WriteTupleLaw` | dashboard/exact-review-direct-publication.ts:436-446 | A tuple write succeeds exactly while revisions remain and stamps all its sections with one revision above all the tuple held |
| `PublicationLaws.AcceptedRevisionsIncrease` | dashboard/exact-review-direct-publication.ts:412-433 | While the receipt is retained, revisions accepted for one fence strictly increase whatever the arrival order |
| `PublicationLaws.RedeliveryChangesNothing` | dashboard/exact-review-direct-publication.ts:410-420 | Redelivering an accepted plan within retention, also under another claim generation, changes no record, index row or counter; another plan at that revision is refused |
| `PublicationLaws.SettledReceiptDecides` | dashboard/exact-review-direct-publication.ts:399-433 | A retained settled receipt decides every plan of its fence up to its revision |
| `PublicationLaws.PrunePlansLaw` | dashboard/exact-review-direct-publication.ts:1047-1061 | Pruning deletes min(256, eligible) plan receipts, only settled ones past retention, the oldest first |
| `PublicationLaws.PruneReceiptsLaw` | dashboard/exact-review-direct-publication.ts:469-478 | Pruning deletes min(256, eligible) delivery receipts past retention, the oldest first |
| `PublicationLaws.MutateLaw` | dashboard/exact-review-direct-publication.ts:467-544 | Without a retained receipt a mutation applies exactly when every section still has its expected digest and revisions remain, and then wholly at one new revision; otherwise nothing changes |
| `PlanAnswers.AppliedExactly` | dashboard/exact-review-direct-publication.ts:499-543 | A new delivery is applied exactly when every section has its expected digest in the index, none meaning absent or deleted, and there is room, at the tuple's next revision |
| `PlanAnswers.KnownDeliveryAnswer` | dashboard/exact-review-direct-publication.ts:479-497 | A known delivery is answered with the revision it was given and writes nothing but the pruning, or is refused for another payload and writes nothing |
| `PlanAnswers.ConflictReport` | dashboard/exact-review-direct-publication.ts:592-622 | A conflict reports the four sections as they are read, exactly when all are there at one revision |
| `PublicationLaws.ReplayReturnsRecordedRevision` | dashboard/exact-review-direct-publication.ts:479-497 | Whatever happened since, a retained delivery id returns its recorded revision or is refused for another payload, and no record changes |
| `PublicationLaws.ConflictStateIsActionable` | dashboard/exact-review-direct-publication.ts:592-622 | Resubmitting with the digests reported by a conflict is applied |
| `PublicationLaws.ReportedDigestsAreCurrent` | dashboard/exact-review-direct-publication.ts:592-622 | The digests a conflict reports are those the next comparison is made against |
| `PublicationLaws.TupleRevisionsStrictlyIncrease` | dashboard/exact-review-direct-publication.ts:1190-1205 | Two writes of one tuple by either path, however far apart, carry increasing revisions |
| `PublicationLaws.StampIsFresh` | dashboard/exact-review-direct-publication.ts:436-442 | A stamped revision is above everything the tuple held before, and some section now holds it |
| `PublicationLaws.RunLaw` | dashboard/exact-review-direct-publication.ts:395-544 | Coherence and exclusivity of open and closed records hold in every reachable state, and no record's revision ever falls |
| `PublicationLaws.Reachable` | dashboard/exact-review-direct-publication.ts:395-544 | From the empty store every run of valid steps ends coherent, with no item both open and closed |
| `PublicationLaws.NextLaw` | dashboard/exact-review-direct-publication.ts:395-544 | Each accept, mutation or commit publication keeps the store invariant and only moves records and index rows forward |
| `PublicationLaws.MutationSettlesPrimaries` | dashboard/exact-review-direct-publication.ts:1682-1694 | A validated four-section mutation that makes one primary live deletes the other and writes every section |
| `ClosedPlans.AcceptedClosedPlan` | dashboard/exact-review-direct-publication.ts:1503-1553 | An accepted plan leaves a live plan beside a live closed record exactly when it writes the plan, or leaves plan and primaries unmentioned where the plan was live, and the closed record is written, or was live and is neither deleted nor replaced by an open one |
| `ClosedPlans.MutatedClosedPlan` | dashboard/exact-review-direct-publication.ts:1695-1699 | A mutation leaves one exactly when it writes both, which its validator refuses |
| `ClosedPlans.ClosedPlanHappens` | dashboard/exact-review-direct-publication.ts:395-465 | On the empty store a plan writing a closed record and its plan is accepted and leaves both live |
| `ClosedPlans.CompletedSections` | dashboard/exact-review-direct-publication.ts:1503-1553 | Completion decides, beyond what the plan names, exactly the other primary of a live one, the plan unless an open record is written, and the packet unless the live primary refers to it, and makes nothing live |
| `RecordStore.ExactReviewDirectPublicationStore.Accept` | dashboard/exact-review-direct-publication.ts:395-465 | The transaction, statement by statement with its rollbacks, is the transition AcceptLaw is about |
| `RecordStore.ExactReviewDirectPublicationStore.AcceptCanonicalTupleMutation` | dashboard/exact-review-direct-publication.ts:467-544 | The transaction with its digest loop and rollbacks is the transition MutateLaw is about |
| `RecordStore.ExactReviewDirectPublicationStore.WriteNextRevision` | dashboard/exact-review-direct-publication.ts:436-446 | Allocates the tuple revision and writes every section at it, or reports exhaustion |
| `RecordStore.ExactReviewDirectPublicationStore.PublishCanonicalCommits` | dashboard/exact-review-direct-publication.ts:927-972 | Publishes all commits or, on the first conflict, none, with the counts of inserted and matching ones |
| `BatchLaws.RunLaw` | dashboard/exact-review-publication-batches.ts:172-190 | Over every run: an item has at most one unfinished membership, only in leased batches, each batch has members within its size, a leased one an unfinished member; a membership is either an old one further along or new under a generation never issued before; and a batch present throughout keeps its owner and memberships, stays completed or expired once it is, keeps outcomes and recorded metadata, and its lease never shortens |
| `BatchLaws.Reachable` | dashboard/exact-review-publication-batches.ts:172-190 | From the empty store every run ends in a state with the membership invariant |
| `BatchLaws.OnlyCleanupDeletes` | dashboard/exact-review-publication-batches.ts:553-563 | A batch is deleted by no step but the cleanup of stats, and only once completed or expired |
| `BatchLaws.NextLaw` | dashboard/exact-review-publication-batches.ts:214-603 | Each operation keeps the membership invariant, and every batch it does not delete: finished ones stay finished, leases do not shorten, memberships are neither lost nor added |
| `BatchLaws.ReclaimLaw` | dashboard/exact-review-publication-batches.ts:605-629 | Reclaiming keeps the invariant, and a lease it leaves has not lapsed |
| `BatchLaws.ClaimSound` | dashboard/exact-review-publication-batches.ts:214-289 | A claim, granted, declined or rolled back, keeps the invariant and issues only new generations |
| `BatchLaws.EnrollFenced` | dashboard/exact-review-publication-batches.ts:657-669 | A new membership's generation is above all its item ever had, although ignored inserts use generations up |
| `BatchLaws.SettleSound` | dashboard/exact-review-publication-batches.ts:483-530 | Recording outcomes and closing the batch when none is left keeps the invariant |
| `BatchLaws.WithoutSound` | dashboard/exact-review-publication-batches.ts:553-563 | Dropping whole batches with their members keeps the invariant |
| `FencingLaws.DeadFenceIsRefused` | dashboard/exact-review-publication-batches.ts:183-190 | A fence no leased batch has owns nothing, passes no heartbeat and is accepted by no completion, in every later state, cleanup and batch-id reuse included |
| `FencingLaws.DeathIsFinal` | dashboard/exact-review-publication-batches.ts:183-190 | An issued fence that is not live, or not owning, never becomes so again |
| `FencingLaws.OwnersAreUnique` | dashboard/exact-review-publication-batches.ts:172-178 | At any time at most one fence owns an item |
| `FencingLaws.LatestLeaseOwns` | dashboard/exact-review-publication-batches.ts:657-669 | An unfinished membership has a generation at least that of every membership of its item that ever existed, and equal only to itself |
| `FencingLaws.GenerationNamesOneMembership` | dashboard/exact-review-publication-batches.ts:657-669 | No two memberships ever created for one item, whenever and in whichever batch, share a claim generation |
| `FencingLaws.AcceptedOnce` | dashboard/exact-review-publication-batches.ts:488-508 | The hand-off of a fence happens in at most one transaction, whatever happens in between |
| `FencingLaws.AcceptedHold` | dashboard/exact-review-publication-batches.ts:488-494 | What is handed to the callback was owned by a lease that had not lapsed |
| `FencingLaws.CompleteLaw` | dashboard/exact-review-publication-batches.ts:483-530 | Each unfinished member takes the outcome its fence was given first, all others stay, and the batch closes exactly when none is left unfinished |
| `FencingLaws.ReplayChangesNothing` | dashboard/exact-review-publication-batches.ts:469-482 | Repeating a completed call, at any later time and under any metadata, does nothing but the reclaim every call starts with |
| `FencingLaws.ClaimLaw` | dashboard/exact-review-publication-batches.ts:241-287 | With room for a batch a claim is granted exactly when some candidate is free, takes only free candidates up to the limit, and leaves none unless the batch is full |
| `FencingLaws.ClaimRetry` | dashboard/exact-review-publication-batches.ts:227-232 | While its lease runs a granted claim repeated by its owner returns the same batch and takes nothing more |
| `BatchAnswers.ExistingBatchAnswer` | dashboard/exact-review-publication-batches.ts:227-232 | A claim naming an existing batch is granted it, as it is after the reclaim, exactly when it is leased to the claimant, and changes nothing |
| `BatchAnswers.NoRoomAnswer` | dashboard/exact-review-publication-batches.ts:233-245 | At or above the cap, which is at least one, a new batch is declined; one that allows no item fails and leaves even lapsed leases as they were |
| `BatchAnswers.NewBatchAnswer` | dashboard/exact-review-publication-batches.ts:245-288 | With room a new batch is leased to its claimant as asked for and takes its candidates; it is granted exactly when that leaves it a member, and otherwise its row goes again; no other batch changes |
| `BatchAnswers.EnrollRows` | dashboard/exact-review-publication-batches.ts:262-278 | Each candidate moves its item's generation by one and joins under it exactly when nobody owns the item and it is not a member yet |
| `BatchAnswers.EnrollsUntilFull` | dashboard/exact-review-publication-batches.ts:262-278 | Candidates are taken in order until the batch is full or none is left; later ones move no generation |
| `BatchAnswers.ViewShows` | dashboard/exact-review-publication-batches.ts:683-720 | A reported batch is its row with exactly its members, each as it is stored |
| `BatchAnswers.HeartbeatAnswer` | dashboard/exact-review-publication-batches.ts:303-342 | A heartbeat succeeds exactly for the lessee of a running lease who names members only, each once by its revision and generation, and every unfinished one; it moves the expiry to the later of both |
| `BatchAnswers.GrantedFencesSuffice` | dashboard/exact-review-publication-batches.ts:303-342 | With the fences of a batch's members its lessee's heartbeats succeed for as long as the lease runs, whatever was completed, observed or claimed since |
| `BatchAnswers.FinishedBatchAnswer` | dashboard/exact-review-publication-batches.ts:469-482 | On a finished batch the lessee's call is acknowledged exactly when every fence it names is a member's, and changes nothing |
| `BatchAnswers.RunningBatchAnswer` | dashboard/exact-review-publication-batches.ts:483-531 | On a running lease the lessee's call hands off what it holds and changes its own batch alone; a failing hand-off leaves the tables as before the call |
| `BatchAnswers.SettledRow` | dashboard/exact-review-publication-batches.ts:509-530 | Commit and failure are noted with a hand-off and only where none was noted; the row closes with the last unfinished member, at that time |
| `BatchAnswers.StrangerIsRefused` | dashboard/exact-review-publication-batches.ts:466-468 | A call by anyone but the lessee, or on an unknown batch, is refused |
| `BatchAnswers.ObserveAnswer` | dashboard/exact-review-publication-batches.ts:379-406 | The lessee's observation of a stage is kept if it is the first, and refused to anyone else |
| `BatchAnswers.ReclaimRows` | dashboard/exact-review-publication-batches.ts:605-629 | Reclaiming expires exactly the leases that have lapsed, at that time, and releases exactly their unfinished members |
| `FencingLaws.EnrollAllTakes` | dashboard/exact-review-publication-batches.ts:262-278 | Memberships that exist stay; each new one takes a candidate nobody owned |
| `FencingLaws.CapacityLaw` | dashboard/exact-review-publication-batches.ts:233-244 | Under a fixed cap there are never more leased batches than the cap, over every run |
| `FencingLaws.HandoffCount` | dashboard/exact-review-publication-batches.ts:488-494 | The filter hands a held fence off as often as the call names it, and any other fence never |
| `BatchAnswers.HandedOffInOrder` | dashboard/exact-review-publication-batches.ts:488-495 | What is handed off is what the batch holds of the call, in the order it was named |
| `FencingLaws.HandedOffAtMostOnce` | dashboard/exact-review-publication-batches.ts:488-495 | A call hands every fence off at most once exactly when it names no fence twice that the batch holds |
| `FencingLaws.HandedOffOnce` | dashboard/exact-review-publication-batches.ts:488-495 | Under distinct item keys each held fence the call names is handed off exactly once |
| `FencingLaws.RepeatedHandoff` | dashboard/exact-review-publication-batches.ts:488-508 | A fence repeated in one call is handed off twice, and the first outcome is the one recorded |
| `BatchReports.CleanupLaw` | dashboard/exact-review-publication-batches.ts:534-563 | Cleanup deletes min(limit, eligible) finished batches, the oldest, so deleted plus remaining is what was eligible; generations, leases and owned items are untouched |
| `BatchReports.StatsLaw` | dashboard/exact-review-publication-batches.ts:564-601 | The report accounts for every batch: leased, completed, expired and deleted add up to those there were; its active rows are the unfinished memberships, its leased count the number of batches among them, and next expiry and oldest creation are the least over just those batches |
| `BatchAnswers.ReportCounts` | dashboard/exact-review-publication-batches.ts:564-601 | Each count of the report is the number of batches in that state, or of lapsed memberships, that the cleanup left |
| `BatchReports.OwnedOrReclaimed` | dashboard/exact-review-publication-batches.ts:534-581 | Every membership unfinished before is unfinished after, or counted as reclaimed, or gone with its batch |
| `BatchReports.SnapshotNeedsNoReclaim` | dashboard/exact-review-publication-batches.ts:344-349 | The read-only snapshot is the one that reclaims first |
| `BatchReports.SnapshotLaw` | dashboard/exact-review-publication-batches.ts:631-655 | The snapshot lists exactly the owned items, each once and by item key, under the batch that owns it; its batch count and next expiry are those of the batches still leased after a reclaim |
| `BatchStore.ExactReviewPublicationBatchStore.ReclaimExpired` | dashboard/exact-review-publication-batches.ts:605-629 | Expiring lapsed batches one at a time, in any order, expires exactly the lapsed ones and releases their unfinished members |
| `BatchStore.ExactReviewPublicationBatchStore.Claim` | dashboard/exact-review-publication-batches.ts:214-289 | The transaction with its candidate loop, rollback and empty-batch deletion is the transition ClaimLaw is about |
| `BatchStore.ExactReviewPublicationBatchStore.NextClaimGeneration` | dashboard/exact-review-publication-batches.ts:657-669 | The generation returned is one above the item's last, and is recorded |
| `BatchStore.ExactReviewPublicationBatchStore.Fetch` | dashboard/exact-review-publication-batches.ts:291-301 | Only the owner sees a batch, and only while it is leased or completed |
| `BatchStore.ExactReviewPublicationBatchStore.Heartbeat` | dashboard/exact-review-publication-batches.ts:303-342 | Succeeds only for a lease that has not lapsed and a list naming every unfinished member; the lease then runs at least to both its old and the requested expiry |
| `BatchStore.ExactReviewPublicationBatchStore.ActiveLeaseSnapshot` | dashboard/exact-review-publication-batches.ts:344-349 | With or without reclaiming, returns the snapshot SnapshotLaw is about |
| `BatchStore.ExactReviewPublicationBatchStore.ActiveLeases` | dashboard/exact-review-publication-batches.ts:631-655 | The rows in order, their distinct batches and least expiry are the snapshot SnapshotLaw is about |
| `BatchStore.ExactReviewPublicationBatchStore.OwnsFence` | dashboard/exact-review-publication-batches.ts:351-377 | True exactly when an unfinished member of a leased batch has the fence |
| `BatchStore.ExactReviewPublicationBatchStore.RecordObservation` | dashboard/exact-review-publication-batches.ts:379-406 | The first observation of a stage stays |
| `BatchStore.ExactReviewPublicationBatchStore.Complete` | dashboard/exact-review-publication-batches.ts:457-532 | The guarded updates, metadata and closing of a call are the transition AcceptedOnce and ReplayChangesNothing are about; a failing callback rolls everything back |
| `BatchStore.ExactReviewPublicationBatchStore.Stats` | dashboard/exact-review-publication-batches.ts:534-603 | Deletes the chosen batches with their members and returns the report StatsLaw and CleanupLaw are about |
| `IntakeLaws.RunLaw` | dashboard/exact-review-command-intake.ts:104-463 | Over every run, with any stale record: a version is queued exactly when its receipt is pending, at its comment's watermark timestamp; watermarks never go back; every journey has a receipt |
| `IntakeLaws.Reachable` | dashboard/exact-review-command-intake.ts:104-463 | From the empty store every run of valid steps ends with queue, receipts, watermarks and journeys in agreement |
| `IntakeLaws.NoInsertCollision` | dashboard/exact-review-command-intake.ts:206-232 | The plain inserts of an admission never hit an existing row |
| `IntakeLaws.AdmitLaw` | dashboard/exact-review-command-intake.ts:120-241 | A version is freshly admitted, queued and pending exactly under the guard on receipt and watermark; otherwise the queue is unchanged |
| `IntakeAnswers.FreshVersionAnswer` | dashboard/exact-review-command-intake.ts:188-241 | A fresh version is queued for verification at once with its journey; a newer one takes the watermark, supersedes every pending version of its comment and unqueues them, one at the watermark's time leaves both; no other row changes |
| `IntakeAnswers.KnownVersionAnswer` | dashboard/exact-review-command-intake.ts:110-137 | A version with a receipt is answered from it alone: with its journey while pending or completed, else refused with its detail |
| `IntakeAnswers.StaleVersionAnswer` | dashboard/exact-review-command-intake.ts:139-164 | A version below its comment's watermark, or at it, is refused as older or already observed and remembered as rejected, and nothing else changes |
| `IntakeLaws.OlderIsRefusedForever` | dashboard/exact-review-command-intake.ts:146-164 | A version older than its comment's watermark is never admitted afresh, whatever is pruned |
| `IntakeLaws.ReadmissionExactly` | dashboard/exact-review-command-intake.ts:139-164 | An admitted version is admitted afresh again exactly when its receipt is gone and the watermark is at its timestamp under another version |
| `IntakeLaws.ReadmissionHappens` | dashboard/exact-review-command-intake.ts:188-205 | Two versions with one timestamp, a rejection and a prune lead to a second admission of the same version |
| `IntakeLaws.NewerIsSole` | dashboard/exact-review-command-intake.ts:166-178 | After a newer version is admitted it is the only one queued and all others of the comment are superseded |
| `IntakeLaws.VerifiedIsSole` | dashboard/exact-review-command-intake.ts:273-310 | After a successful verification no other version of the comment is queued or pending |
| `IntakeAnswers.VerifiedExactly` | dashboard/exact-review-command-intake.ts:273-284 | Verification fails exactly when the comment's watermark is later than the version, and then changes nothing |
| `IntakeAnswers.QueuedIsVerified` | dashboard/exact-review-command-intake.ts:273-310 | A queued command is always verified: it takes its comment's watermark, stays queued and pending, and is current |
| `IntakeAnswers.VerifiedAlone` | dashboard/exact-review-command-intake.ts:256-271 | After a queued command is verified no other version of its comment past verification is current |
| `IntakeAnswers.VerifiedRows` | dashboard/exact-review-command-intake.ts:285-309 | Verification supersedes and unqueues exactly the other pending versions of the comment, and takes the watermark where it stands at the version's time |
| `IntakeLaws.TerminalStaysTerminal` | dashboard/exact-review-command-intake.ts:332-352 | Until it is pruned a terminal receipt stays terminal and its version is not queued again |
| `IntakeAnswers.PruneAnswer` | dashboard/exact-review-command-intake.ts:423-433 | Pruning drops exactly the settled receipts that are thirty days old and the journeys left without a receipt |
| `IntakeLaws.OutcomeKeptExactly` | dashboard/exact-review-command-intake.ts:332-352 | A step other than a prune keeps a terminal outcome exactly when it is not a finish of that version with another outcome |
| `IntakeLaws.OutcomeStays` | dashboard/exact-review-command-intake.ts:332-352 | Over a run without a prune a terminal outcome stays as long as no finish of the version names another |
| `IntakeLaws.OutcomeOverwritten` | dashboard/exact-review-command-intake.ts:332-352 | Three steps from the empty store finish a version as rejected and then as completed |
| `IntakeLaws.RedeliveredCommand` | dashboard/exact-review-command-intake.ts:110-137 | Until its receipt is pruned a command delivered again changes nothing and is answered with the journey of its admission, or refused once rejected or superseded |
| `IntakeLaws.DeferLaw` | dashboard/exact-review-command-intake.ts:354-385 | A deferral keeps the command queued, pending and at its stage, counts the attempt if asked to, and touches no other command |
| `IntakeAnswers.AdvanceAnswer` | dashboard/exact-review-command-intake.ts:312-330 | An advance puts the queued record at the stage with the decision, without attempts and due at once, and touches nothing else |
| `IntakeAnswers.FinishAnswer` | dashboard/exact-review-command-intake.ts:332-352 | A finish unqueues the version and writes outcome, time and detail into its receipt, and touches nothing else |
| `IntakeAnswers.RetryAnswer` | dashboard/exact-review-command-intake.ts:387-411 | A retry of verification returns the queued record to its first stage without its decision, counts an attempt, and waits its backoff; its note, cut to 500 characters, goes to a pending receipt only |
| `IntakeAnswers.DelayDoubles` | dashboard/exact-review-command-intake.ts:364-367 | The backoff doubles with each attempt from 15 seconds, up to 15 minutes |
| `IntakeAnswers.DeferUntilExactly` | dashboard/exact-review-command-intake.ts:368-375 | The time asked for is granted between the backoff and 15 minutes from now, and is otherwise the nearer of the two |
| `IntakeLaws.DelayBounds` | dashboard/exact-review-command-intake.ts:391-394 | The backoff grows with the attempts from 15 seconds to 15 minutes, reached by the seventh |
| `IntakeLaws.DeferBounds` | dashboard/exact-review-command-intake.ts:362-375 | Whatever retry time was asked for, a deferred command waits 15 seconds to 15 minutes |
| `IntakeLaws.AllocateLaw` | dashboard/exact-review-command-intake.ts:435-463 | A new revision is above the last one and every floor; allocation fails exactly when that would leave the safe integers |
| `IntakeAnswers.LeastRevision` | dashboard/exact-review-command-intake.ts:435-463 | The revision allocated is the least above the last one and every floor, and only the item's own row changes |
| `IntakeLaws.RevisionsIncrease` | dashboard/exact-review-command-intake.ts:435-463 | Revisions of one item strictly increase whatever happens between two allocations |
| `IntakeStore.ExactReviewCommandIntakeStore.Admit` | dashboard/exact-review-command-intake.ts:104-242 | The transaction is the transition AdmitLaw is about, and keeps the invariant |
| `IntakeStore.ExactReviewCommandIntakeStore.MarkVerified` | dashboard/exact-review-command-intake.ts:273-310 | Refuses versions below the watermark; otherwise takes the watermark and supersedes the siblings |
| `IntakeStore.ExactReviewCommandIntakeStore.Advance` | dashboard/exact-review-command-intake.ts:312-330 | Changes only the progress of the stored record, if there is one |
| `IntakeStore.ExactReviewCommandIntakeStore.Finish` | dashboard/exact-review-command-intake.ts:332-352 | Settles the receipt and removes the version from the queue, keeping the invariant |
| `IntakeStore.ExactReviewCommandIntakeStore.Defer` | dashboard/exact-review-command-intake.ts:354-385 | Reschedules the stored record, not the caller's stale copy, and notes it on a pending receipt only |
| `IntakeStore.ExactReviewCommandIntakeStore.RetryVerification` | dashboard/exact-review-command-intake.ts:387-411 | Sends the stored record back to verification without its decision |
| `IntakeStore.ExactReviewCommandIntakeStore.PruneTerminalReceipts` | dashboard/exact-review-command-intake.ts:423-433 | Drops exactly the terminal receipts past retention and the journeys left without one |
| `IntakeStore.ExactReviewCommandIntakeStore.AllocateItemRevision` | dashboard/exact-review-command-intake.ts:435-463 | The two updates are the allocation AllocateLaw is about, the bump staying even when it is refused |
| `ProofLaws.RunSound` | dashboard/command-proof-requests.ts:48-306 | In every reachable state at most one record is active, targets are unique, each batch has one result per index and at most the claim count, started means an outstanding claim, and review is reached only with all results |
| `ProofLaws.RunRetains` | dashboard/command-proof-requests.ts:293-306 | Until its retention ends a record is kept, its identity, deadline, plan and results only extend, and a terminal state is never left for an active one |
| `ProofLaws.DispatchedOnce` | dashboard/command-proof-requests.ts:48-125 | A human command version is told to dispatch at most once, ever, given a clock that does not run back |
| `ProofLaws.DispatchCreates` | dashboard/command-proof-requests.ts:106-123 | Dispatch is answered exactly with the creation of the record, and only for a target not retained |
| `ProofAnswers.NewTargetAnswer` | dashboard/command-proof-requests.ts:96-123 | A claim of an unknown command version is dispatched with a new one-hour record unless a record is active, and is then refused as busy |
| `ProofAnswers.KnownTargetAnswer` | dashboard/command-proof-requests.ts:70-95 | A new request for a known command version is answered from that version's record exactly when its binding is the same, and refused otherwise |
| `ProofAnswers.KnownRequestAnswer` | dashboard/command-proof-requests.ts:58-62 | A known request is answered from its record exactly when the whole claim is the same |
| `ProofAnswers.OldClaimExactly` | dashboard/command-proof-requests.ts:49-55 | A claim is refused unread exactly when its command is older than a day or more than a minute ahead of the clock |
| `ProofAnswers.SameTargetExactly` | dashboard/command-proof-requests.ts:63-69 | Two claims are of one command version exactly when repository, pull request, comment, time and body agree |
| `ProofAnswers.ExpireAnswer` | dashboard/command-proof-requests.ts:293-306 | A record goes thirty days after its deadline; an active one ends at its deadline as inconclusive, without a retry time |
| `ProofLaws.BatchRunsThrough` | dashboard/command-proof-requests.ts:225-253 | A planned batch started and answered claim by claim keeps every result in order and is in review after the last one and not before |
| `ProofAnswers.BatchRun` | dashboard/command-proof-requests.ts:216-263 | From its plan a batch is started and answered claim by claim, can be handed on exactly when all results are in, and is then completed with all of them in order |
| `ProofAnswers.SingleProofRun` | dashboard/command-proof-requests.ts:264-283 | A single proof goes from claim to dispatch, review and completion, completed exactly by the digest of the proof that was verified, which can be repeated but not changed |
| `ProofAnswers.VerifiedAnswer` | dashboard/command-proof-requests.ts:271-276 | An active record without a batch or another result takes a proof and is in review |
| `ProofAnswers.EnqueuedAnswer` | dashboard/command-proof-requests.ts:254-283 | A record in review is completed exactly by its result's digest, or as a planned batch by its own operation |
| `ProofAnswers.DispatchedAnswer` | dashboard/command-proof-requests.ts:210-267 | A run is taken by an active record, by a batch only for the claim under way, and never in place of another run |
| `ProofAnswers.GiveUpAnswer` | dashboard/command-proof-requests.ts:268-270 | Giving up ends an active record as inconclusive with the reason given |
| `ProofAnswers.PlanAnswer` | dashboard/command-proof-requests.ts:216-224 | A plan is taken by a batch without one exactly when each scenario has a claim of its own; one without scenarios ends the record |
| `ProofAnswers.BatchStartAnswer` | dashboard/command-proof-requests.ts:225-232 | A start is taken exactly at the cursor while nothing is under way |
| `ProofAnswers.BatchResultAnswer` | dashboard/command-proof-requests.ts:233-256 | A result is taken exactly for the claim under way; it clears the run and moves the cursor, and the last one leads to review |
| `ProofAnswers.DeferAnswer` | dashboard/command-proof-requests.ts:185-198 | A deferral to a later time is always granted and writes that time alone |
| `ProofAnswers.SettledAnswer` | dashboard/command-proof-requests.ts:199-209 | A settled record answers everything else with itself, noting its notification |
| `ProofAnswers.ActiveRefuses` | dashboard/command-proof-requests.ts:284-284 | An active record refuses notifications, past deferrals and malformed payloads |
| `ProofAnswers.UpdateAnswer` | dashboard/command-proof-requests.ts:178-292 | What an operation answers is what is written under the request's id, after expiry, and nothing else changes |
| `ProofLaws.ResultOnce` | dashboard/command-proof-requests.ts:233-240 | A result delivered again, or out of turn, is refused |
| `ProofLaws.UpdatedSound` | dashboard/command-proof-requests.ts:178-290 | Every operation on a record keeps its cursor, results and states consistent and moves it only forward |
| `ProofLaws.ReviewSound` | dashboard/command-proof-requests.ts:133-166 | Completing an admitted review, also past the deadline, completes only records with all results and keeps the invariant |
| `ProofAnswers.ReviewAnswer` | dashboard/command-proof-requests.ts:133-166 | An admitted review completes exactly a record in review, or ended by its deadline alone, that it concerns in all eight particulars and whose results are in |
| `ProofStore.CommandProofRequestStore.Claim` | dashboard/command-proof-requests.ts:48-125 | One active record at a time; a known identity or target is answered from its record or refused |
| `ProofStore.CommandProofRequestStore.Update` | dashboard/command-proof-requests.ts:178-292 | The record changed in place and written back is the update UpdatedSound is about |
| `ProofStore.CommandProofRequestStore.Apply` | dashboard/command-proof-requests.ts:210-284 | The chain of conditions takes for each operation the branch its own conditions name |
| `ProofStore.CommandProofRequestStore.CompleteAdmittedReview` | dashboard/command-proof-requests.ts:133-166 | Completes exactly the record whose claim the review decision matches and whose results are complete |
| `EtagCache.StoreLaw` | dashboard/github-etag-cache.ts:146-186 | Every store leaves what a store counting its rows would leave: the cleaned table with the new row, less the oldest rows beyond 2,048 |
| `EtagCache.RunLaw` | dashboard/github-etag-cache.ts:48-53 | In every reachable state, rolled-back stores included, the cached count is absent or the number of rows, and the table is within its cap |
| `EtagCache.CapLaw` | dashboard/github-etag-cache.ts:292-312 | Evicting by the cached count is evicting by the size, and ends within the cap |
| `EtagCache.OldestLaw` | dashboard/github-etag-cache.ts:303-310 | The evicted rows are the least by validation time and key |
| `EtagCache.CleanupKeepsCount` | dashboard/github-etag-cache.ts:272-290 | Cleanup deletes only expired rows and keeps the cached count right whichever of the ties it deletes |
| `EtagCache.StoredRowSurvives` | dashboard/github-etag-cache.ts:183-198 | The row just stored is evicted exactly when the table was full and no other row precedes it by validation time and key |
| `EtagCache.StoredRowEvicted` | dashboard/github-etag-cache.ts:303-310 | A full table validated in one millisecond evicts a new row with the least key, without the clock going back |
| `EtagLifetimes.StoredIsServed` | dashboard/github-etag-cache.ts:90-113 | A stored response is served as stored for thirty days while its row is there |
| `EtagLifetimes.ConfirmExactly` | dashboard/github-etag-cache.ts:201-250 | A confirmation is accepted exactly for the tag and digest of a response still served |
| `EtagLifetimes.ConfirmedIsServed` | dashboard/github-etag-cache.ts:201-250 | It serves the same response for thirty days more and touches nothing else |
| `EtagLifetimes.KeptAlive` | dashboard/github-etag-cache.ts:201-250 | A response confirmed within every thirty days is kept, unchanged, for as long as that goes on |
| `EtagLifetimes.CleanupExactly` | dashboard/github-etag-cache.ts:272-290 | Cleanup runs at most once a minute and deletes min(128, expired) rows, those that expired first |
| `EtagLifetimes.RecountExactly` | dashboard/github-etag-cache.ts:292-300 | Every store leaves a right count, taken anew on the 64th store or when it was missing |
| `EtagLifetimes.RecountsOften` | dashboard/github-etag-cache.ts:292-300 | Over every run at most 64 stores go by between two counts |
| `EtagCache.GithubEtagResponseStore.LookupEntry` | dashboard/github-etag-cache.ts:90-113 | Returns an entry only while it is valid, and cleanup never takes one that is |
| `EtagCache.GithubEtagResponseStore.StoreEntry` | dashboard/github-etag-cache.ts:115-199 | A failed store leaves the table as it was and forgets the count; a successful one is the store StoreLaw is about |
| `EtagCache.GithubEtagResponseStore.Confirm` | dashboard/github-etag-cache.ts:201-250 | A confirmed answer carries the very bytes the caller's digest names, and only for a valid entry with its tag |
| `EtagCache.GithubEtagResponseStore.EnforceEntryCap` | dashboard/github-etag-cache.ts:292-312 | Reconciles the count when it is missing or 64 stores old and evicts the overflow |
| `Automerge.TerminalIsImmutable` | dashboard/automerge-metrics.ts:251-254 | An event put anywhere into a session leaves its terminal time and outcome alone unless it is a terminal event ahead of the first one |
| `Automerge.FirstIsEarliest` | dashboard/automerge-metrics.ts:247-254 | Stable sorting by time and taking the first of a phase is taking the earliest delivery, the first on ties |
| `Automerge.ProjectExactly` | dashboard/automerge-metrics.ts:243-275 | A session is activated and ended at its earliest such events with that end's outcome, last seen at its latest event, and has a base sync for each repair completed with one, whatever the order of delivery |
| `Automerge.SortKeeps` | dashboard/automerge-metrics.ts:248-248 | Sorting is a permutation into ascending time |
| `Automerge.ProjectSessions` | dashboard/automerge-metrics.ts:243-275 | Groups by session in order of first appearance, each session once with exactly its events |
| `Automerge.BucketSums` | dashboard/automerge-metrics.ts:140-163 | Bucket counts of terminal and of merged sessions sum to those of the range |
| `Automerge.ExactlyOneBucket` | dashboard/automerge-metrics.ts:141-146 | Each moment of the range lies in exactly one bucket, and no other moment in any |
| `Automerge.FillBuckets` | dashboard/automerge-metrics.ts:140-163 | The bucket loop yields the buckets BucketSums and ExactlyOneBucket are about |
| `Automerge.CountOutcomes` | dashboard/automerge-metrics.ts:164-166 | Each outcome is counted as often as it occurs, and the counts sum to the terminal sessions |
| `Automerge.MergedIsOutcome` | dashboard/automerge-metrics.ts:155-166 | The sessions a bucket counts as merged are those whose outcome is counted as merged; without an outcome it counts as unknown |
| `Automerge.PercentileIsNearestRank` | dashboard/automerge-metrics.ts:277-281 | A percentile is one of the values, at least its rank of values are no larger and fewer than its rank are smaller |
| `Automerge.PercentilesAscend` | dashboard/automerge-metrics.ts:277-281 | A higher quantile is never smaller, so p50 is at most p90 |
| `DecimalIdentifiers.CompareIsNumeric` | dashboard/exact-review-decision.ts:645-652 | The sign of the comparison is the sign of the numeric difference, for any length and any leading zeros |
| `DecimalIdentifiers.NewerIsLexicographic` | dashboard/exact-review-decision.ts:634-643 | A producer is newer exactly by run number, then attempt |
| `DecimalIdentifiers.NewerIsStrictWeakOrder` | dashboard/exact-review-decision.ts:634-643 | Irreflexive, asymmetric and transitive, with incomparable producers interchangeable |
| `RetryBudget.RetryBudgetLaw` | dashboard/exact-review-publication-retry.ts:17-35 | One failure repeated stops by attempt 48 (14 unknown, 3 permanent) but never before 13,620 s (3,420 s, 360 s) after the first, for every item key; a missing artifact never stops |
| `RetryBudget.DelayBounds` | dashboard/exact-review-publication-retry.ts:37-56 | Every wait lies between one minute and 1.2 times its cap, for every item key and attempt |
| `RetryBudget.ElapsedAtLeast` | dashboard/exact-review-publication-retry.ts:43-56 | The n-th failure comes no earlier than the sum of the base delays before it |
| `RetryBudget.BaseDelayDoubles` | dashboard/exact-review-publication-retry.ts:42-49 | Base delays start at a minute and double up to five minutes, an hour under a rate limit; after a permanent failure they are five minutes |
| `RetryBudget.DelayExactly` | dashboard/exact-review-publication-retry.ts:50-55 | The wait is the base delay and floor of 0 to 20 hundredths of it, fixed by the hash of item key, colon and attempt |
| `RetryBudget.HashIsPolynomial` | dashboard/exact-review-publication-retry.ts:50-53 | Cutting to 32 bits at every character is cutting the whole polynomial in 33 once |
| `RetryBudget.DecimalIsValue` | dashboard/exact-review-publication-retry.ts:50-50 | The attempt is hashed as its decimal digits without a leading zero |
| `RetryBudget.ExhaustedExactly` | dashboard/exact-review-publication-retry.ts:17-35 | Retrying ends after 14 attempts or an hour when unknown, 48 or a day when transient, 3 when permanent, and for a missing artifact never |
| `Der.LengthRoundTrip` | dashboard/github-api.ts:345-354 | A length is read back as written by a strict shortest-form parser exactly when it is below 2^31 |
| `Der.OctetsAreBase256` | dashboard/github-api.ts:347-352 | Below 2^31 the length octets are the value in base 256 without a leading zero |
| `Der.ElementRoundTrip` | dashboard/github-api.ts:341-343 | An encoded element is parsed back to its value, with whatever follows it left over |
| `Der.WrapRoundTrip` | dashboard/github-api.ts:332-339 | The wrapped key parses as a PrivateKeyInfo whose octet string is exactly the input, if and only if the body is shorter than 2^31 bytes |
| `Der.EncodeLength` | dashboard/github-api.ts:345-354 | The loop over 32-bit shifts terminates with the octets LengthRoundTrip is about |
| `Der.ConcatBytes` | dashboard/github-api.ts:356-365 | The buffer filled at running offsets is the concatenation of the parts |
| `Der.FlattenConcat` | dashboard/github-api.ts:356-365 | Concatenation loses nothing and keeps the order, however the parts are grouped |
| `Der.ElementIsFlattened` | dashboard/github-api.ts:341-343 | An element is tag, length and value concatenated |
| `Coverage.ProjectFleet` | dashboard/exact-review-direct-publication.ts:2255-2316 | Open is excluded plus reviewable, reviewable is reviewed plus stale plus failed plus pending, pending is expired plus unreviewed plus untracked, and open is tracked minus drift plus untracked with never both; each class gets what the earlier ones left |
| `Coverage.UnclippedWhenAllOpen` | dashboard/exact-review-direct-publication.ts:2282-2294 | With at least as many open items as records every class comes through unclipped |
| `Coverage.RecordAges` | dashboard/exact-review-direct-publication.ts:697-710 | Time alone moves a record only between reviewed and expired: reviewed from its review date until the window has passed, expired before and ever after |
| `Coverage.ClassExactly` | dashboard/exact-review-direct-publication.ts:697-710 | Protected labels exclude a record whatever its review; otherwise status and review date alone decide its class, independent of the order of the tests |
| `Coverage.CoverageAges` | dashboard/exact-review-direct-publication.ts:697-710 | With nothing published between two reports and no review dated ahead of the first, the reviewed records can only become expired, and no other class changes |
| `Coverage.ClassifyRows` | dashboard/exact-review-direct-publication.ts:675-718 | The fleets hold, per repository and class, the number of its rows whose labels, status and review time put them there, and every row once |
| `Coverage.ReviewCoverage` | dashboard/exact-review-direct-publication.ts:719-781 | The same balances hold for the totals; tracked plus unschedulable is every row read; with an inventory the open total is the inventory's and the unschedulable records are those of repositories it lacks; without one every row is open and in its class |
| `Coverage.WithInventory` | dashboard/exact-review-direct-publication.ts:722-736 | Repositories known only to the inventory are added without adding records |

## Left out

- Text and JSON: content is a byte sequence; UTF-8 and base64 conversion, front-matter parsing and the JSON form of rows are not modelled. Response sizes are a parameter of the export.
- Byte-order marks outside `ByteOrderMarks`: all other modules take content as decoded bytes that do not start with one.
- Coverage: label case folding, date parsing, the display name of a repository, the oldest review date of a fleet and the order of fleets.
- Digests: a record's or commit's digest arrives with its validated operation. The ETag cache takes the hash as an arbitrary function.
- Field-by-field validators of plans, mutations, commits, intakes, claims and inventories: their results are preconditions, no stronger than the laws need (the mutation validator also refuses a closed record with a plan and sidecars without a primary; no law needs that).
- Whether a live primary refers to its decision packet is a flag of the operation, not read from its text.
- The delivery id and record contents repeated in a mutation conflict, beyond digests, revision and contents of the four sections.
- Schema creation and migration, legacy proof rows with old target keys, and plan rows imported in unfinished states.
- Listing, counting and health queries; observability and telemetry columns of batches other than the observed stages; the observability listing; the attempt column, which is always 1.
- The order of items inside a reported batch: views are maps by item key.
- The `due` and `nextAttemptAt` queries of the command intake: its laws hold for any records, current or stale, passed to the operations. Attempt counters are unbounded. Lower-casing of repository and item keys is done by the caller.
- Identity strings of commands and comments are modelled as their parts; two claims that differ only in the order of their JSON fields count as equal.
- Metrics table of the ETag cache, its format checks, and failures of statements outside the store transaction.
- RetryBudget.DelayBounds: the jitter product is exact; the floating-point product may be one millisecond smaller, which no stated bound depends on.
- Automerge.PercentileIsNearestRank: quantiles are tenths and the rank is exact, as the floating-point product is for 0.5 and 0.9.
- Automerge: ledger filters, URLs, recent-session lists, rates in percent and the coverage percentage.
- DecimalIdentifiers.CompareIsNumeric: locale comparison of equally long digit strings is taken as comparison by digits.
- Network, object storage, JWT signing, WebCrypto, pages and browser code.
- The apply-observability "latest" selection, whose comparison is not transitive, and the artifact cache, which interleaves around awaited bucket calls.
