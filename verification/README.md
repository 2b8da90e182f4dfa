# A verified model of the private backup cache

The service stores opaque encrypted blobs in append-only logs, one log for each account, device and
generation. A client uploads a blob with one signed header; the server checks the proof from that
header alone, streams the body into storage while hashing it, and keeps nothing if the bytes do not
have the signed digest.

This project models that path in Dafny, from the client's proof to the two stores and back, and
proves what it guarantees. `dafny verify dfyconfig.toml` checks everything.

## How it is laid out

| files | what they model |
|---|---|
| `Base`, `BlobKeys`, `AtomicLog`, `Sorting` | vocabulary; blob addresses; the specification, an append-only log with atomic operations |
| `PostgresModel`, `PostgresIntegrity`, `PostgresReads`, `PostgresRefinement`, `PostgresRetention`, `PostgresCounterexamples`, `PostgresQueries` | the PostgreSQL store as a transition system, one step a statement, what holds over all interleavings, and its two listing queries |
| `ChunkLoop`, `PostgresCalls`, `PostgresStore` | the chunk loop, what a call may do to the tables, and the PostgreSQL store's methods, run against those tables while others interfere |
| `MemoryRows`, `MemoryStore`, `LogQueries`, `Tenancy` | the in-memory store as a class; index and manifest; tenants |
| `Readers`, `ResponseGuard` | the readers around a request body, and the guard around the response |
| `Decimal`, `Encodings` | numbers in text, row keys, the signed action, the signed bytes |
| `NonceStores`, `AuthProof`, `Admissions` | single use of nonces, proof checking, and both over time |
| `UploadRoute`, `PostgresRoute`, `Client`, `EndToEnd` | the upload route on the in-memory and on the PostgreSQL stores, the client that drives it, and the two put together over whole runs |
| `HonestUploads`, `KnownAnswers` | what an honest client gets, through all the layers; constants and texts spelled out |

The classes follow the source's own objects: fields are reassigned, map loops run in any order, and a
store method is tied to a function or relation on values about which the theorems are proved. SHA-256
is a parameter `H` about which nothing is assumed; so are the wallet's signature check and the
decoding of the header. A transport is an arbitrary script of (bytes, error) answers. Times are
nanoseconds.

In the PostgreSQL model a statement sees what is committed when it starts (READ COMMITTED, section
13.2.1 of the PostgreSQL manual), a Get sees one snapshot (REPEATABLE READ, section 13.2.2), an
insert of a primary key that another open transaction holds is not enabled, and a DELETE is two
steps, its snapshot and its effect. What other transactions do before each statement of a method is
an arbitrary schedule; each call keeps a record of its own statements and of the others' turns.

## Where the code does less than it says

Each of these fails on inputs that a lemma names, and for each the exact condition under which it
holds is proved, as an if and only if.

- `internal/nonce/nonce.go:14` says that Consume answers true exactly once for each nonce. That holds
  if and only if no nonce comes back after the expiry its first use recorded
  (`NonceStores.InMemorySingleUse`); under the same condition, and no weaker one, the two nonce
  stores agree under every pattern of sweeps (`NonceStores.StoresAgreeExactly`). Verify and Consume
  read the clock separately, so a proof delivered twice can be admitted twice, exactly when the second
  Consume runs after its expiry (`Admissions.LateConsumeIsAdmitted`); `docs/authproof-protocol.md:59`
  promises single use without that proviso.
- `internal/nonce/nonce.go:33` says that the records are those of proofs minted within one validity
  window. After a Consume, each record goes back to a proof verified within the last window and skew
  if and only if that Consume refused, or its own proof was verified that recently
  (`Admissions.RecordsAreRecentExactly`); a Consume that comes later than that after its Verify leaves
  an older record, for every request whose proof holds (`Admissions.LateConsumeLeavesOldRecord`).
- `docs/authproof-protocol.md:77` says that a body that does not hash to the signed digest is
  aborted. The PostgreSQL store takes `io.ErrUnexpectedEOF` from the body itself for the end of the
  body (`internal/blobstore/postgres.go:147`). Of a transport that never answers EOF, what was
  delivered is checked if and only if reading does not get to an `io.ErrUnexpectedEOF` within the cap
  other than with bytes that fill a chunk, in which case `io.ReadFull` drops it
  (`ChunkLoop.CutBodyIsUnchecked`); `ChunkLoop.DigestCheckedExactly` says the same of every transport
  whatever. A body in any fragments, stopped by an `io.ErrUnexpectedEOF` that stays, as net/http's
  errors do, is accepted, all of it and under every signed digest, if and only if it is within the
  cap (`ChunkLoop.StayingCutIsAcceptedExactly`). The in-memory store checks the digest whatever the transport does
  (`Readers.CollectedBodyIsSigned`).
- `internal/blobstore/postgres.go:345` keeps the two newest generations. The guard reads the newest
  generation outside the deleting transaction. A commit makes a device lose its newest generation if
  and only if it is that of an erasure, or of a prune of that very generation, and it holds all of that
  generation's log rows (`PostgresRetention.LosesNewestExactly`); over whole runs the newest generation
  never falls if and only if no such commit occurs (`PostgresRetention.RetentionExactly`), and, as long
  as it has not fallen, only erasures and prunes whose guard read no row can make it
  (`PostgresRetention.UnguardedExactly`). Such a prune can empty a device whose first upload lands in
  between (`PostgresCounterexamples.UnguardedPruneCanEmptyADevice`); after an erasure so can one whose
  guard did read a row (`PostgresCounterexamples.StaleGuardCanEmptyADevice`). Generation numbers may be
  sparse, so that two generations always survive is not claimed.
- `internal/blobstore/postgres.go:101` promises contiguous logs. From tables that are in order, the
  commit of an append keeps them so if and only if its predecessor is still logged
  (`PostgresRefinement.AppendKeepsTablesExactly`), and the commit of a delete if and only if it holds
  the chunk rows of all the log rows it takes and takes none from below one it leaves
  (`PostgresRefinement.DeleteKeepsTablesExactly`); a whole run keeps a log in order if and only if all
  its commits do (`PostgresRefinement.WholeExactlyIfCommitsSafe`). A DELETE that overlaps an append on
  the same log can leave it without its first entry, or leave orphan chunk rows
  (`PostgresCounterexamples.OverlapCanLoseTheFirstEntry`, `OverlapCanOrphanChunks`), and then no append
  commits at the first slot until a delete has run (`PostgresCounterexamples.OrphansBlockTheSlot`).
  Without such overlap on a log, that log refines the atomic log, whatever happens on others.
- `docs/authproof-protocol.md:72` says that an oversize body is answered 413 before authentication is
  attempted. That is so for a declared length. An undeclared, chunked body is only counted as it is
  read, so it is answered 413 if and only if the request is admitted, addressable and next in its log
  by the first check; the others are answered 401, 415, 400 or 409 with their body unread
  (`UploadRoute.UndeclaredOverrunExactly`; `UploadRoute.UnprovenIsAnswered401` is the family without a
  proof, `UploadRoute.OversizeCanBeAnswered401` one such upload).

## Model

| member | source | states |
|---|---|---|
| PostgresIntegrity.StepKeepsIntegrity | internal/blobstore/postgres.go:105-167 | Every statement of every transaction, commits, conflicts and rollbacks included, keeps the tables whole: each committed chunk or log row belongs to an upload all of whose chunk rows are there, no two open transactions hold the same row, and every open reader still holds what it promised |
| PostgresIntegrity.ReachableKeepsIntegrity | internal/blobstore/postgres.go:105-407 | The same in every state that any interleaving of any number of transactions reaches |
| PostgresIntegrity.ChunksOfOneAppend | internal/blobstore/postgres.go:139-143 | All chunk rows under a logged key were written by the append that wrote the log row; chunks of different uploads never mix |
| PostgresIntegrity.ScanReturnsUpload | internal/blobstore/postgres.go:220-224 | SELECT ... ORDER BY idx over a logged key returns that upload's chunks, all of them and in order |
| PostgresReads.EveryLoggedBlobIsComplete | internal/blobstore/postgres.go:132-167 | In every reachable state each log row has exactly the chunk rows 0..ceil(size/ChunkBytes)-1, full but for the last and none empty, and their concatenation has that row's size and digest |
| PostgresReads.GetStreamsWhatItPromised | internal/blobstore/postgres.go:200-231 | A Get opened in any reachable state sends a prefix of the blob it found at every moment, and once drained all of it, of the promised size and digest, whatever commits meanwhile |
| PostgresReads.GetsTouchNothingElse | internal/blobstore/postgres.go:200-270 | A Get says not found exactly of what has no log row; opening, reading and closing one touch no table, no transaction and no other Get |
| PostgresReads.ReadingDrains | internal/blobstore/postgres.go:240-261 | For every sequence of non-empty buffers, enough of them, reading ends with EOF and has delivered everything |
| PostgresReads.ChunkReader.Read | internal/blobstore/postgres.go:240-261 | One Read hands out the next bytes of what remains and nothing else, skips drained rows and makes progress; it ends only when nothing remains, with EOF, or with the error of rows.Err or Scan if the result set broke, and stays there |
| PostgresReads.CopyAll | internal/server/handlers/read.go:119-122 | Copying out of the reader with any buffer size terminates and delivers all the rows that could be fetched, and reports an error exactly if the result set broke |
| PostgresCalls.UncommittedLeavesTables | internal/blobstore/postgres.go:98-166 | A call of Append whose transaction is not committed has not touched the tables: whatever changed in them meanwhile others have changed |
| PostgresCalls.InterferedIsRun | internal/blobstore/postgres.go:105-167 | What other transactions can do before a statement is anything: every run of steps that are not this transaction's is such a turn |
| PostgresModel.PrevReadsBack | internal/blobstore/postgres.go:409-414 | The nullable column gives back exactly the predecessor digest it was given, and is NULL for the empty string only |
| PostgresRefinement.ConflictIsStale | internal/blobstore/postgres.go:169-183 | Without overlapping deletes on a log, a primary-key conflict on it is met only where the head check would refuse as well: both losers are in the same situation |
| PostgresRefinement.StepRefines | internal/blobstore/postgres.go:116-183 | For one log or for all: each statement is one atomic-log operation with that operation's answer, or changes neither table |
| PostgresRefinement.RunRefinesAtomicLog | internal/blobstore/postgres.go:98-166 | Every run without overlapping deletes on a log, whatever happens on other logs: the atomic log gives every event on it the answer its caller heard and ends in the stored log, which is exactly 1..n, and chunk rows exist for logged blobs only |
| PostgresRefinement.KeyAndPrevStay | internal/blobstore/postgres.go:105-167 | As long as an append is open its entry and its predecessor digest are those of the head check that opened it; it is with these that the run above appends |
| PostgresRefinement.AnswersAreEvents | internal/blobstore/postgres.go:116-183 | Every answer a caller hears is an event of that run: a commit with the bytes streamed, their digest and the caller's predecessor digest, a refusal, a conflict, a count, a retention refusal |
| PostgresRefinement.EventsArePossibleExactly | internal/blobstore/blobstore.go:79-107 | An event is possible exactly where the atomic operation gives the very answer the event stands for, a retention refusal where the generation is one of the two retained |
| PostgresRefinement.AppendKeepsTablesExactly | internal/blobstore/postgres.go:101-166 | The commit of an append keeps every entry preceded and every chunk row logged, in one log or in all, if and only if its own predecessor is still logged |
| PostgresRefinement.DeleteKeepsTablesExactly | internal/blobstore/postgres.go:352-407 | The commit of a delete does so if and only if it holds all chunk rows of the log rows it takes, and takes none from below one it leaves |
| PostgresRefinement.WholeExactlyIfCommitsSafe | internal/blobstore/postgres.go:101-166 | Over every run: a log is in order in every state passed if and only if every commit on the way meets its condition |
| PostgresRetention.PruneTakesOldRowsOnly | internal/blobstore/postgres.go:338-377 | A prune whose guard read a row, the device not having lost its newest generation since, removes rows of its generation only, and each of them two or more below a generation that stays, whatever other deletes are open |
| PostgresRetention.NewestGenerationNeverDecreases | internal/blobstore/postgres.go:338-377 | In every run without erasure of the device's account in which the device's own prunes all read a row, stale or not, its newest generation never decreases and it is never emptied, whatever happens to other devices |
| PostgresRetention.LosesNewestExactly | internal/blobstore/postgres.go:338-407 | In every state a step lowers a device's newest generation if and only if it commits an erasure of its account, or a prune of that generation, and holds all of that generation's log rows |
| PostgresRetention.RetentionExactly | internal/blobstore/postgres.go:338-407 | Over every run from any state the newest generation never falls if and only if no such commit occurs |
| PostgresRetention.FirstLossIsUnguarded | internal/blobstore/postgres.go:338-349 | As long as the guards that read a row still hold, which they do until the device is lowered, such a commit is that of an erasure or of a prune whose guard read no row |
| PostgresRetention.UnguardedExactly | internal/blobstore/postgres.go:338-407 | Over every run from such a state the newest generation never falls if and only if no such commit of an erasure or of an unguarded prune occurs |
| PostgresCounterexamples.OverlapCanLoseTheFirstEntry | internal/blobstore/postgres.go:384-407 | For every log: a reachable quiescent state in which it holds entry 2 and not entry 1, because an erasure overlapped an append |
| PostgresCounterexamples.OverlapCanOrphanChunks | internal/blobstore/postgres.go:384-407 | For every log: a reachable quiescent state with chunk rows and no log row |
| PostgresCounterexamples.OrphansBlockTheSlot | internal/blobstore/postgres.go:139-143 | While an orphan chunk sits on a slot and no delete begins, no append ever commits at that slot |
| PostgresCounterexamples.UnguardedPruneCanEmptyADevice | internal/blobstore/postgres.go:338-349 | For every log: a run in which a prune whose guard read found nothing empties the device |
| PostgresCounterexamples.StaleGuardCanEmptyADevice | internal/blobstore/postgres.go:338-349 | For every log: a run in which a prune whose guard read a row two generations up empties the device, which was erased and started anew in between |
| ChunkLoop.CutBodyStep | internal/blobstore/postgres.go:132-153 | For every transport and from any point of the loop: the chunks kept are the bytes read, full but for the last and none empty; a normal end means no overrun and, if the transport never answers io.ErrUnexpectedEOF, the signed digest |
| ChunkLoop.ChunkedBodyIsSigned | internal/blobstore/postgres.go:132-158 | If the loop ends normally the chunks hold exactly what was delivered, within the cap, and have the signed digest unless reading stopped at an io.ErrUnexpectedEOF, which always ends it normally |
| ChunkLoop.HonestUploadIsJudged | internal/blobstore/postgres.go:135-153 | The other direction: a body delivered in full, in whatever fragments, is cut whole if it is within the cap and of the signed digest, and otherwise refused as too large or as mismatched, although ReadFull drops an error that comes with the bytes that fill the buffer |
| ChunkLoop.CutBodyExactly | internal/blobstore/postgres.go:132-153 | For every transport, fragmentation and cap: the loop comes to what the answers, judged one by one without buffers, amount to, errors that ReadFull drops included |
| ChunkLoop.StoppedUploadIsJudged | internal/blobstore/postgres.go:147-149 | What becomes of a body that is delivered and then stopped by an error, after which the transport is at its end: refused for it, judged by its digest, or, if it is io.ErrUnexpectedEOF and not dropped, accepted whole under every signed digest |
| ChunkLoop.DigestCheckedExactly | internal/blobstore/postgres.go:147-149 | For every transport whatever: the digest of what was delivered is checked if and only if reading does not get to an io.ErrUnexpectedEOF within the cap, or EOFs that ReadFull dropped on the way have it checked all the same |
| ChunkLoop.CutBodyIsUnchecked | internal/blobstore/postgres.go:147-149 | Of a transport that never answers EOF, by lengths and errors alone: checked if and only if reading does not get to an io.ErrUnexpectedEOF within the cap that is not dropped |
| ChunkLoop.StayingCutExactly | internal/blobstore/postgres.go:147-149 | A body stopped by an io.ErrUnexpectedEOF that stays gets there if and only if it is within the cap, dropped error or not |
| ChunkLoop.StayingCutIsAcceptedExactly | internal/blobstore/postgres.go:147-149 | Such a body is accepted, all of it and under every signed digest, if and only if it is within the cap |
| ChunkLoop.CutOverrunsExactly | internal/server/server.go:155-163 | For every transport: the guard is flagged exactly if what the loop draws from it, up to where the loop stops of itself, exceeds the cap |
| ChunkLoop.HonestIsDrawn | internal/blobstore/postgres.go:135-153 | Of a body that is delivered in full that is all of it |
| PostgresStore.Store.Append | internal/blobstore/postgres.go:105-183 | Under every schedule of other transactions and failures all that the call does is on record and leads from the old state to the new: the others' turns, each once and in order, the head check that opens one transaction, and statements of that transaction. Success means that no statement failed and the log row and the chunks the body was cut into are committed under it, the row with the predecessor digest as the caller gave it, NULL exactly if that is empty; a conflict, that this very run met one, at the head check or as 23505; an error, that on this very run the statement that was next failed or was still waiting for a row another transaction holds, or that its COMMIT landed and only the answer was lost; any answer but success and that last leaves no row of the transaction. Undisturbed the answer is the atomic log's, and the tables are the old ones, with exactly this log row and these chunk rows more if it is stored |
| PostgresStore.Store.StreamBody | internal/blobstore/postgres.go:132-158 | The chunk loop inside a transaction inserts exactly the chunks of the body, none of its inserts failing, and returns their digest and size, or stops, leaving no row, for the body's own error, for a conflict met on this run, or because its next insert failed or was still waiting; undisturbed it stops for the body's error only |
| PostgresStore.StoredUploadIsSigned | internal/blobstore/postgres.go:132-166 | For every transport: what Append reports as stored is exactly what was delivered, is not empty and within the cap, and has the signed digest unless reading stopped at an io.ErrUnexpectedEOF |
| PostgresStore.UndisturbedUploadIsAnswered | internal/blobstore/postgres.go:105-167 | Undisturbed and for every transport, an upload is answered as the atomic log would for the body its answers amount to, or refused for the reason that applies |
| PostgresStore.ChunkedRoundTrip | internal/blobstore/postgres.go:132-153 | Chunked writing then chunked reading is the identity on what was delivered, for every transport whose body is accepted and every sequence of read buffers |
| PostgresStore.Store.Get | internal/blobstore/postgres.go:200-231 | Not found exactly if there is no log row, told apart from an error of the database; otherwise the announced size, and a reader holding exactly the complete blob of that size and digest, or its first rows and then an error if the connection breaks |
| PostgresStore.Store.DeleteGeneration | internal/blobstore/postgres.go:338-377 | All that the call does is on record, as with Append. Refused exactly if what the guard read holds an entry of the device and none two or more generations above the one to prune; a count means that no statement failed and is that of this transaction's commit, which removed that many log rows, all of that generation; an error, that the guard's query failed, or that on this very run the statement that was next failed or was still waiting and was rolled back, or that such a commit landed and was not answered; undisturbed it purges exactly the generation |
| PostgresStore.Store.DeleteAccount | internal/blobstore/postgres.go:384-407 | All that the call does is on record, as with Append. No guard; a count means that no statement failed and is that of this transaction's commit, which removed that many log rows, all of that account; an error, that on this very run the statement that was next failed or was still waiting and was rolled back, or that such a commit landed and was not answered; undisturbed it purges exactly the account |
| PostgresStore.PurgedGenerationExactly | internal/blobstore/postgres.go:361-371 | Purging a generation leaves no row of it in either table, and all other rows as they were |
| PostgresStore.PurgedAccountExactly | internal/blobstore/postgres.go:395-401 | Purging an account likewise |
| PostgresStore.AppendWaitsExactly | internal/blobstore/postgres.go:139-183 | In a state that keeps integrity an append waits exactly if its next insert neither succeeds nor meets a conflict; its COMMIT never does |
| PostgresStore.DeleteWaitsExactly | internal/blobstore/postgres.go:352-407 | A delete waits exactly if it wants a row that another open transaction holds; its COMMIT never does |
| AtomicLog.AppendKeepsContiguous | internal/blobstore/blobstore.go:79-83 | Accepting an entry only right after the head keeps every log gap-free |
| AtomicLog.EraseKeepsContiguous | internal/blobstore/blobstore.go:97-107 | Removing a generation or an account cannot leave a gap |
| AtomicLog.PruneExactly | internal/blobstore/blobstore.go:95-97 | A prune is refused exactly while the generation is one of the two retained, and otherwise removes exactly the entries of that generation, leaves all others as they are and counts what is gone |
| AtomicLog.EraseAccountExactly | internal/blobstore/blobstore.go:99-107 | An erasure removes exactly the entries of the account, leaves all others as they are and counts what is gone |
| BlobKeys.HeadIsLength | internal/blobstore/memory.go:214-224 | In a gap-free log the head is the length: the sequence numbers are exactly 1..head |
| BlobKeys.NextSlot | internal/blobstore/postgres.go:124-130 | The slot after the head is exactly the free slot whose predecessor exists |
| BlobKeys.GuardRefusesExactly | internal/blobstore/blobstore.go:34-39 | The guard refuses exactly if the device has an entry and every entry of it is of a generation below the one to prune plus two |
| MemoryStore.Store.HeadSeqLocked | internal/blobstore/memory.go:214-224 | The loop over all rows, in any order, finds the head of the log |
| MemoryStore.Store.Append | internal/blobstore/memory.go:47-73 | Refused at the advisory check as the atomic log would; otherwise, with any other calls run while the body drained, the body's failure or the atomic log's answer at the second check, and the state that goes with it |
| MemoryStore.AppendIsAtomic | internal/blobstore/memory.go:43-73 | The two-phase append is linearizable: a conflict is the atomic log's answer at one of the two checks, success its answer at the second, anything else leaves the log alone; no log ever has a gap |
| MemoryStore.Store.CommitAppend | internal/blobstore/memory.go:67-72 | The locked section is the atomic append, the row going in under its own row key only |
| MemoryStore.Store.Get | internal/blobstore/memory.go:76-87 | The entry's bytes if and only if the entry is in the log, for any key |
| MemoryStore.Store.Index | internal/blobstore/memory.go:90-112 | For any map order: the entries with seq >= from in order, each once, cut at the limit |
| MemoryStore.Store.Manifest | internal/blobstore/memory.go:115-164 | For any order of both map loops: one summary for each non-empty device and generation, sorted, with head, head digest, total bytes and latest time of exactly that group |
| MemoryStore.Store.DeleteGeneration | internal/blobstore/memory.go:167-193 | For any map order: refused exactly if the device has an entry and none two or more generations above; otherwise exactly the entries of that generation are gone, all others stay as they are, and the answer is the number gone |
| MemoryStore.Store.DeleteAccount | internal/blobstore/memory.go:196-209 | For any map order: exactly the entries of the account are gone, all others stay as they are, and the answer is the number gone |
| MemoryRows.PutRow | internal/blobstore/memory.go:71 | Storing a row under its row key is adding that entry to the log and touches no other |
| MemoryRows.DropRows | internal/blobstore/memory.go:185-192 | Removing the covered rows is erasing exactly the covered entries |
| MemoryRows.AggStep | internal/blobstore/memory.go:126-143 | One turn of the manifest loop keeps every aggregate right: head, sum and latest time of the rows of its log seen so far |
| MemoryRows.SortedIsManifest | internal/blobstore/memory.go:145-163 | The aggregates, listed in any order and sorted, are the manifest |
| LogQueries.SortedIsIndex | internal/blobstore/memory.go:107-111 | Sorting what was gathered in any order and cutting it gives the page |
| LogQueries.ManifestUnique | internal/blobstore/blobstore.go:92-93 | A log has one manifest: any two answers that list the head, head digest, total and latest time of every non-empty generation in order are equal |
| PostgresQueries.DistinctOnPicks | internal/blobstore/postgres.go:303-311 | On rows sorted by device, generation and falling seq, DISTINCT ON keeps the newest row of every partition, in order, and nothing else |
| PostgresQueries.ManifestQueryIsManifest | internal/blobstore/postgres.go:301-335 | The query, evaluated on the rows in whatever order they are scanned, with its window sums and maxima, answers the manifest of the log they are |
| PostgresQueries.StoresAgreeOnManifest | internal/blobstore/postgres.go:301-335 | In every reachable state it answers exactly what any computation of the manifest, the in-memory one included, answers on the same log |
| PostgresQueries.IndexQueryIsPage | internal/blobstore/postgres.go:277-298 | In every reachable state, on logs with gaps too and for any scan order: a list is the page, the first entries from `from` on, in order, as many as there are up to the limit, if and only if it is what the index query answers |
| PostgresQueries.LinesShowRows | internal/blobstore/postgres.go:277-298 | Each line the query answers is a row that was scanned, column by column, with a NULL predecessor read as the empty string |
| PostgresQueries.IndexQueryIsIndex | internal/blobstore/postgres.go:277-298 | On a log that holds 1..n, which an overlapping delete can spoil, that is the page of the in-memory store, for every limit the handler lets through |
| LogQueries.SummaryMatchesIndex | internal/blobstore/memory.go:148-155 | A summary agrees with its generation's index: head = number of entries, head digest = last entry's, total = sum of the sizes |
| LogQueries.CollectIndex | internal/server/handlers/read.go:60-66 | Paging with from = last seq + 1 and any limits, as the handler clamps them, terminates and yields the log as it is at the last page, gap-free and without duplicates, although appends land in between |
| LogQueries.ClampLimitExactly | internal/server/handlers/read.go:60-64 | A limit from 1 to 500 is the caller's, any other is 500 |
| Tenancy.SameEntriesSameAnswer | internal/blobstore/memory.go:76-209 | What a tenant is told and what it leaves itself depend on its own entries only |
| Tenancy.OthersUntouched | internal/blobstore/memory.go:47-209 | A tenant's operations leave every other tenant's entries as they are |
| Tenancy.NonInterference | internal/blobstore/memory.go:47-209 | Over whole runs: whatever other tenants do, and however it is interleaved, a tenant that asks the same hears the same |
| Tenancy.OneTurn | internal/blobstore/memory.go:47-209 | Of one turn a tenant has asked and heard exactly its own |
| Tenancy.OwnTurns | internal/blobstore/memory.go:47-209 | And over a run these are its turns in order, an answer for each question |
| Tenancy.Serve | internal/blobstore/memory.go:47-224 | Each lock section of the in-memory store answers as those theorems assume |
| Readers.DigestReadStep | internal/server/middlewares/authproof.go:125-140 | One read of the stack in any state: no byte lost, a mismatch or overrun stays an error for good, EOF only with the signed digest and within the cap |
| Readers.FillStep | internal/blobstore/postgres.go:136 | The same through io.ReadFull, which drops the error that comes with the bytes that fill the buffer |
| Readers.CollectedBodyIsSigned | internal/blobstore/memory.go:55-61 | If io.ReadAll succeeds, for any transport, its bytes are exactly what was delivered, within the cap and of the signed digest |
| Readers.CollectExactly | internal/server/middlewares/authproof.go:125-140 | For every transport and every growth of the buffer: io.ReadAll comes to what the answers, judged one by one without buffers, amount to, and the guard is flagged exactly if what is delivered exceeds the cap |
| Readers.HonestBodyIsJudged | internal/server/middlewares/authproof.go:125-140 | The other direction: a body delivered in full is returned whole if it is within the cap and of the signed digest, and otherwise refused as too large, exactly when the guard is flagged, or as mismatched |
| Readers.CountingBody.Read | internal/server/server.go:155-163 | Counts what was read and turns a read past the cap into the size error, flagging the guard |
| Readers.DigestVerifyingBody.Read | internal/server/middlewares/authproof.go:125-140 | Hashes what was read and turns EOF on other bytes into a mismatch, for good |
| Readers.DigestVerifyingBody.ReadFull | internal/blobstore/postgres.go:136 | io.ReadFull over this body: a full buffer drops the error, EOF after some bytes becomes unexpected |
| Readers.DigestVerifyingBody.ReadAll | internal/blobstore/memory.go:55 | io.ReadAll over this body, for any growth of its buffer |
| ResponseGuard.GuardedResponse | internal/server/server.go:119-209 | For every interleaving of reads with the handler's calls: one status at most; the 413 envelope, CORS headers kept and nothing of the handler's, if the body overran before the first answer; otherwise the handler's own answer, cut off at the first overrun |
| ResponseGuard.TaggedIsSent | internal/server/server.go:188-195 | Of the headers set before, those go out with the 413 whose names start with Access-Control-, with their values, and all with any other answer; the content type is that of the envelopes |
| ResponseGuard.SizeGuard.WriteHeader | internal/server/server.go:179-198 | The first call decides: the handler's status, or the 413 with only CORS headers kept, for any order of the header loop |
| ResponseGuard.SizeGuard.Write | internal/server/server.go:200-209 | A bare write implies 200; after an overrun nothing of it reaches the client |
| Encodings.RowKeyInjective | internal/blobstore/memory.go:39-41 | The row key of an address with NUL-free texts is no other address's, whatever that one contains |
| Encodings.NulKeysCollide | internal/blobstore/memory.go:39-41 | Of addresses with NULs that fails: for every device two of them share a row key |
| Encodings.GroupKeyInjective | internal/blobstore/memory.go:130 | The manifest's group keys tell devices and generations apart |
| Encodings.HandlerKeysAreNulFree | internal/server/handlers/handlers.go:18-41 | Every address the handlers build has NUL-free texts |
| Encodings.BodySha256Inverts | internal/authproof/authproof.go:71-85 | The digest read out of an action is the one that was put in, empty or 64 hex digits |
| Encodings.ActionInjective | internal/authproof/authproof.go:67-76 | Over request lines (section 3.2 of RFC 9112) the action determines method, target and digest |
| Encodings.FitsExactly | internal/server/middlewares/authproof.go:54-70 | The middleware takes an action for a request if and only if it is that request's own, with a well-formed digest, which an upload must have |
| Encodings.CanonicalInjective | internal/authproof/authproof.go:87-93 | The signed bytes determine all four fields when action and key are single lines |
| Decimal.ParsePathInt | internal/server/handlers/read.go:127-145 | The loop, in 64-bit arithmetic that never overflows, accepts exactly the digit strings with value 1..2^30 and returns the value |
| Decimal.PrintedNumbersParse | internal/server/handlers/handlers.go:50-56 | Both parsers invert decimal printing, over the same range |
| Decimal.AtoiExactly | internal/server/handlers/handlers.go:50-56 | A non-empty string of digits reads as its value, with either sign or none and with leading zeros, as long as that fits 64 bits |
| Decimal.AtoiRefuses | internal/server/handlers/handlers.go:50-56 | Nothing else is read as a number |
| Decimal.WritableIsAddressable | internal/server/handlers/handlers.go:43-56 | Every number that Append accepts, however spelled, can be addressed on the path routes |
| NonceStores.MemoryNonces.Consume | internal/nonce/nonce.go:35-51 | Sweeps exactly the expired records, for any map order, then accepts the nonce if and only if it is not on record |
| NonceStores.PostgresNonces.Consume | internal/nonce/postgres.go:38-60 | One call in 64 sweeps; either statement may fail, and may have landed all the same; otherwise accepted if and only if the insert took effect. Every other nonce stays on record with its expiry unless this call swept it as expired, and an accepted one is recorded with the expiry given |
| NonceStores.InsertRemembers | internal/nonce/nonce.go:35-51 | The in-memory store forgets and records no more than that either |
| NonceStores.OnRecordUntilExpiry | internal/nonce/postgres.go:39-48 | Whatever is swept when, an accepted nonce stays on record until its expiry has passed, give or take the drift between clocks |
| NonceStores.AcceptedTwiceIsLate | internal/nonce/nonce.go:14-19 | A nonce is accepted twice only if the second call comes after the expiry the first recorded, give or take that drift |
| NonceStores.InMemorySingleUse | internal/nonce/nonce.go:14-16 | Accepted exactly at its first use, for every nonce, if and only if none comes back after its first expiry |
| NonceStores.StoresAgreeExactly | internal/nonce/postgres.go:38-60 | The two stores answer alike under every pattern of sweeps if and only if no nonce comes back after its first expiry |
| AuthProof.VerifiedIsFresh | internal/authproof/authproof.go:173-179 | A proof that holds has not expired by the nanosecond clock and expires within window and skew |
| AuthProof.SignedProofHolds | internal/authproof/authproof.go:140 | A genuine proof is refused as expired or as too far in the future exactly outside one skew before to one window after its signing |
| AuthProof.SoundExactly | internal/server/middlewares/authproof.go:40-75 | What the checks before the nonce let through, and only that: a complete, fresh, genuine proof of this very request with a digest fit for it |
| AuthProof.FirstFailureExactly | internal/server/middlewares/authproof.go:40-75 | The refusal is that of the first check that fails, each check said by itself |
| AuthProof.HonestProofIsSound | internal/authproof/authproof.go:123-159 | For every wallet that accepts what the key signs, of whatever bytes: the proof an honest client signs for its request is sound for it, in its account, from one skew before to one window after its signing |
| AuthProof.SignatureCoversAll | internal/authproof/authproof.go:194-205 | For a wallet that accepts a signature for one byte string only: two genuine single-line proofs with one signature agree in action, key, expiry and nonce |
| AuthProof.OneRequestPerProof | internal/server/middlewares/authproof.go:33-36 | One proof is good for one method, one target and one digest, whenever it is presented |
| AuthProof.AdmittedExactly | internal/server/middlewares/authproof.go:77-98 | Admitted if and only if the proof is sound and its nonce not on record; a nonce is recorded only then; any refusal but replay leaves the records as they were |
| AuthProof.Check | internal/server/middlewares/authproof.go:39-75 | The middleware's ordered checks before the nonce come to exactly what is sound |
| AuthProof.Authenticate | internal/server/middlewares/authproof.go:39-98 | With the in-memory nonce store and separate clock readings it admits exactly as specified |
| AuthProof.AuthenticatePersistently | internal/server/middlewares/authproof.go:39-98 | The same with the PostgreSQL nonce store, a failure of which is a 500 |
| AuthProof.AdmittedPersistently | internal/server/middlewares/authproof.go:77-98 | With that store a request is admitted if and only if the proof is sound, its nonce is not on record but for records just swept as expired, and no statement fails; a 500 means that one did; nothing but the request's own nonce is ever recorded, by an admission or a failure that landed |
| AuthProof.OnlyReplaysSayUsed | internal/server/middlewares/authproof.go:86-113 | The words the client looks for are in the replay refusal and in no other |
| Admissions.StepKeeps | internal/server/middlewares/authproof.go:69-97 | Every step, with sweeps and failures anywhere, keeps: verified requests were fresh, records go back to fresh proofs, an admission's record is there until it expires |
| Admissions.SecondAdmissionIsLate | internal/server/middlewares/authproof.go:69-90 | Over every run a nonce is admitted again only if its Consume runs strictly after the first proof's expiry |
| Admissions.ProofAddsAtMostOne | client/client.go:313-319 | However often its request is delivered, a proof always consumed by its expiry is admitted at most once and adds at most one log entry |
| Admissions.RecordsAreRecentExactly | internal/nonce/nonce.go:33-45 | After a sweeping Consume every record goes back to a proof verified within the last window and skew if and only if the Consume refused or its own proof was verified that recently |
| Admissions.TimelyConsumeLeavesRecent | internal/nonce/nonce.go:33-45 | So after a Consume that runs by the expiry of its proof every record is that recent |
| Admissions.LateConsumeLeavesOldRecord | internal/nonce/nonce.go:33-45 | For every request that holds and every longer wait: a run whose late Consume leaves an older record |
| Admissions.EveryEntryWasSignedFor | internal/server/handlers/append.go:50-58 | Over every run, each entry ever added to the log goes back to a genuine proof of that entry's account, for an upload whose target names that entry and whose signed digest is that of the bytes stored |
| Admissions.LateConsumeIsAdmitted | internal/server/middlewares/authproof.go:69-90 | For every request that holds: a second copy is admitted if and only if its Consume runs after the expiry |
| UploadRoute.UploadIsAllOrNothing | internal/server/handlers/append.go:58-80 | For every request, transport and interleaving: 201 means that exactly the bytes delivered, which are signed, not empty and within the cap, became the log's newest entry in the signer's account; otherwise the request has not touched the log |
| UploadRoute.DeliveredUploadIsAnswered | internal/server/handlers/append.go:58-80 | A delivered upload whose slot is free at the first check gets the answer it deserves, 413, mismatch, empty, conflict or created, and is stored, all of it, exactly in the last case |
| UploadRoute.ReadUploadIsAnswered | internal/server/handlers/append.go:58-80 | The same for every transport whatever, for what its answers amount to |
| UploadRoute.UndeclaredOverrunExactly | internal/server/server.go:119-136 | For every transport, an undeclared body over the cap is answered 413 if and only if the request is admitted, addressable and next in its log by the first check; any other request is answered 401, 415, 400 or 409 with its body unread |
| UploadRoute.UnheardStatus | internal/server/handlers/append.go:31-49 | Of a request whose body is not read, the first thing wrong decides: 415, 400, 400 or 409 |
| UploadRoute.AddressableExactly | internal/server/handlers/handlers.go:34-56 | A request is addressable exactly if its content type, its device id and both its numbers are as they must be |
| UploadRoute.StatusExactly | internal/server/handlers/append.go:59-79 | Each kind of answer has its status: 201, 401, 409, 415, 500 or 400 |
| UploadRoute.UnprovenIsAnswered401 | internal/server/middlewares/authproof.go:39-45 | Any request without a proof whose body is not declared too large has one possible ending, a 401 with the body unread, whatever the size of the body |
| UploadRoute.OversizeCanBeAnswered401 | internal/server/middlewares/authproof.go:39-45 | One of them is a well-formed upload whose chunked body is over the cap, under any cap |
| UploadRoute.HandleAppend | internal/server/handlers/append.go:24-80 | The handler's checks in order, one store call with the authenticated account, and the answer that goes with the outcome |
| UploadRoute.ServeUpload | internal/server/server.go:119-136 | One response, with its status, headers and body. With a declared length greater than the cap, and with no other, it is the 413 at once, and neither body nor nonces nor log are touched; otherwise the request is served, its answer is the handler's unless the body overran while it was read, and then the 413 with CORS headers only |
| PostgresRoute.HandleAppend | internal/server/handlers/append.go:24-80 | The handler on the PostgreSQL store, under every schedule and for every transport: 201 means that exactly the bytes delivered are committed, log row and chunk rows, as the entry in the account that signed, not empty, within the cap, and signed unless reading stopped at an io.ErrUnexpectedEOF; otherwise only others have changed the tables since the call started and no row in them is the request's, but for a 500 whose COMMIT landed; the body overruns only if it was read and is over the cap. Undisturbed the answer and the tables are the atomic log's, and the body overruns if and only if the slot is free and what is drawn exceeds the cap |
| PostgresRoute.OutcomeSettles | internal/server/handlers/append.go:58-80 | What the store has on record, answered and left, taken together, is one of these endings |
| PostgresRoute.ServeUpload | internal/server/server.go:119-136 | The whole route on the PostgreSQL stores: authentication with its failures, that handler, one response with its status, headers and body; a declared length greater than the cap, and no other, is answered 413 at once and touches nothing; a refused proof leaves the store as it is |
| Client.Do | client/client.go:302-324 | At most two proofs, an upload's at most one, the second only after a spent-proof refusal, each for this very request; the answer is exactly the last attempt's, or none if what was due could not be signed |
| Client.Append | client/client.go:176-185 | Signs exactly one proof, for this entry and this digest, and answers what the service did, or none if it cannot sign |
| Client.SpentRefusalIsReplay | client/client.go:326-334 | Of all refusals of a proof the client retries after exactly one, the replay guard's |
| Client.AppendUriInjective | client/client.go:177-180 | Different entries have different targets |
| Client.TargetReadsBack | client/client.go:177-180 | Path, seq, generation and prevSha256 of the target each read back as what the client put there |
| Client.UploadProofBindsSlot | client/client.go:171-182 | An upload's proof is sound for one request only: that entry, with that digest |
| EndToEnd.VerifyIsStep | internal/server/middlewares/authproof.go:39-75 | Verify is a step of the service's state machine if and only if the proof is sound; otherwise it is the whole answer and leaves the nonces |
| EndToEnd.ConsumeIsRun | internal/server/middlewares/authproof.go:77-98 | Whatever has happened since Verify, the middleware's use of the nonce is two steps that lead to the nonces it left and to one admission if it admitted |
| EndToEnd.PersistentConsumeIsRun | internal/server/middlewares/authproof.go:77-98 | The same with the PostgreSQL nonce store, whichever of its statements fail or land: sweep, consume and failed-consume steps lead to the very table it is left with and to one admission if it admitted |
| EndToEnd.DeleteIsStep | internal/blobstore/memory.go:167-209 | A prune or an erasure that is not refused is one step of the state machine, to the log it leaves; a refused prune leaves the log |
| EndToEnd.CreatedIsUploadStep | internal/server/handlers/append.go:58-80 | An upload answered 201 is one step of the state machine, which adds the entry that the log gained; one answered otherwise adds nothing |
| EndToEnd.CreatedIsRun | internal/server/server.go:119-136 | A request answered 201, whatever else the service does between its Verify and its Consume, from there to the store's first check, and from that to the second, is a run from where it arrived to the log it left |
| EndToEnd.ProofStoresItsEntry | client/client.go:171-182 | Over every run, all that is ever stored on the strength of a proof that a client signed is the entry it signed for, in its account and with its digest, and it is stored at most once if the proof is always consumed by its expiry |
| EndToEnd.CreatedIsTheClientsEntry | client/client.go:171-185 | For every transport and whoever presents the proof: a 201 to a request carrying a proof that a client signed means that exactly the bytes delivered are stored as that client's entry, and have the digest it signed |
| HonestUploads.HonestUploadIsCreated | client/client.go:171-185 | In-memory stores: if an honest client's proof arrives in its window with its nonce not on record, its body in full, in whatever fragments, within the cap, and its entry is next at both checks, the answer is 201 and the log has gained exactly that entry, with those bytes, their digest and its predecessor, in the client's account |
| HonestUploads.HonestUploadIsCommitted | internal/blobstore/postgres.go:98-166 | PostgreSQL stores: the same, with one check, if nobody interferes with the store call and nothing fails; the tables have gained exactly that log row and the chunk rows those bytes are cut into |
| KnownAnswers.SignedBytes | internal/authproof/authproof.go:87-93 | The signed bytes of one proof, spelled out |
| KnownAnswers.Targets | client/client.go:176-180 | The targets of two uploads, spelled out |

## Left out

- ECDSA, BRC-42/43 key derivation, SHA-256, base64 and JSON: library code, here arbitrary functions; no collision resistance is assumed anywhere.
- The chi router, CORS middleware, HTTP timeouts, telemetry, configuration, the migrations and schema wipe: no state of the protocol.
- Reading the query string: the model starts from the values the router and net/url hand out; url.PathEscape and url.QueryEscape are any one-to-one functions free of the characters that would end their component.
- Liveness, blocked inserts and deadlock detection: a statement that is still blocked at its turn counts as cancelled, which is the only error without a failure; the database decides these.
- The connection pool and driver errors other than 23505: any statement may fail, and a COMMIT that fails may have landed, without saying how; that BEGIN fails, which leaves nothing, is not modelled.
- The locks of a DELETE are taken in one step once no other open transaction holds a wanted row; PostgreSQL takes them row by row.
- Row times: a log row's created_at is given by the environment, not by now(); the in-memory clock likewise.
- The PostgreSQL Index and Manifest are the functions PostgresQueries.IndexQuery and ManifestQuery on the rows scanned, without a method around them; scan errors, and LIMIT 0, which the handler never passes, are not modelled.
- PostgreSQL collation: ORDER BY device_id is Go's string order, which is the same for the hex ids the handlers admit.
- Buffer aliasing inside io.ReadAll and the copy that Get makes: blobs are values.
- MemoryStore.Store.Append: takes keys with NUL-free texts and generation 1 or more, as the handlers build them; with NULs two addresses can share a row key (Encodings.NulKeysCollide), and what the store then overwrites is not modelled.
- MemoryStore.Store.CommitAppend: takes the same keys.
- Tenancy.Serve: takes the same keys in a Commit; any key in a Get.
- PostgresRefinement.RunRefinesAtomicLog: needs that no delete statement runs on the log while an append on it is open; PostgresCounterexamples shows the claim false without it, and AppendKeepsTablesExactly and DeleteKeepsTablesExactly say exactly when each commit is harmless.
- PostgresRetention.NewestGenerationNeverDecreases: needs that the device's account is not erased and that each of its prunes' guards read a row; PostgresRetention.RetentionExactly is the exact condition.
- ChunkLoop.ChunkedBodyIsSigned: the digest part excepts transports that stop with io.ErrUnexpectedEOF; ChunkLoop.DigestCheckedExactly says exactly when the digest goes unchecked.
- Admissions.EveryEntryWasSignedFor: an upload step takes only a body of the signed digest, which EndToEnd.CreatedIsUploadStep proves of the in-memory store and PostgresStore.StoredUploadIsSigned of the PostgreSQL store on transports that do not stop with io.ErrUnexpectedEOF.
- EndToEnd.ProofStoresItsEntry: that the router reads a target as the client wrote it is a hypothesis on the router; that nobody else can sign for an account is the wallet's business.
- EndToEnd.CreatedIsRun: runs on the in-memory stores, as does UploadRoute.
- HonestUploads.HonestUploadIsCommitted: supposes that nobody interferes with the store call; with others at work PostgresRoute.HandleAppend says what can happen.
- Client.Do: the cached limits and the wallet are a flag `ready`, and drawing a nonce may fail; the two fetches themselves are not modelled.
- AuthProof.HonestProofIsSound: that the wallet accepts what the key signs, and for AuthProof.SignatureCoversAll that a signature is good for one text, are hypotheses on the wallet, as nothing is known of ECDSA here.
- UploadRoute.UndeclaredOverrunExactly: is of the in-memory stores; of the PostgreSQL ones PostgresRoute.HandleAppend says the same undisturbed, and otherwise, as a database error can stop the reading, only that a body which overruns has been read and is over the cap.
- PostgresQueries.IndexQueryIsIndex: is of logs that hold 1..n; PostgresQueries.IndexQueryIsPage covers every log.
- The read, prune and erase handlers beyond their parameters: they map one store outcome to one status.
- The TypeScript client, the limits and health endpoints.
