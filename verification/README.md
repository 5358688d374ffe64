# A verified model of the subscription manager

The repository is a small self-hosted server. An administrator keeps subscriptions (texts, or files)
under public paths; clients fetch them; the server counts the fetches and logs them. This project
models its state in Dafny and proves what the code is meant to guarantee. `dafny verify
dfyconfig.toml` checks it.

## How it is modelled

**The store** (`Schema`, `Transactions`, `StoreModel`). The tables are maps of a class `Store` whose methods
run the SQL statements of each transaction in place, in order; a `fault` parameter makes any of them fail.
Each method is proved equal to a function on the whole database (`Transactions`), and to change nothing on an
error; `Effects` says column by column what each of them writes. `UPDATE` sees the old row, `file_id = ?` is
not true of NULL while `IS` is null-safe, foreign keys cascade as declared, and AUTOINCREMENT ids are not
reused.

**The server** (`Server`). A state machine of the database, the blob directory, the file mutex, and any number
of public fetches, uploads, deletions and toggles in progress. One step is one transaction or one file system
call of one request, since the store has a single connection; any step may fail, a call of an upload or a
deletion even after it took effect, and the process may crash and restart between any two steps. A theorem
about runs is about every interleaving. `Counting` and `Statistics` prove the counters exact, `BlobProtocol`
and `Serving` the agreement of rows, blobs and responses, `Preservation` what each edit keeps, `Evolution`
what no run undoes, `Provenance` where the rows of a request were read, `Bars` what a deletion does to
requests in progress, `Answers` why requests fail and that all others are served, `Progress` the same of
uploads and of the file mutex, `Logs` and `Lines` relate the access log to counters and events, and
`LastTimes` the last times and addresses to the last records.

**The handlers** (`FileStore`, `Walks`, `Completion`, `Handlers`, `PublicSite`, `Sequential`). The same
handlers as sequential code with early exits and clean-up, over the `Store` and a `FileStorage` object. Each
is proved to do what its request does in the machine when it is not interrupted, and so to end in a reachable
state; and to achieve what it was asked for when no call fails.

**Sessions and logins** (`Sessions`, `Epochs`, `Logins`, `Limiter`). The settings row and the session table;
logins and password changes in separate steps that may interleave, what they are judged by and what they
achieve; the login limiter with its window and lock.

**Times** (`Calendar`, `DbTime`, `Deadlines`). Texts in the form of RFC 3339 with trimmed fractions, the order
in which SQLite compares them, and what that does to expiry, purging and cleanup.

**Addresses** (`Addresses`, `Intervals`, `Texts`, `ClientIp`, `Resolver`, `Reading`). Addresses and prefixes
as bits and as intervals of numbers, the lists of trusted proxies, the forwarding headers, the resolver, and
what it answers in terms of the addresses written in the request.

**Lists and texts** (`BulkReplace`, `Batch`, `Pagination`, `UserAgent`, `Content`).

Parameters stand for what the code gets from elsewhere: the present time (as an instant or as the text the
store writes), random tokens, the digest functions (SHA-256 injective with 64 digits, MD5 any function),
bcrypt's comparison (a hash made of a password verifies it), the parsing and printing of addresses (a printed
canonical prefix parses to itself and has only digits, letters a to f, dots, colons and a slash), and which
calls fail.

## What turned out otherwise than one might expect

- `Deadlines`, `DbTime`: the equal-digit condition of section 5.1 of RFC 3339 does not hold for trimmed
  fractions. Within one second texts can compare the wrong way round; the exact condition is proved, and
  that no decision is ever wrong by a second.
- `Serving.InterruptedToggleExample`: "enabled implies attached" is lost when a detachment comes between
  the read and the write of a toggle; the exact condition is proved, and that such a subscription is
  never served.
- `Limiter.OverlapErasesLock`: two overlapping logins of one address can erase a standing lock. The exact
  condition is proved, and that logins which do not overlap never do. With overlaps the rate bound grows
  with their number, and the exact bound is proved.
- `Serving.HeadOfTextIsCounted`: README.md:52 and README.md:204 of the repository say, in their paragraphs
  about file subscriptions, that HEAD requests are not counted. The code does that for file subscriptions
  (internal/app/handlers_files.go:364) and counts a HEAD of a text subscription
  (internal/app/handlers.go:523); the model follows the code, and the exact condition is proved.
- `Answers.ReservedPathsAreNotServed`: a subscription at a path such as /admin2 passes validation
  (internal/app/helpers.go:30-41) but is never served, since every path that begins with /admin is answered
  404 (internal/app/handlers.go:498).

## Model

| member | source | states |
|---|---|---|
| `Statistics.CurrentFetchCountIsExact` | internal/app/store.go:591-637 | in every run, from any consistent database, `current_fetch_count` of a file subscription equals the seed of its present revision plus the recorded requests whose snapshot carried that revision |
| `Statistics.OneFilePerRevision` | internal/app/store.go:474-527 | in every run one revision of one subscription has one file, in all recorded requests and in the row, so old, new, old again never revives a count |
| `Statistics.StaleFetchCountsTowardsHistoryOnly` | internal/app/store.go:600-612 | a recorded request raises the current count exactly when its snapshot still is the present revision of a file subscription, and the lifetime count always |
| `Statistics.TypeNeverChanges` | internal/app/store.go:455-527 | between any two moments of a run, for every id given out before the first: a subscription that survives keeps its type, its revision never falls, and a deleted id never comes back |
| `Evolution.RunDescends` | internal/app/store.go:434-535 | over any part of a run ids are not reused, subscriptions keep their type and revision order, and file rows keep digests, size and key |
| `Statistics.RunKeepsChain` | internal/app/store.go:591-637 | every run keeps current(s) <= stats(f,s) <= min(fetch_count(s), download_count(f)) for the attached file, and current(s) = 0 when detached |
| `Statistics.CurrentWithinPair` | internal/app/store.go:600-629 | the first half of that chain, in every reachable state |
| `Statistics.PairWithinTotals` | internal/app/store.go:600-629 | the second half of that chain, for every surviving pair |
| `Statistics.MigrationEstablishesChain` | internal/app/store.go:237-260 | the migration of an older database establishes the chain, seeds exactly from the pair totals, changes no other column, and is idempotent |
| `Statistics.CountersCountEvents` | internal/app/store.go:591-637 | from an empty database, fetch_count, download_count and the pair totals equal the numbers of matching recorded requests, for every surviving row |
| `Statistics.PairsOfSubscriptionSum` | internal/app/store.go:591-637 | the pair totals of a subscription sum up to at most its fetch_count, and to exactly that while no file was deleted |
| `Statistics.PairsOfFileSum` | internal/app/store.go:591-637 | the pair totals of a file sum up to at most its download_count, and to exactly that while no subscription was deleted |
| `Statistics.LogRemovalKeepsCounters` | internal/app/store.go:836-851 | clearing or expiring logs changes the log table only, and only removes rows from it |
| `Logs.LinesNeverExceedFetches` | internal/app/store.go:591-637 | in every run a surviving subscription has at most as many log lines as its fetch_count |
| `Logs.EveryFetchHasItsLine` | internal/app/store.go:591-637 | and exactly as many, in every run that clears and expires none |
| `Counting.StepKeeps` | internal/app/store.go:104-107 | every step of every request and edit keeps the counting invariant: constraints, one file per revision, and all tallies |
| `Counting.RunKeeps` | internal/app/store.go:104-107 | so does every run, that is every interleaving of atomic transactions |
| `Serving.EveryRowHasItsBlob` | internal/app/handlers_files.go:58-104 | at every moment of every run, with any call failing, before or after it took effect, and the process crashing anywhere, every `files` row has a blob at its key whose SHA-256, MD5 and size are the row's, so it is the one content with that digest; orphan blobs fit their key too |
| `Serving.ConstraintsAlwaysHold` | internal/app/store.go:145-226 | no two rows share a digest, a key or a path, and every reference names an existing row, in every run |
| `Serving.SameBytesSameFile` | internal/app/handlers_files.go:65-103 | an upload answers with a row of its digest, and with the row an earlier upload of the same bytes got, unless that row was deleted in between |
| `Serving.DigestsNeverMismatch` | internal/app/handlers_files.go:68-86 | with an injective SHA-256 neither digest mismatch error is ever returned |
| `Serving.MutualExclusion` | internal/app/handlers_files.go:63-64 | no two uploads or deletions are under the file mutex together |
| `BlobProtocol.StepKeepsBlobs` | internal/app/handlers_files.go:58-104 | every single step (system call, statement, crash) keeps blobs matching keys, rows having blobs, and what each job in progress knows |
| `BlobProtocol.UploadKnows` | internal/app/handlers_files.go:67-103 | after each call of an upload, failed or not, the facts its next stage relies on hold: the row found exists, no row with the digest exists, the destination is present or absent |
| `BlobProtocol.DeletionRows` | internal/app/handlers_files.go:310-336 | a deletion, row first and blob after it, never leaves a row without its blob |
| `BlobProtocol.BlobAtKey` | internal/app/filestore.go:95-101 | a blob found at the key of a content is that content |
| `BlobProtocol.CrashKeepsBlobs` | internal/app/filestore.go:46-53 | a crash and restart keeps the invariant: stale temporary files go, jobs end, rows and blobs stay |
| `Server.KeyLayout` | internal/app/filestore.go:95-101 | the storage key is the first two digits, a slash and the whole digest |
| `Server.KeyInjective` | internal/app/filestore.go:95-101 | different digests have different storage keys |
| `FileStore.CommitOnlyAdds` | internal/app/filestore.go:104-125 | whatever fails, Commit touches no other blob or temporary file, never changes an existing blob, and after a success the blob is there |
| `FileStore.FileStorage.Stage` | internal/app/filestore.go:56-102 | a temporary file with the whole content exactly when no call fails and 0 < size <= limit; the errors for empty and oversized uploads; otherwise at most that one temporary file remains |
| `FileStore.FileStorage.Commit` | internal/app/filestore.go:104-125 | call by call the outcome of MkdirAll, Stat, Remove or Rename, Chmod and its undo, for every choice of failing calls |
| `FileStore.FileStorage.Discard` | internal/app/filestore.go:127 | removes the temporary file unless that fails |
| `FileStore.FileStorage.Open` | internal/app/filestore.go:129-135 | the blob at the key, or an error |
| `FileStore.FileStorage.Remove` | internal/app/filestore.go:137-143 | removes the blob; reports whether it did |
| `FileStore.FileStorage.constructor` | internal/app/filestore.go:38-54 | opening keeps the blobs and removes stale uploads as far as possible |
| `Walks.WalkIsRun` | internal/app/handlers_files.go:58-104 | an uninterrupted request is one of the runs of the concurrent machine |
| `Walks.CommitIsWalk` | internal/app/filestore.go:104-125 | Commit does, call by call, what the machine does from MkdirAll on |
| `Handlers.App.SaveUploadedFile` | internal/app/handlers_files.go:58-104 | the sequential handler leaves store, directory and mutex as, and answers like, an uninterrupted run of the upload's job, for every choice of failing calls; the errors for empty and oversized uploads; and with an admissible size and no failing call it succeeds: the row of the digest, or a new one with all its columns, the blob, no temporary file |
| `Handlers.App.LookUp` | internal/app/handlers_files.go:67-87 | the two digest lookups: the earlier row, none, or the reason to give up, as in the machine; calls that work find the row of the digest, and give none exactly when there is none |
| `Handlers.App.CreateRow` | internal/app/store.go:738-751 | INSERT and read-back, and the second lookup by digests after a failure, as in the machine |
| `Handlers.App.DeleteStoredFile` | internal/app/handlers_files.go:310-336 | an uninterrupted run of the deletion's job; on success the row is gone and its blob too unless that removal failed, on refusal nothing changed; without failing calls it is refused exactly for a missing file or one in use |
| `Handlers.App.ReplaceSubscriptionFile` | internal/app/handlers_files.go:113-139 | on success the database is the one after the upload with one association replaced; on an error no subscription row changed; it succeeds for a file subscription and an admissible upload when no call fails |
| `Handlers.App.ReplaceStoredFile` | internal/app/handlers_files.go:213-248 | on success the database is the one after the upload with all associations replaced; on an error no subscription row changed; a file without associations is refused before the upload; it succeeds for any other file and an admissible upload when no call fails |
| `PublicSite.Serve` | internal/app/handlers.go:497-532 | publicSubscription, sequentially, is an uninterrupted run of one request of the machine; without failing calls an enabled subscription with what it serves is answered and recorded, everything else is answered 404 |
| `PublicSite.FetchWalkIsRun` | internal/app/handlers.go:497-532 | the uninterrupted calls of a public request are one of the runs of the concurrent machine |
| `PublicSite.ServeFile` | internal/app/handlers_files.go:338-379 | publicFileSubscription: row, blob, record, response, with each failure answered as in the machine |
| `PublicSite.ToggleSubscription` | internal/app/handlers.go:319-333 | read, check, write equals the atomic toggle; a refusal changes nothing |
| `Sequential.WalkIsReachable` | internal/app/handlers_files.go:58-104 | an upload or deletion started in a reachable state ends in a reachable state, so every theorem about runs holds after it |
| `Sequential.FetchIsReachable` | internal/app/handlers.go:497-532 | so does a public request |
| `Sequential.TempNameIsFree` | internal/app/filestore.go:57 | in every reachable state the temporary name of the next upload is free, as SaveUploadedFile requires |
| `Sequential.SavedFileIsComplete` | internal/app/handlers_files.go:97-103 | when an upload answers with an id, that row has the digests and size of the content and the blob at its key is the content |
| `Sequential.SubmittedBytesAreStored` | internal/app/handlers_files.go:58-104 | the same in every interleaved run, for the bytes submitted at the step that began this upload |
| `Provenance.RunJobsTraced` | internal/app/handlers_files.go:58-62 | every upload or deletion of every run works on what was submitted at the step that began it |
| `Completion.UploadSucceeds` | internal/app/handlers_files.go:58-104 | from every state that keeps the blob invariant and has the mutex free, an upload of an admissible size whose calls all work ends with its row (the one of the digest, else the next id, all columns), its blob beside all others, its temporary file gone and the mutex free |
| `Completion.DeletionSucceeds` | internal/app/handlers_files.go:310-336 | a deletion whose calls all work removes exactly the row, its statistics, the references of its log lines and its blob, or is refused: NoRows for no row, StillAssociated for a file in use |
| `Progress.UploadIsStored` | internal/app/handlers_files.go:58-104 | the same for every reachable state: the upload is stored completely |
| `Progress.DeletionIsDone` | internal/app/handlers_files.go:310-336 | the same for deletions |
| `Progress.UploadFailedForAReason` | internal/app/handlers_files.go:58-104 | in every interleaved run an upload that does not lead to a row was kept from it by a step of its own or a stop: an inadmissible size, a failed call, a crash |
| `Progress.UploadErrorsFit` | internal/app/handlers_files.go:58-104 | an upload fails as empty or too large only if it is, and otherwise only with an internal error or because the process stopped |
| `Progress.LateInsertIsFound` | internal/app/handlers_files.go:93-96 | an INSERT that took effect but reported an error is answered with its row, found by the second lookup |
| `Progress.TempLeftForAReason` | internal/app/filestore.go:56-127 | an upload that is over left its temporary file behind only because its removal failed or the process stopped |
| `Progress.MutexHasAHolder` | internal/app/handlers_files.go:63-64 | in every run the mutex is free or held by a job that can move |
| `Progress.MutexIsReleased` | internal/app/handlers_files.go:63-64 | whoever holds the mutex gives it back after at most eleven calls of its own, whatever fails and whatever else happens |
| `FileStore.CommitIsUndone` | internal/app/filestore.go:104-125 | a Commit that fails leaves all blobs as they were unless both Chmod and its undo failed; one whose calls work succeeds and adds just the blob |
| `Answers.FailedForAReason` | internal/app/handlers_files.go:338-379 | in every interleaved run each failed request failed at a step that gives the reason for its status: 404 without an enabled row at the path or without a file, 500 when a call failed or a row read before was gone, none only when the process stopped |
| `Answers.ServedUnlessAReason` | internal/app/handlers_files.go:338-379 | a request that made three calls is over, and was served unless there was such a step |
| `Answers.RequestIsAnswered` | internal/app/handlers_files.go:338-379 | from every reachable state an uninterrupted request for an enabled subscription is answered: a text, or the file with the row and the bytes of that moment; a GET records one event and its log line, a HEAD of a file nothing |
| `Answers.ReservedPathsAreNotServed` | internal/app/handlers.go:498-501 | in no run a subscription at / or below /admin is served |
| `PublicSite.WalkAnswers` | internal/app/handlers.go:497-532 | the same at the level of one state |
| `PublicSite.WalkRefuses` | internal/app/handlers.go:497-532 | a path without such a subscription is answered 404 and nothing is recorded |
| `Serving.ServedFilesAreExact` | internal/app/handlers_files.go:338-379 | a served file subscription was asked for by path by this very request, its file row was read later by this request under the id the snapshot names and still has that content if it exists, the body has the digests and size of that row; a GET recorded one event, for this subscription, file and revision; a HEAD none |
| `Serving.ServedBytesAreTheFiles` | internal/app/handlers_files.go:338-379 | the two moments of such a request: the step that was this request, when its path led to a subscription with this file, and its later lookup, when that file's row had the digest of the bytes served |
| `Serving.AnsweredIsRecordedIff` | internal/app/handlers.go:518-526 | an answered request has one event exactly if it was a GET or is for a text subscription, none otherwise; so an answered HEAD is recorded if and only if the subscription is a text |
| `Serving.HeadOfTextIsCounted` | internal/app/handlers.go:523 | a run in which a HEAD of a text subscription raises its fetch count |
| `Provenance.RunTraced` | internal/app/handlers.go:502-510 | every request of every run read, at the step that was this request, its subscription as the enabled row at the path it asked for, and later its file as the row that snapshot names |
| `Provenance.FilesBelongToRows` | internal/app/handlers_files.go:343-351 | the file a request holds has an id that was given out and the content of that row, as long as the row exists |
| `Serving.UnservedIsUnrecorded` | internal/app/handlers_files.go:364-370 | a request that was not served has no recorded event |
| `Serving.RefusedRecordChangesNothing` | internal/app/store.go:591-637 | one step: a GET with its blob open is refused exactly when the transaction fails or the subscription or file is gone, and then no table changes |
| `Bars.DeletedIsNeverServed` | internal/app/store.go:591-637 | if at any moment of a run the subscription of an unfinished request that needs a record is gone, or the file of a GET or of a request before its lookup, then at every later moment it is unanswered and has no event |
| `Bars.GoneIsNotThere` | internal/app/store.go:529-535 | for unfinished requests, gone means just that the row does not exist, because ids are not reused |
| `Serving.NothingServedWithoutFile` | internal/app/handlers_files.go:339-342 | in any run, interrupted toggles included, a file subscription without a file is never served or recorded |
| `Serving.EnabledSubscriptionsHaveFiles` | internal/app/handlers.go:319-333 | with uninterrupted toggles every enabled file subscription has a file, in every run |
| `Serving.LateToggleKeepsAttachedIff` | internal/app/store.go:537-544 | the write of an interrupted toggle keeps that exactly when it does not enable a file subscription that lost its file |
| `Serving.InterruptedToggleExample` | internal/app/handlers.go:319-333 | a run in which a detachment between read and write leaves an enabled subscription without a file |
| `Preservation.ApplyKeepsAttached` | internal/app/store.go:464-472 | every other edit keeps "enabled implies attached" |
| `Preservation.SetEnabledKeepsAttachedIff` | internal/app/store.go:537-544 | SetSubscriptionEnabled, which has no guard, keeps it exactly when it does not enable a file subscription without a file |
| `Preservation.ApplyKeepsIntegrity` | internal/app/store.go:145-226 | every edit keeps ids below AUTOINCREMENT, foreign keys and unique columns |
| `Preservation.RecordKeepsIntegrity` | internal/app/store.go:591-637 | so does RecordAccess |
| `Preservation.InsertFileKeepsIntegrity` | internal/app/store.go:738-751 | so does CreateFile |
| `Preservation.RemoveFileKeepsIntegrity` | internal/app/store.go:827-834 | so does DeleteFile, with its cascades |
| `Preservation.ApplyEdits` | internal/app/store.go:434-527 | every edit either leaves revision, file and current count of a row alone or starts a new revision at zero, and deletes only statistics of deleted subscriptions |
| `Effects.CreateWrites` | internal/app/store.go:434-453 | what was submitted stands in the columns of a new row under the next id, with no fetches; every other row and table stays |
| `Effects.CreateAcceptedIff` | internal/app/store.go:434-453 | refused exactly for a path in use, or for a file that does not exist |
| `Effects.UpdateWrites` | internal/app/store.go:455-472 | name, path, content and flag as submitted; file, revision, counters and all other rows stay |
| `Effects.UpdateAcceptedIff` | internal/app/store.go:455-472 | accepted exactly for a row of the kind, a path no other row has, and no enabling without a file |
| `Effects.ReplaceWrites` | internal/app/store.go:474-484 | the row's own file again keeps count and revision; any other, or none before, begins the next revision at zero; nothing else changes |
| `Effects.ReplaceAcceptedIff` | internal/app/store.go:474-484 | when a replacement is refused and with which error |
| `Effects.BulkRefused` | internal/app/store.go:488-517 | when a bulk replacement is refused and with which error |
| `Effects.DetachWrites` | internal/app/store.go:519-527 | no file, no download name, disabled, zero count, next revision; nothing else changes |
| `Effects.DeleteRemoves` | internal/app/store.go:529-535 | exactly the row, its statistics and its log lines go |
| `Effects.ClearRemoves` | internal/app/store.go:836-839 | exactly the lines of one subscription go |
| `Effects.SetEnabledWrites` | internal/app/store.go:537-544 | the flag and the time of one row; nothing else |
| `Effects.ToggleFlips` | internal/app/handlers.go:319-333 | a toggle turns the flag round unless it would enable a file subscription without a file |
| `Effects.ToggleTwice` | internal/app/handlers.go:319-333 | toggling twice gives the row back, but for its time |
| `Effects.SplitToggleIsToggle` | internal/app/handlers.go:319-333 | read and write of a toggle without interruption are the whole toggle |
| `Effects.RecordWritesLine` | internal/app/store.go:630-635 | the new log line has the subscription, the file or NULL, and each column of the access in its place; older lines stay |
| `Effects.RecordWritesSub` | internal/app/store.go:599-612 | one fetch more, the time and the address; the current count only for the revision and file that were read |
| `Effects.RecordWritesFile` | internal/app/store.go:613-629 | one download more with time and address, for the file and for the pair; nothing for a text |
| `Lines.EventHasItsLine` | internal/app/store.go:591-637 | in every run each recorded request wrote a line under the next number, which shows the access of the step that recorded it, and the file while it exists, as long as the line exists |
| `Lines.LineHasItsEvent` | internal/app/store.go:591-637 | and every line was there at the beginning or was written so |
| `Lines.RunKeepsLines` | internal/app/store.go:214-226 | no line changes but for the reference to a deleted file, and no line number is given out twice |
| `LastTimes.LastTimesAreOfLastRecords` | internal/app/store.go:591-637 | in every run the last time and address of every subscription, file and pair are those of its last recorded request, and before one those the database began with, or none |
| `Effects.AdminSteps` | internal/app/store.go:104-107 | an edit or an uninterrupted toggle is one step of the server that changes nothing but the database |
| `Effects.RestartLeaves` | internal/app/filestore.go:46-53 | a restart ends requests and jobs, frees the mutex and leaves database, blobs and history, but for the migration |
| `StoreModel.Store.CreateSubscription` | internal/app/store.go:434-442 | the new text row under the next id, or the UNIQUE error and no change |
| `StoreModel.Store.CreateFileSubscription` | internal/app/store.go:444-453 | the new file row, or the UNIQUE or foreign key error and no change |
| `StoreModel.Store.UpdateSubscription` | internal/app/store.go:455-462 | updates text subscriptions only; any error changes nothing |
| `StoreModel.Store.UpdateFileSubscription` | internal/app/store.go:464-472 | updates file subscriptions only, enables none without a file, so keeps "enabled implies attached" |
| `StoreModel.Store.ReplaceSubscriptionFile` | internal/app/store.go:474-484 | the replacement of Effects.ReplaceWrites: new revision and zero count exactly when the file differs from the old row's, NULL included; any error changes nothing |
| `StoreModel.Store.ReplaceFileAssociations` | internal/app/store.go:488-517 | the whole new database and the number of moved rows; on any error, and for old = new, no change |
| `StoreModel.Store.DetachSubscriptionFile` | internal/app/store.go:519-527 | no file, disabled, zero count, new revision |
| `StoreModel.Store.DeleteSubscription` | internal/app/store.go:529-535 | the row with its statistics and logs goes |
| `StoreModel.Store.SetSubscriptionEnabled` | internal/app/store.go:537-544 | sets the flag of any existing row |
| `StoreModel.Store.BatchUpdateContent` | internal/app/store.go:546-589 | all listed rows or none; the affected-rows error is unreachable |
| `StoreModel.Store.RecordAccess` | internal/app/store.go:591-637 | all counters and the log line of one access, or no change when a row is missing or a statement fails |
| `StoreModel.Store.SubscriptionByPath` | internal/app/store.go:428-432 | finds enabled subscriptions only, and finds one if there is one |
| `StoreModel.Store.FileByDigests` | internal/app/store.go:696-701 | a row with both digests, or proof that there is none |
| `StoreModel.Store.FileBySHA256` | internal/app/store.go:703-708 | a row with the digest, or proof that there is none |
| `StoreModel.Store.CreateFile` | internal/app/store.go:738-751 | inserts exactly when digest and key are free |
| `StoreModel.Store.DeleteFile` | internal/app/store.go:827-834 | deletes exactly when the row exists and no subscription uses it; statistics cascade, logs lose their reference |
| `StoreModel.Store.ClearAccessLogs` | internal/app/store.go:836-839 | removes the logs of one subscription |
| `StoreModel.Store.CleanupAccessLogs` | internal/app/store.go:841-851 | removes the logs whose time text is below the cutoff text and answers their number; nothing for a retention of 0 |
| `StoreModel.Store.MigrateCurrentFetchCount` | internal/app/store.go:237-260 | adds and seeds the column once; a failing statement leaves the database as it was |
| `BulkReplace.BulkRefinesSingles` | internal/app/store.go:488-517 | for old != new the bulk replacement equals, up to times, replacing the associated subscriptions one by one in any order |
| `BulkReplace.BulkMovesAssociations` | internal/app/store.go:488-517 | old ends with no association, new with the sum of both; every other row stays |
| `BulkReplace.BulkChangesNothingElse` | internal/app/store.go:497-511 | nothing changes exactly for old = new, a missing file, or no association |
| `Batch.CollectIds` | internal/app/handlers.go:336-353 | accepts 1 to 5000 positive numbers and yields them in order of first occurrence |
| `Batch.FirstOccurrencesAre` | internal/app/handlers.go:341-353 | the list is duplicate-free, has the same members, and is ordered by first occurrence |
| `Batch.CountMatchesIff` | internal/app/store.go:546-578 | COUNT over IN equals the length of the list exactly for a duplicate-free list of existing text subscriptions |
| `Batch.BatchUpdatesExactlyListed` | internal/app/store.go:546-589 | when a batch update is accepted, and that it rewrites exactly the listed contents |
| `Batch.CollectedIdsAccepted` | internal/app/handlers.go:335-373 | the handler's list is refused only for ids that are no text subscriptions |
| `Pagination.SelectedIff` | internal/app/store.go:646-655 | the filters select the lines of the subscription whose address contains the given text, letters of either case alike, and whose client is the given one |
| `Pagination.LikeIsOccurs` | internal/app/store.go:648-650 | LIKE with the text between two percent signs finds exactly the addresses it occurs in |
| `Pagination.RowsAre` | internal/app/store.go:639-687 | the selected rows, all of them, each once, ordered by time text and id descending |
| `Pagination.AccessLogs` | internal/app/store.go:639-687 | the total of the database of the COUNT and the requested window of the database of the SELECT, page number and size put in range; one page of the list when nothing changed in between |
| `Pagination.PagesPartitionTheLog` | internal/app/store.go:652-687 | pages 1 to TotalPages, one after the other, are exactly the selected rows in order |
| `Pagination.PagesAreFilled` | internal/app/store.go:652-687 | no page is empty or above the page size, and all but the last are full |
| `Pagination.WalkVisitsAllPages` | internal/app/handlers.go:432-437 | following NextPage visits exactly these pages |
| `Epochs.AcceptedTokensWereEarned` | internal/app/store.go:336-349 | in every interleaving of logins and password changes, an accepted token was issued by a request that before had matched a password against the hash now in force, or had set it |
| `Epochs.ChangesWereAuthorized` | internal/app/handlers.go:98-152 | every password change was made by a request that had presented an accepted session, itself issued to a request vouched for its version, and that had given the password of the version it read, unless that was the first one, whose change is forced |
| `Epochs.LateSessionsAreNeverAccepted` | internal/app/handlers.go:39-80 | a session inserted by a request whose version is outdated is never accepted, in any continuation |
| `Epochs.ChangeMakesStale` | internal/app/store.go:303-321 | a password change outdates every login and every other change that already holds a version |
| `Epochs.LateRowExistsButIsRefused` | internal/app/handlers.go:69-71 | the race itself: the late row is in the table, and is refused at all times |
| `Epochs.StepKeeps` | internal/app/handlers.go:134-152 | every step keeps: rows, requests and password changes are backed by what happened before them |
| `Sessions.SessionStore.ChangePassword` | internal/app/store.go:303-321 | hash, flag, version + 1 and no sessions, all together, or no change |
| `Sessions.SessionStore.CreateSession` | internal/app/store.go:329-334 | the row under the digest of the token, with the caller's version |
| `Sessions.SessionStore.Session` | internal/app/store.go:336-349 | accepts exactly a row of the present version whose expiry text lies above the present time |
| `Sessions.SessionStore.DeleteSession` | internal/app/store.go:351-355 | removes the row of the token, so that Sessions.LogoutEndsOneSession applies |
| `Sessions.SessionStore.PurgeExpiredSessions` | internal/app/store.go:357-360 | keeps exactly the rows whose expiry text lies above the present time |
| `Sessions.SessionStore.UpdateSettings` | internal/app/store.go:323-327 | retention and proxies; hash and version stay |
| `Sessions.PurgeChangesNoAnswer` | internal/app/store.go:357-360 | purging never changes the answer to any token from then on |
| `Sessions.ChangeEndsEverySession` | internal/app/store.go:303-321 | after a change a token is accepted only with a new row of the new version |
| `Sessions.LogoutEndsOneSession` | internal/app/store.go:351-355 | the token is refused at all times, and the answer to every other token stays |
| `Sessions.NewSessionIsAccepted` | internal/app/store.go:329-349 | a new row is accepted exactly until its expiry and for the present version; the answer to every other token stays |
| `Sessions.SettingsKeepSessions` | internal/app/store.go:323-327 | the settings form changes neither password nor version nor any answer |
| `Sessions.ChangeSetsPassword` | internal/app/store.go:303-321 | hash, flag and version as written; retention and proxies stay; no session remains |
| `Logins.LoggedOutStaysOut` | internal/app/handlers.go:82-89 | after a logout the token is refused in every continuation, until a session is created with a token of its digest |
| `Logins.LogoutOfOthers` | internal/app/handlers.go:82-89 | no other token is affected |
| `Logins.SessionsOutlive` | internal/app/handlers.go:39-152 | a restart ends requests and no session; only changes, logouts, purges and new sessions touch the sessions |
| `Logins.TableSteps` | internal/app/store.go:323-360 | purging and saving the settings are steps that do just that |
| `Logins.LoginSucceeds` | internal/app/handlers.go:39-80 | the right password, let through by the limiter, gets a session that is accepted until it expires |
| `Logins.LoginRefused` | internal/app/handlers.go:45-58 | a wrong password, or one against the limiter, changes nothing |
| `Logins.FormJudged` | internal/app/handlers.go:98-133 | the form is accepted exactly by its rules: the current password unless a change is forced, four characters, 72 bytes, given twice, different |
| `Logins.ChangeSucceeds` | internal/app/handlers.go:134-152 | the new password is in force, its request has the only session, and every other token is refused |
| `Logins.NewPasswordsFollowTheRules` | internal/app/handlers.go:98-138 | in every run each password put in force had passed the rules of the form, and the hash is one of it |
| `Logins.MatchesWereAllowed` | internal/app/handlers.go:45-58 | in every run a password matched only in a form, or in a login that the limiter had let through |
| `Limiter.FifthFailureLocks` | internal/app/app.go:340-353 | failures of a new address within one window: four lock nothing, each from the fifth on locks for 15 minutes after it |
| `Limiter.LocksEnd` | internal/app/app.go:333-353 | in every run, overlaps included, a lock ends within 15 minutes |
| `Limiter.SuccessForgets` | internal/app/app.go:355-359 | a success forgets all failures of its address and none of another |
| `Limiter.CheckAndFail` | internal/app/app.go:333-353 | a check passes exactly without a standing lock and changes no entry; a failure counts for its own address only |
| `Limiter.FailuresPerWindow` | internal/app/app.go:333-359 | with at most k logins of an address between check and report, more than 2k + 6 failures in a row span at least 15 minutes |
| `Limiter.BoundIsReached` | internal/app/app.go:333-359 | for every k a run with 2k + 6 failures in a row within one nanosecond: the bound cannot be improved |
| `Limiter.AtMostEightFailuresPerWindow` | internal/app/app.go:333-359 | so without overlapping logins any nine consecutive failures of an address span at least 15 minutes |
| `Limiter.NoFailureUnderLock` | internal/app/app.go:333-338 | without overlapping logins of an address no failure is recorded under a lock |
| `Limiter.StandingLockSurvivesIff` | internal/app/app.go:340-353 | in every reachable state, overlapping logins included, a failure recorded under a lock keeps the lock exactly while the window is not over |
| `Limiter.OverlapErasesLock` | internal/app/app.go:340-353 | a run of two overlapping logins whose last failure erases a lock that had nearly a whole window to go |
| `Limiter.LoginLimiter.Allowed` | internal/app/app.go:333-338 | open exactly when no lock lies ahead |
| `Limiter.LoginLimiter.Fail` | internal/app/app.go:340-353 | the address gets its next entry; all other entries stay |
| `Limiter.LoginLimiter.Success` | internal/app/app.go:355-359 | the entry goes; all other entries stay |
| `DbTime.RoundTrip` | internal/app/store.go:871-873 | parsing a formatted instant of the years 0 to 9999 gives the instant back, to the nanosecond |
| `DbTime.TextOrderIsTimeOrderIff` | internal/app/store.go:871 | texts compare as their instants exactly when these do not lie in one second with one trimmed fraction a proper prefix of the other |
| `DbTime.DifferentSecondsInOrder` | internal/app/store.go:871 | in different seconds texts are always in order |
| `DbTime.FullSecondComesLast` | internal/app/store.go:871 | a full second is text-later than every other moment of that second |
| `Calendar.ToCivilUnique` | internal/app/store.go:871 | the conversion to UTC calendar time is one to one on these years |
| `Calendar.CivilOrder` | internal/app/store.go:871 | comparison field by field is comparison of instants, leap years included |
| `Deadlines.SessionExpiry` | internal/app/store.go:336-349 | a session is accepted until its expiry and not after, except for inverted texts; never wrong by a second |
| `Deadlines.PurgeOfSessions` | internal/app/store.go:357-360 | purging is right up to less than a second |
| `Deadlines.CleanupOfLogs` | internal/app/store.go:841-851 | cleanup is right up to less than a second, and exactly right but for inverted texts |
| `Deadlines.RetentionExactIff` | internal/app/handlers.go:471 | the retention product is exact in 64 bits exactly up to 106751 days, so for all 36500 |
| `DbTime.TextShows` | internal/app/store.go:871 | the text has the fields of the UTC time at the positions of section 5.6 of RFC 3339, a fraction only if it is not zero, and no trailing zeros |
| `Calendar.DayLater` | internal/app/store.go:871 | a day later it is the same time of the next date of the Gregorian calendar |
| `Calendar.MonthStarts` | internal/app/store.go:871 | the days before each month, in common and leap years |
| `Calendar.DaysInClosedForm` | internal/app/store.go:871 | the days before each year: 365 each, and one for every leap day |
| `Calendar.Year1970` | internal/app/store.go:871 | the Unix epoch is 719528 days after the beginning of the year 0 |
| `Reading.RemoteWithPort` | internal/app/clientip.go:177-181 | a peer written with a port, in any white space, is read as its normalized address |
| `Reading.RemoteWithoutPort` | internal/app/clientip.go:182-187 | so is one without a port, bare or bracketed; anything else is no address |
| `Reading.ForwardedReads` | internal/app/clientip.go:219-229 | a header address is admitted exactly if it parses and has no zone, in any white space |
| `Reading.RealReads` | internal/app/clientip.go:211-217 | X-Real-IP counts exactly as one line with one such address |
| `Reading.ChainReads` | internal/app/clientip.go:190-209 | a header of such addresses between commas is read as just these, in order; any other part makes it malformed |
| `Reading.SingleEntryReads` | internal/app/clientip.go:152-160 | an entry without a slash is one address, in any of its forms, and no other |
| `Reading.RangeEntryReads` | internal/app/clientip.go:161-174 | an entry with a slash is that prefix, refused only if mapped and shorter than 96 bits |
| `Reading.ListReads` | internal/app/clientip.go:129-138 | the items of a list are read back whichever of the five separators stand between them |
| `Reading.TrustedMeansNamed` | internal/app/clientip.go:50-68 | an address is trusted exactly when the list of the environment or the configured one names it |
| `Reading.DefaultTrustIff` | internal/app/clientip.go:70-77 | trust by default applies exactly while both lists are empty |
| `Reading.UntrustedPeerIsClient` | internal/app/clientip.go:79-87 | a peer with a port that no list names is the client, whatever headers it sends |
| `Reading.ProxiedClientIsRead` | internal/app/clientip.go:90-105 | from a trusted peer with a port the last address written in the chain that no list names, else the peer |
| `Reading.RealIpIsRead` | internal/app/clientip.go:106-108 | without X-Forwarded-For the X-Real-IP of a trusted peer, if it is an address |
| `Intervals.PrefixIsInterval` | internal/app/clientip.go:50-68 | a stored prefix holds exactly the addresses of the interval of numbers it begins |
| `Intervals.MappedIsInterval` | internal/app/clientip.go:165-172 | the IPv4-mapped addresses are the interval ::ffff:0:0/96 (section 2.5.5.2 of RFC 4291), and unmapping subtracts its beginning |
| `Intervals.NormalizeMeans` | internal/app/clientip.go:231-233 | normalizing drops the zone, unmaps mapped addresses, and changes nothing else |
| `ClientIp.TrustedSetPreserved` | internal/app/clientip.go:129-175 | the list is accepted exactly when all parts are admissible; masking, unmapping and de-duplication keep the set of trusted addresses |
| `ClientIp.ParseTrustedProxyPrefixes` | internal/app/clientip.go:129-150 | the loop with its `seen` map yields that list, refusing the whole text for one bad part |
| `ClientIp.PrefixesCanonical` | internal/app/clientip.go:129-175 | every stored prefix is masked, zone-free and not IPv4-mapped, and none occurs twice |
| `ClientIp.CanonicalTrustedProxies` | internal/app/clientip.go:235-245 | the loop yields the canonical text |
| `ClientIp.CanonicalTextIsFixed` | internal/app/clientip.go:235-245 | the canonical text parses back to the same prefix list and is its own canonical text, so a list saved by the settings form is always applied |
| `Addresses.UnmappedContains` | internal/app/clientip.go:167-174 | a mapped prefix of length n >= 96 holds a mapped address exactly when the stored IPv4 prefix of length n - 96 holds the unmapped one |
| `Addresses.StoredKeepsMeaning` | internal/app/clientip.go:152-175 | the stored prefix holds exactly the addresses the entry names |
| `Addresses.StoredCanonical` | internal/app/clientip.go:152-175 | the stored prefix is canonical |
| `Addresses.MaskedStaysNormal` | internal/app/clientip.go:174 | masking makes no address IPv4-mapped that was not |
| `Addresses.NormalizeOnce` | internal/app/clientip.go:231-233 | normalizing is idempotent and undoes IPv4 mapping |
| `Resolver.ClientIpResolver.Resolve` | internal/app/clientip.go:79-108 | the last untrusted address of a well-formed chain from a trusted peer, else the peer; the X-Real-IP fallback; "unknown" without a remote address; a peer with a port is read as its address, and is the client unless it is trusted |
| `Resolver.ClientIpResolver.SetConfigured` | internal/app/clientip.go:39-48 | replaces the list, or leaves it when the text does not parse |
| `Resolver.ClientIpResolver.IsTrusted` | internal/app/clientip.go:50-68 | trusted exactly when a prefix of either list holds the normalized address |
| `Resolver.ClientIpResolver.IsTrustedPeer` | internal/app/clientip.go:70-77 | or, by default, when both lists are empty |
| `Resolver.ParseForwardedFor` | internal/app/clientip.go:190-209 | absent, malformed as soon as one part is, or the chain of normalized addresses |
| `Resolver.ParseForwarded` | internal/app/clientip.go:219-229 | an accepted address is normalized and has no zone |
| `Resolver.ParseRemote` | internal/app/clientip.go:177-188 | an accepted peer is normalized; what is accepted is stated by Reading.RemoteWithPort and Reading.RemoteWithoutPort |
| `Resolver.ParseReal` | internal/app/clientip.go:211-217 | an accepted X-Real-IP is normalized |
| `Resolver.BlankIsMalformed` | internal/app/clientip.go:195-197 | the blank-header test changes no answer |
| `Resolver.LinesConcatenate` | internal/app/clientip.go:190-209 | the chain of several header lines is the chains of the lines one after another, and malformed as soon as one line is |
| `Resolver.CombinedLine` | internal/app/clientip.go:195 | combining any lines into one changes no answer (section 5.2 of RFC 9110) |
| `Resolver.ResolvedUnique` | internal/app/clientip.go:79-108 | there is one answer |
| `Resolver.LeftEntriesDoNotMatter` | internal/app/clientip.go:97-105 | entries to the left of an untrusted address never change the answer |
| `Resolver.DefaultTrustTakesLastAddress` | internal/app/clientip.go:70-77 | without any list and with every peer trusted by default the last address of the chain counts |
| `UserAgent.Truncate` | internal/app/handlers.go:511-517 | short headers stay; of a longer one the longest valid UTF-8 prefix of at most 1024 bytes, losing at most 3 bytes of valid text |
| `UserAgent.ValidIffEncoded` | internal/app/handlers.go:514 | the byte-level validity test accepts exactly the encodings of scalar values (section 4 of RFC 3629) |
| `UserAgent.PrefixIsWholeCharacters` | internal/app/handlers.go:514-516 | what remains of a valid header is the encoding of its first characters |
| `Content.ContentIsKept` | internal/app/helpers.go:43-47 | nothing but line endings and the white space around the content is changed |
| `Content.NormalForm` | internal/app/helpers.go:43-47 | normalized content has no carriage return and is its own normal form |
| `Content.LineEndingsDoNotMatter` | internal/app/helpers.go:43-47 | LF, CRLF and CR line endings give the same content |

## Left out

- HTTP routing, cookies, CSRF tokens, response headers, templates and redirects: input and output without state of their own. Requests begin where the handler has its parameters.
- SQLite, bcrypt, SHA-256 and MD5 themselves: transactions are atomic, verification is a relation, SHA-256 is injective.
- Losing power (write-ahead log, directory fsync) and several processes on one data directory: only crashes of a single process are modelled.
- A call that takes effect and yet reports an error is modelled for uploads and deletions in the machine only: a recorded access, an edit or a session whose transaction reports an error has not happened, and the sequential handlers are about calls that fail without effect.
- SQLite's limit on the number of variables of one statement, and the 64-bit width of ids, counters and OFFSET: integers are unbounded except in the retention period.
- Instants outside the years 0 to 9999 of UTC, whose texts have no four-digit year.
- Text syntax of addresses and prefixes, and numeric zone offsets in times: `dbTime` only writes UTC.
- detectClient, formatBytes, sanitizeFilename, content types, path validation, list pages and QR codes: single facts about one expression each. The storage key is the one Stage makes, so the path checks of FileStorage.path are not part of this model.
- createUploadedFileSubscription, createFileAssociation and detachSubscriptionFile as handlers: they are SaveUploadedFile followed by one modelled transaction, or that transaction alone.
- Failing reads of the database in front of a handler's work (loadStoredFile, loadSubscription, SubscriptionByPath): they end the request before it changes anything.
- Limiter.FailuresPerWindow: assumes a monotone clock; k, the number of logins of one address between their check and their report, is a parameter because the server does not limit it.
- Pagination.PagesPartitionTheLog: is about one database; between the requests for two pages, or the two statements of one, logs may come and go.
- Epochs.AcceptedTokensWereEarned: starts from a new database, because session rows of an unknown origin carry no evidence; restarts are part of the run. The login and change-password handlers appear as steps of this machine and not as sequential methods; the limiter enters as an arbitrary yes or no.
- Effects.RecordWritesLine: the address, client, user agent, method and status of an access are parameters of the step that records it; that they are those of the HTTP request is the handler's input.
- Handlers.App.SaveUploadedFile: is about an uninterrupted request; interleavings are the subject of the machine, whose jobs are values and not objects.
- Serving.EveryRowHasItsBlob: blobs changed by hand in the directory are outside the model.
