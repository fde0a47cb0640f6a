# Verification of the data-access packages

A Dafny model, with proofs, of the six algorithmic parts of the library: the SQL migration engine, the
multipart transfer planner, the parallel Kafka consumer, the connection monitor and reconnector, the buffer
pool with the object read paths, and the schema registry client with the pgvector statement printer.
`dafny verify dfyconfig.toml` checks everything.

## How it is built

Sequential code (migrations, planners, caches, read loops, the statement printer) is modelled as methods and
classes with the fields and loops of the original. Whatever the outside world decides (which statement the
server rejects, which request fails, what a read returns) is an argument or a free choice, so a contract
speaks about every combination of failures. Where a method changes state, its contract equates the new state
with a function of the old one, and the lemmas are about that function.

Concurrent code (consumer pool, monitor and reconnector, buffer pool, registry caches) is modelled as steps.
One action is what one goroutine does between two points where others can interfere; `Enabled` says when it
may happen, `Next` what it does; a run is any list of enabled actions, so a lemma about all runs is about all
interleavings. History fields (messages fetched, connections installed, calls begun) record what a property
needs to remember.

| file | part |
|---|---|
| `Text`, `Sorting`, `Bytes` | splitting, joining, decimal numbers, Go's string order; `sort.Slice`; bytes |
| `MigrationFiles`, `MigrationEngine`, `MigrationRuns` | migration file names, one run, whole histories of runs |
| `Float64`, `PartPlan`, `LargeFiles`, `Multipart`, `RangePlan` | float64 quotients, part sizes, part sizes from 2^53 bytes up, upload and assembly, download ranges |
| `ConsumerPool` | ConsumeParallel and Consume |
| `Reconnect` | MonitorConnection, RetryConnection, the stop hook, GracefulShutdown, in both variants |
| `StopPaths` | the stop hook and any number of GracefulShutdown calls at once |
| `PoolProtocol`, `ObjectReads` | the buffer pool under concurrency, and as Get and StreamGet use it |
| `WireFormat`, `SchemaCache`, `SchemaClient` | the five-byte header, the caches under concurrency, client and wrappers |
| `SqlLexer`, `VectorIndex` | lexical rules of PostgreSQL, CREATE INDEX printer and parser |

## What turned out not to hold as stated

In each case but the last the exact condition is a theorem.

- `MigrateDown` is documented as rolling back the most recent migration. It does so exactly when that one has
  the greatest id (`MigrationRuns.DownTakesLatest`). Rolling everything back reverses the commits exactly when
  the rows are in id order (`MigrationRuns.RollbackOrder`), which after a `MigrateUp` means exactly when every
  pending id exceeded every applied one (`MigrationRuns.RollbackAfterUp`). Otherwise the wrong script can run
  (`MigrationRuns.LateFileHappens`).
- File names round-trip exactly when id and type hold no underscore or dot and the name no dot
  (`MigrationFiles.PrintThenParse`).
- `GracefulShutdown` closes the signal channel without waiting. It can end in a send on a closed channel
  exactly when a monitor loop is running at the call (`Reconnect.GracefulIsSafe`). Nor does it wait for the
  reconnector: a connection can be installed after the close, and stay open, exactly when an attempt is under
  way as it signals (`Reconnect.GracefulClosesLast`). The minio `GracefulShutdown` is documented as closing its
  channel but does not, and so never makes a send fail. With the stop hook and such calls at once no channel is
  closed twice (`StopPaths.OnlySendsPanic`); that send is the only panic left, under the same condition
  (`StopPaths.PathsAreSafe`).
- A stopped client ends in at most 18 steps and three for each further tick (`Reconnect.StopBounded`). No
  constant alone bounds them, because a Go `select` with several ready cases may take the tick instead of the
  shutdown signal: a constant exists exactly when the monitor loop has ended (`Reconnect.ConstantBound`).
- The pool counter is documented as the number of buffers in the pool. `Get` never decrements it: it is the
  number of Puts counted since the last `Cleanup`, and even as an upper bound it fails, exactly when a Put is
  between its check and its insertion as `Cleanup` begins (`PoolProtocol.CleanupRaces`). Once the counter is at
  the limit no Put is accepted until a `Cleanup` and the pool only shrinks (`PoolProtocol.FullStays`); one caller
  with one buffer at a time gets there with the pool empty (`PoolProtocol.FullButEmpty`).
- The size limit can be raised above 2^53 bytes, where float64 no longer holds every size. A plan is then
  shorter than its file exactly when the size is rounded down onto a multiple of the part size, which for
  minimum part sizes up to 858993 MiB is a multiple of 10000 MiB (`LargeFiles.PlanTooShort`). Up to
  9007204925440000 bytes every plan is long enough (`LargeFiles.SufficientUpTo`); the next size gets 10000
  parts with one byte too few (`LargeFiles.FirstLosingSize`).
- A negative size is not rejected. It is a Go panic exactly when it is a whole minimum part below zero, and a
  plan without parts otherwise (`LargeFiles.NegativePlan`).
- A configured minimum part size below 5 MiB can give plans S3 refuses. `Multipart.Assembles` says on the
  inputs when a plan is accepted: the file fits in one minimum part, or is at least ten of them and at most
  1 MiB, or is larger than 40000 MiB. The end-to-end theorem `Multipart.UploadAssembles` is about the plan the
  code computes, and joins this condition with the one on rounding above.
- The registration cache key belongs to one registration alone exactly when subject, type and schema have no
  colon, so never for a JSON object (`SchemaCache.KeyUnique`). Two registrations without a colon in subject or
  type never share a key, whatever their schemas (`SchemaCache.KeyInjective`). A cached registration makes
  some request for its key get a wrong id exactly when it has a colon (`SchemaCache.WrongAnswers`).
- A schema id survives the header exactly when it fits in 32 bits (`WireFormat.EncodeThenDecode`).
- A CREATE INDEX statement reads back exactly when table and column are not empty and the operator class is a
  name, perhaps qualified by a schema, of lower-case words and quoted identifiers; quoting covers every other
  character in the names of index, table and column (`VectorIndex.RoundTrip`).
- The package documentation shows `MigrateDown` with a step count; the code rolls back one migration.

## Model

| member | source | states |
|---|---|---|
| Text.JoinSplit | postgres/migrations.go:375-392 | joining what was split gives the text back, so a name keeps its underscores |
| Text.SplitJoin | postgres/migrations.go:502-510 | splitting what was joined gives the parts back when no part holds the separator |
| Text.NumericOrder | postgres/migrations.go:186-188 | on digit strings of one length, such as 14-digit timestamps, the string order used for sorting is the numeric order, both ways |
| Text.LessAtDifference | postgres/migrations.go:186-188 | that string order is decided at the first difference, a proper prefix being smaller, for all strings |
| Text.DecimalValue | postgres/pgvector.go:174-177 | `%d` of a number is read back as that number |
| Text.DecimalCanonical | postgres/pgvector.go:174-177 | and has no leading zero |
| Sorting.OrderedUnique | postgres/migrations.go:186-188 | an unstable sort of elements with distinct keys has one possible result |
| Sorting.SortSlice | postgres/migrations.go:186-188 | the result is an ordered permutation; nothing is promised about the order of equal keys |
| Sorting.SortInPlace | minio/presigned_put_utils.go:479-481 | the array ends up an ordered permutation of what it held |
| MigrationFiles.PrintThenParse | postgres/migrations.go:375-392 | the loader reads back exactly the fields CreateMigration printed if and only if id and type hold neither separator and the name no dot |
| MigrationFiles.ParseOtherDirection | postgres/migrations.go:382-384 | loading one direction skips the file of the other |
| MigrationFiles.ParseThenPrint | postgres/migrations.go:375-392 | every file name the loader accepts is the print of what it read from it |
| MigrationFiles.LoadMigrations | postgres/migrations.go:361-410 | all parsable files of the direction in directory order; it fails if and only if one of them cannot be read |
| MigrationFiles.Directory.CreateMigration | postgres/migrations.go:501-531 | which files exist afterwards for every way it can fail, names and contents spelled out, and the base name returned |
| MigrationFiles.CreatedNames | postgres/migrations.go:375-392 | the loader reads the name ending in .up.sql as the up file of these fields and the name ending in .down.sql as the down file, and skips each in the other direction |
| MigrationFiles.TemplateIsComment | postgres/migrations.go:512-514 | a fresh file is these three lines and says nothing to SQL: each line is empty or a comment, as long as no name breaks a line |
| MigrationFiles.WriteNewFile | postgres/migrations.go:521-528 | writing a file whose name is new adds it and touches no other |
| MigrationFiles.CreatedPairLoads | postgres/migrations.go:501-531 | a created pair adds exactly one migration in each direction to what is loaded |
| MigrationEngine.LastRecord | postgres/migrations.go:280 | a row of the history that no other row's id exceeds |
| MigrationEngine.Postgres.MigrateUp | postgres/migrations.go:155-258 | for every failure: the state and error of running the sorted, unapplied files one transaction at a time up to the first failure |
| MigrationEngine.Postgres.AppliedIds | postgres/migrations.go:172-176 | the lookup map holds exactly the ids of the history |
| MigrationEngine.Postgres.RunPending | postgres/migrations.go:190-254 | the loop that skips applied files does what running the filtered list would |
| MigrationEngine.Postgres.ApplyOne | postgres/migrations.go:196-247 | script and history row take effect together or not at all, whichever call fails |
| MigrationEngine.Postgres.MigrateDown | postgres/migrations.go:274-346 | for every failure: the down file of the greatest id runs and its row goes in one transaction, or nothing changes |
| MigrationEngine.Postgres.GetMigrationStatus | postgres/migrations.go:432-483 | one entry per up file, with the name and type of the file of that id and its applied flag, ordered by id; it fails if and only if the history or a file cannot be read |
| MigrationRuns.UpCommitsPrefix | postgres/migrations.go:155-258 | a MigrateUp that stops anywhere has committed a prefix of the sorted pending list, all of it on success, and what is pending afterwards is the rest |
| MigrationRuns.UpStopsAtFirst | postgres/migrations.go:190-254 | a run that reaches its loop commits the pending migrations up to the first whose transaction meets a fault or whose script is rejected, and reports the first call of that one that failed; nothing if there is none |
| MigrationRuns.UpErrors | postgres/migrations.go:155-188 | before the loop each error exactly in its case, with nothing committed |
| MigrationRuns.UpResumes | postgres/migrations.go:155-258 | after any number of failed runs, a rerun that succeeds reaches the state of one uninterrupted run |
| MigrationRuns.UpIdempotent | postgres/migrations.go:190-195 | a run after a successful run changes nothing |
| MigrationRuns.UpHealthy | postgres/migrations.go:155-258 | without faults every pending script that runs is committed |
| MigrationRuns.StatusPredicts | postgres/migrations.go:432-483 | the unapplied status entries are, in order, what the next MigrateUp executes, under the names and types of their files |
| MigrationRuns.AddGoesLast | postgres/migrations.go:501-510 | a file with the greatest id becomes the last of the sorted list |
| MigrationRuns.UpKeepsStack | postgres/migrations.go:155-258 | MigrateUp, failing or not, turns a stack of applied migrations into a higher one |
| MigrationRuns.DownKeepsStack | postgres/migrations.go:274-346 | MigrateDown, failing or not, takes at most the top off the stack, and takes it off when it succeeds |
| MigrationRuns.DownOutcome | postgres/migrations.go:274-346 | MigrateDown succeeds if and only if nothing fails, the greatest id has a down file and its script runs; then that script has run and that row is gone; nothing changes otherwise, unless the commit took effect and still reported an error |
| MigrationRuns.DownErrors | postgres/migrations.go:274-330 | each error exactly in its case |
| MigrationEngine.RemoveExact | postgres/migrations.go:326-333 | the delete takes out the rows of that id and no others |
| MigrationRuns.HealthyDownPops | postgres/migrations.go:274-346 | with nothing failing, MigrateDown does take the top off a stack whose top has a down file |
| MigrationRuns.CompleteRollback | postgres/migrations.go:274-346 | with nothing failing and a down file for each applied migration, as many MigrateDowns as rows succeed and lead back to the initial database |
| MigrationRuns.HealthyUpFills | postgres/migrations.go:155-258 | with nothing failing, MigrateUp raises a stack to the height of the files when their scripts run |
| MigrationRuns.StackTheorem | postgres/migrations.go:155-346 | after any sequence of new files with growing ids, MigrateUp and MigrateDown, failures included, the history is a prefix of the files by id and the database is the initial one with exactly those up scripts applied in order |
| MigrationRuns.EmptyIsStacked | postgres/migrations.go:137-150 | an empty history is such a stack, so the theorem covers every deployment from its start |
| MigrationRuns.RolledBack | postgres/migrations.go:274-346 | rolling everything back restores the initial database |
| MigrationRuns.CommitOrderIsIdOrder | postgres/migrations.go:280 | after a successful run rows are in commit order and id order at once if and only if every pending id exceeded every applied id |
| MigrationRuns.DownTakesLatest | postgres/migrations.go:260-280 | a successful MigrateDown removes the row committed last if and only if it has the greatest id |
| MigrationRuns.RollbackOrder | postgres/migrations.go:260-346 | successful MigrateDowns until the history is empty remove the rows in reverse commit order if and only if they were committed in id order |
| MigrationRuns.RollbackAfterUp | postgres/migrations.go:155-346 | after a successful MigrateUp on a history in id order that is so if and only if every pending id exceeded every applied id |
| MigrationRuns.LateFileBlocksRollback | postgres/migrations.go:280-298 | on any directory whose up files are one applied and one earlier-dated pending file: scripts that undo each other, a MigrateUp that succeeds, and a MigrateDown that picks the wrong script and is rejected |
| MigrationRuns.LateFileHappens | postgres/migrations.go:155-346 | such a directory and both runs, from an empty database and no files, for any two names |
| MigrationRuns.PushPopUndoes | postgres/migrations.go:306-312 | the scripts of that counterexample do undo each other |
| ConsumerPool.Conservation | kafka/utils.go:84-178 | in every interleaving fetched messages are the disjoint union of received, buffered, held and dropped; nothing is dropped before a stop signal, at most one message per worker; each worker's messages keep their order |
| ConsumerPool.ClosedOnce | kafka/utils.go:89-110 | the output channel is closed at most once and only after all workers returned, nothing is sent on it afterwards, the caller is released only after the close |
| ConsumerPool.KeepsConsuming | kafka/utils.go:84-178 | with a reader and nothing to stop it, the pool has the workers asked for, at least one, every started one stays in its loop, and the channel stays open |
| ConsumerPool.Delivers | kafka/utils.go:114-178 | in every state of such a pool, whatever worker w is doing, the pool can go on to deliver any message FetchMessage returns to w |
| ConsumerPool.ErrorRetries | kafka/utils.go:150-163 | an error of FetchMessage that is not the context's leads the worker back into FetchMessage and changes nothing else |
| ConsumerPool.ContextErrorEnds | kafka/utils.go:150-157 | one that is the context's ends the worker: it fetches nothing more in any continuation |
| ConsumerPool.NoReaderNoFetch | kafka/utils.go:130-139 | without a reader nothing is ever fetched |
| ConsumerPool.AllReceived | kafka/utils.go:84-178 | once the channel is closed, a caller who takes out the rest has received every message fetched but the dropped ones |
| ConsumerPool.SingleWorkerPrefix | kafka/utils.go:53-55 | with one worker the received messages are a prefix of the fetched ones |
| ConsumerPool.StopBounded | kafka/utils.go:114-178 | after a stop signal the goroutines take at most four steps per worker and three more |
| ConsumerPool.SignalsStop | kafka/utils.go:116-129 | this holds from the moment of either signal, shutdown or cancellation, each possible in every state |
| ConsumerPool.StopProgress | kafka/utils.go:89-178 | and until the caller has been released some step is enabled, a return of FetchMessage only when every worker left is in FetchMessage |
| ConsumerPool.FetchingBlocks | kafka/utils.go:141 | in that case the pool does wait for FetchMessage to return |
| ConsumerPool.StopEndsFetching | kafka/utils.go:118-150 | after a stop signal a worker completes at most the fetch it is in |
| ConsumerPool.InvRun | kafka/utils.go:84-178 | the invariant behind these holds in every reachable state for any number of workers |
| Reconnect.NoFailureLost | postgres/setup.go:115-182 | before shutdown, whenever the reconnector is idle and no signal waits, the connection in use was installed after the latest failure signal, by an attempt that began after it, in both variants |
| Reconnect.ChecksAreSignalled | postgres/setup.go:170-177 | every tick the monitor takes is one health check; it signals once for each failed check and never for a passed one, in both variants |
| Reconnect.NoFailedCheckLost | postgres/setup.go:115-182 | so the same holds of failed checks: unless one is about to be signalled, a signal waits or the reconnector is at work, the connection in use comes from an attempt that began after the latest failed check |
| Reconnect.FailingCheckReconnects | postgres/setup.go:115-182 | and it can be met: from any state before shutdown with the monitor between two checks, a failing check and then reconnector steps alone lead to such a connection |
| Reconnect.FailureRetries | postgres/setup.go:133-141 | a failed attempt installs nothing and is followed by another one |
| Reconnect.InstallsAreTried | minio/setup.go:360-445 | a client pointer changes only to the connection of the latest attempt, after every call of it succeeded: one for postgres, the two connects and the listing for minio |
| Reconnect.ClientsPaired | minio/setup.go:320-445 | outside a swap both minio clients come from the same attempt, and no send can fail on any stop path |
| Reconnect.StopIsSafe | postgres/fx_module.go:126-167 | on the stop hook nothing is sent on a closed channel, no channel is closed twice, and the connection closed is the last one installed, after both loops ended |
| StopPaths.OnlySendsPanic | postgres/fx_module.go:144-181 | with the stop hook and any number of GracefulShutdown calls interleaved, no channel is closed twice: the only step that can panic is the monitor's send on the closed signal channel |
| StopPaths.PathsAreSafe | postgres/fx_module.go:144-181 | no interleaving panics if and only if there is no such call, or the monitor loop has ended, or the client is the minio one |
| StopPaths.HookCovers | postgres/fx_module.go:144-167 | once the hook has finished, both loops have ended and the connection in use has been closed, whatever the calls closed before |
| Reconnect.StopEndsAttempts | postgres/setup.go:115-152 | once stopped no attempt begins, at most the one under way ends, and at most that one is installed |
| Reconnect.StopBounded | postgres/setup.go:115-182 | after the stop signal at most 18 goroutine steps, and three for each further tick |
| Reconnect.EitherStops | postgres/setup.go:119-132 | the same bound, and no further attempt, from the moment the context is cancelled or the hook signals |
| Reconnect.ConstantBound | postgres/setup.go:157-182 | a constant bounds the steps of a stopped client if and only if its monitor loop has ended |
| Reconnect.TicksProlong | postgres/setup.go:165-178 | the runs that exceed any bound: the ticker chosen over the stop signal again and again |
| Reconnect.StopProgress | postgres/fx_module.go:144-167 | nobody waits for ever: some goroutine can move until both loops and the hook have ended |
| Reconnect.GracefulIsSafe | postgres/fx_module.go:169-196 | GracefulShutdown can never lead to a send on a closed channel if and only if no monitor loop is running when it is called |
| Reconnect.SendOnClosed | postgres/fx_module.go:169-181 | the run that shows it |
| Reconnect.GracefulClosesLast | postgres/fx_module.go:169-196 | what GracefulShutdown closes is and stays the connection in use, in every continuation, if and only if no reconnect attempt is under way as it signals |
| Reconnect.LateInstall | postgres/setup.go:133-146 | the run that shows it |
| Reconnect.NumberedRun | postgres/setup.go:133-146 | in every reachable state the attempt under way made a connection that is not the one in use |
| Float64.CeilQuotientExact | minio/presigned_put_utils.go:206-222 | under any rounding that is exact on integers to 2^53 with relative error 2^-53, the float64 ceiling is exact ceiling division, for all sizes below 2^53 and all positive int64 divisors |
| Float64.Compare | minio/presigned_put_utils.go:206-222 | a rounded quotient is on the same side of a whole number as the exact one, for dividends of any int64 size that are multiples of their float64 gap |
| PartPlan.CalculateOptimalPartSize | minio/presigned_put_utils.go:196-225 | below 2^53 the float64 computation equals its exact-arithmetic form: part size, and part count as the exact ceiling |
| LargeFiles.PlanOfRounded | minio/presigned_put_utils.go:196-225 | from 2^53 up the plan is the exact plan of the rounded size |
| LargeFiles.PlanTooShort | minio/presigned_put_utils.go:196-225 | for every int64 size, under any rounding to nearest, the plan holds fewer bytes than the file if and only if the size is rounded down onto a multiple of the part size, or of 10000 MiB |
| LargeFiles.SufficientUpTo | minio/presigned_put_utils.go:196-225 | no plan is too short for a file of up to 10000 parts of 858994 MiB |
| LargeFiles.FirstLosingSize | minio/presigned_put_utils.go:211-222 | with ties to even the next size gets exactly those parts |
| LargeFiles.CodePlan | minio/presigned_put_utils.go:196-225 | for every int64 size 1 to 10000 parts, the last beginning inside the file, and ending at or after its end if and only if the rounding takes no bytes off |
| LargeFiles.NegativePlan | minio/presigned_put_utils.go:204-207 | a negative size gets a count of zero, or a negative one if and only if it is a whole part below zero |
| PartPlan.PlanIsValid | minio/presigned_put_utils.go:196-225 | for every non-empty file 1 to 10000 parts, all but the last full, the last not empty |
| PartPlan.DefaultPartBounds | minio/configs.go:18-32 | up to 5 TiB under the default minimum a part has 5 to 525 MiB |
| PartPlan.PartSizeMinimal | minio/presigned_put_utils.go:210-214 | above the minimum it is a whole number of MiB and every smaller one needs more than 10000 parts |
| PartPlan.PartSizeMonotone | minio/presigned_put_utils.go:196-225 | a larger file never gets smaller parts |
| Multipart.MinioClient.UpdateUploadConfig | minio/presigned_put_utils.go:171-184 | unset limits get their defaults, set ones stay |
| Multipart.MinioClient.GenerateMultipartUploadURLs | minio/presigned_put_utils.go:251-324 | for every int64 size: which error or panic when, what is aborted, and on success the plan with one signed URL for each part 1..n |
| Multipart.MinioClient.PresignParts | minio/presigned_put_utils.go:289-304 | part numbers 1..n each with its own URL, or the first part that could not be signed |
| Multipart.MinioClient.SortedParts | minio/presigned_put_utils.go:469-490 | the request is the caller's pairs, reordered by part number, none lost or mixed up |
| Multipart.MinioClient.CompleteMultipartUpload | minio/presigned_put_utils.go:457-504 | each error exactly in its case, and only such a request is ever sent |
| Multipart.RequestInOrder | minio/presigned_put_utils.go:479-490 | whatever the caller's order the request lists parts 1..n |
| Multipart.UploadAssembles | minio/presigned_put_utils.go:196-490 | plan, split, upload in any order with repeats, complete with any permutation: by the plan the code computes, for every int64 size: the store assembles the file byte for byte if and only if configuration and size allow it and float64 takes no bytes off the plan |
| Multipart.AssemblesByPlan | minio/presigned_put_utils.go:196-225 | they do if and only if the parts planned in exact arithmetic have 5 MiB or one part is enough |
| Multipart.AssemblesByCode | minio/presigned_put_utils.go:196-225 | and if and only if the parts the code plans do |
| Multipart.PartsAssemble | minio/presigned_put_utils.go:289-490 | for any part size and count, the upload assembles the file if and only if the parts are large enough or one is enough, and they reach its end |
| Multipart.AssembledAreDistinct | minio/presigned_put_utils.go:457-490 | a request the store accepts has strictly ascending part numbers, so a repeated number is refused |
| RangePlan.GenerateRanges | minio/presigned_get_utils.go:123-168 | as many headers as parts of the size asked for, or of 5 MiB when that is zero, all but the last of that size; they parse back to ranges that tile the object, each with its URL; otherwise the first range that could not be signed, all earlier ones having been |
| RangePlan.SignRanges | minio/presigned_get_utils.go:137-168 | one header and one URL for each planned range, or the first that could not be signed |
| RangePlan.RangeBounds | minio/presigned_get_utils.go:138-143 | the clamped bounds of each part, with no int64 overflow on the way |
| RangePlan.RangesTile | minio/presigned_get_utils.go:123-145 | for any total and any positive part size: not empty, in order, contiguous, covering exactly the object |
| RangePlan.TilesPartition | minio/presigned_get_utils.go:133-145 | every byte lies in exactly one range |
| RangePlan.FetchWhole | minio/presigned_get_utils.go:133-145 | the ranges of an object concatenate to the object |
| RangePlan.HeaderParses | minio/presigned_get_utils.go:145 | "bytes=a-b" reads back as (a, b) (section 14.1.2 of RFC 9110) |
| PoolProtocol.PoolRuns | minio/setup.go:107-232 | with N callers the counter never exceeds the limit by more than N - 1 and is the number of Puts counted since the last Cleanup; pooled buffers are empty and not too large; at rest every Put is accepted or discarded and no more buffers were made than Gets |
| PoolProtocol.FiguresCount | minio/setup.go:107-211 | in every run each figure is the number of its events: buffers made, Gets, non-nil Puts, discards, insertions counted |
| PoolProtocol.CarefulRuns | minio/setup.go:141-165 | the pool holds at most the counter plus the Puts that inserted and have not counted, in every run where no Cleanup begins between a Put's check and its insertion |
| PoolProtocol.CleanupRaces | minio/setup.go:215-232 | a Cleanup can break that bound if and only if some Put is between its check and its insertion as it begins |
| PoolProtocol.FullStays | minio/setup.go:128-165 | with the counter at the limit and no Put past its check, no Put is accepted until a Cleanup and the pool only shrinks |
| PoolProtocol.FullButEmpty | minio/setup.go:128-165 | a run of one caller, with buffers of any size not above the maximum, that ends there with an empty pool |
| PoolProtocol.RaceBreaksBound | minio/setup.go:215-232 | the run that shows it |
| ObjectReads.BufferPool.Get | minio/setup.go:128-133 | a reset buffer, new with the initial capacity or out of the pool, that the pool no longer holds; in effect a run of the concurrent steps |
| ObjectReads.BufferPool.Put | minio/setup.go:141-165 | accepted and counted, or discarded and counted; nothing for nil |
| ObjectReads.BufferPool.Cleanup | minio/setup.go:215-232 | the pool is empty and the counter zero |
| ObjectReads.BufferPool.GetStats | minio/setup.go:188-211 | the figures add up and the reuse ratio is never below one |
| ObjectReads.PutAlone | minio/setup.go:141-165 | run alone, the concurrent steps of Put amount to its sequential effect |
| ObjectReads.GetPooledAlone | minio/setup.go:128-133 | the same for a Get out of the pool |
| ObjectReads.ReadFull | minio/object_utils.go:157-158 | fills the array with the next bytes of the object, or the read failed or the object was too short |
| ObjectReads.Copy | minio/object_utils.go:181-182 | appends exactly the rest of the object |
| ObjectReads.GetDirect | minio/object_utils.go:155-165 | a fresh array with the object's exact bytes, or a read failed |
| ObjectReads.GetBuffered | minio/object_utils.go:167-200 | the same through one pooled buffer, given back whether or not the read failed, and no pooled buffer shares the result |
| ObjectReads.Finish | minio/object_utils.go:183-200 | a fresh copy of the buffer unless the read failed, and the buffer given back either way |
| ObjectReads.Get | minio/object_utils.go:115-201 | both paths agree for every object and threshold; each error exactly in its case; the pool is used for objects from the threshold up and no others |
| ObjectReads.StreamGet | minio/object_utils.go:214-308 | after any number of chunks they concatenate to a prefix of the object, to all of it if no error was sent; under a live context the only error is a failed read, and without one there is none; a context ended before is reported before anything is read; chunks are separate arrays and never the read buffer; at most one error; error channel closed before the data channel |
| ObjectReads.ReadChunk | minio/object_utils.go:259-305 | one turn of the loop keeps what was sent equal to what was read, or ends it: at the end of the object, after a failed read, or because the context ended; and makes progress |
| ObjectReads.Deliver | minio/object_utils.go:274-291 | a copy of the bytes read is sent, or, only if the context has ended, the cancellation reported |
| ObjectReads.ConcatPrefix | minio/object_utils.go:259-291 | what had been sent earlier is a prefix of what has been sent later |
| WireFormat.EncodeSchemaID | schema_registry/client.go:415-420 | a zero byte and then the four bytes of the id from the most significant one down |
| WireFormat.BigEndianInjective | schema_registry/client.go:417-433 | four bytes are determined by their number |
| WireFormat.EncodeThenDecode | schema_registry/client.go:415-437 | the payload always comes back, the id if and only if it fits in 32 bits |
| WireFormat.DecodeThenEncode | schema_registry/client.go:424-437 | every accepted message is the encoding of what was decoded |
| WireFormat.AcceptsHeaders | schema_registry/client.go:424-437 | accepted are the messages that begin with a header and no others; refused are the short ones and those with another first byte |
| SchemaCache.KeyInjective | schema_registry/client.go:250 | without colons in subject and type the cache key determines the registration, whatever the schema |
| SchemaCache.KeyCollides | schema_registry/client.go:250 | with a colon in subject, type or schema, a registration of another schema has the same key |
| SchemaCache.KeyUnique | schema_registry/client.go:250 | the key belongs to one registration alone if and only if no part has a colon |
| SchemaCache.WrongAnswers | schema_registry/client.go:246-260 | once a registration is cached under its right id, some request for its key is answered an id not its own if and only if the registration has a colon |
| SchemaCache.CachedWrongAnswer | schema_registry/client.go:246-338 | the run from empty caches that shows it |
| SchemaCache.StoreIdAgrees | schema_registry/client.go:326-330 | storing an answer of the registry leaves every other entry right |
| SchemaCache.InvRun | schema_registry/client.go:122-338 | agreement of both caches with the registry is kept by every interleaving of look-up, request and store |
| SchemaCache.CachesAgree | schema_registry/client.go:122-338 | the schema cache is a submap of the append-only registry, every schema answered is the registry's, and without colons every id answered or cached is the one a fresh registration would return |
| SchemaCache.SchemaRequest | schema_registry/client.go:122-190 | in every state a cached schema is answered at once, one of the registry's is fetched, answered and cached, and anything else is a failure that changes nothing |
| SchemaCache.LatestRequest | schema_registry/client.go:193-243 | the same for the latest version, asked for every time |
| SchemaCache.IdRequest | schema_registry/client.go:246-338 | a registration that is not cached is answered the registry's id, cached under its key |
| SchemaClient.Client.GetSchemaByID | schema_registry/client.go:122-190 | answers exactly when cached or reachable, with the registry's schema, which is cached |
| SchemaClient.Client.GetLatestSchema | schema_registry/client.go:193-243 | always asks the registry, and caches the schema under its id |
| SchemaClient.Client.RegisterSchema | schema_registry/client.go:246-338 | a hit makes no request; any answer is an id of the registry and, without colons, the one of this registration |
| SchemaClient.NewWrapperSerializer | schema_registry/serializer.go:40-61 | each missing setting is its own error, in this order; a missing type becomes AVRO, which registers what the missing type would |
| SchemaClient.WrapperSerializer.Serialize | schema_registry/serializer.go:64-91 | each error exactly in its case; otherwise header of a registered id and then the payload |
| SchemaClient.WrapperDeserializer.Deserialize | schema_registry/serializer.go:122-148 | each error exactly in its case; the target is untouched unless the inner deserializer wrote it, and on success holds the payload or what the inner deserializer wrote |
| SchemaClient.WrapperRoundTrip | schema_registry/serializer.go:64-148 | a written message decodes to its id and payload and names the registered schema, however much the registry has grown |
| SchemaClient.SerializeThenDeserialize | schema_registry/serializer.go:64-148 | on one registry raw bytes go through both wrappers unchanged, for every payload and every 32-bit id |
| SqlLexer.QuoteScans | postgres/pgvector.go:209-211 | scanning a quoted identifier stops at its own closing quote, whatever text follows that does not begin with a quote (section 4.1.1 of the PostgreSQL documentation) |
| SqlLexer.LexPrint | postgres/pgvector.go:182-211 | lexing printed pieces gives their tokens |
| SqlLexer.LexWellFormed | postgres/pgvector.go:182-211 | words come out in lower case and quoted identifiers not empty |
| VectorIndex.HnswWithClause | postgres/pgvector.go:171-180 | prints exactly the options that were set, spelled out for each case |
| VectorIndex.BuildVectorIndexSQL | postgres/pgvector.go:182-207 | the text, spelled out, and that it is the print of the requested index |
| VectorIndex.CreateHNSWIndex | postgres/pgvector.go:139-147 | the statement sent, spelled out, parses back to exactly the request if and only if table and column are named and the operator class is a name, perhaps qualified |
| VectorIndex.CreateIVFFlatIndex | postgres/pgvector.go:155-163 | the same, and an error exactly when the list count is not positive |
| VectorIndex.RoundTrip | postgres/pgvector.go:182-211 | print then parse returns method, name, table, column, operator class, concurrency and options, if and only if the request is printable |

## Left out

- The mariadb package: near-copies of the postgres files, on a server where schema changes commit implicitly.
- AutoMigrate, query builders, row scanners, transactions: forwards to GORM.
- Error translation tables, metrics, tracing, logging, observers, option setters.
- HTTP, JSON, TLS, presigning, real files and clocks: inputs, or steps that may fail.
- Times, executor and status text of history rows; the directory listing that cannot be read at all.
- The database's collation: `ORDER BY id` is taken to be byte order, as Go's string comparison is.
- Names with path separators, and a file write that fails half-way.
- Two migrators at once; two files with one id (the theorems about runs ask for distinct ids).
- Kafka offset commits, group rebalancing, and the messages of the kafka-go reader before a fetch returns.
- The fx start context: cancellation may come at any step, which includes it.
- PartPlan.CalculateOptimalPartSize: a configured minimum of 2^63 / 10 or more, where int64 wraps, is not modelled.
- Multipart.MinioClient.GenerateMultipartUploadURLs: the same minimums are not modelled.
- LargeFiles.PlanTooShort: minimums above 858993 MiB that are not whole 2 KiB, or are above 2^53 bytes, are not covered; S3 parts have at most 5 GiB.
- LargeFiles.CodePlan: for files of 2^53 bytes and more, the same minimums are not covered.
- Multipart.UploadAssembles: for files of 2^53 bytes and more, the same minimums are not covered; a minimum of 2^63 / 10 or more is not modelled.
- LargeFiles.NegativePlan: minimums above 2^53 bytes are not covered.
- RangePlan.GenerateRanges: negative part sizes and objects of 2^53 bytes and more, which S3 does not hold, are not modelled.
- ConsumerPool.StopProgress: when FetchMessage returns is up to kafka-go, which returns once the context has ended or the reader is closed; GracefulShutdown closes it after the shutdown signal (kafka/fx_module.go:165-190), the signal alone does not.
- ObjectReads.ObjectReader.Read: reads that return nothing and no error are bounded, else no read loop ends.
- ObjectReads.StreamGet: a receiver that changes a chunk after taking it, and one that never takes it, are not modelled; the chunk size is positive.
- ObjectReads.Get: two callers reading at once share the pool only through the steps of `PoolProtocol`.
- PoolProtocol.CleanupRaces: replacing the pool is one step, as is inserting; the data race on the pool field itself is not modelled.
- SchemaClient.Server.Post: one admissible registry, which answers a known registration with its id.
- NewWrapperDeserializer's check for a missing registry, CheckCompatibility, and the authentication of registry requests.
- VectorIndex.RoundTrip: PostgreSQL's 63-byte limit on names, reserved words as operator class, NUL characters, and what its grammar allows after the class (parameters, sort order) are not modelled.
- Assembly of parts is the store's rule as S3 documents it, not code of the repository.
