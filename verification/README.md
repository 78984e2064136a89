# Verified model of the ingestion toolkit's algorithms and protocols

This project models, in Dafny, the parts of a data-ingestion toolkit that carry guarantees of their own, and proves
those guarantees for all inputs, all runs or all interleavings. `dafny verify dfyconfig.toml` checks everything.

| Part of the toolkit | Modules |
|---|---|
| Distributing files and rows over workers, packing files into batches | `WorkBalancing`, `BatchPacking`, `DatabasePartitioning` |
| The connection pool shared by concurrent leases | `ConnectionPool` |
| Promoting a staging table into its destination, step by step and without a transaction | `Tables`, `Promotion` |
| Configuration trees: paths, flattening, edits at paths, deep merge, the builder's two passes | `PathSyntax`, `ConfigTree`, `Flattening`, `PathEdits`, `ConfigPasses`, `LostEntries`, `ConfigLoops`, `DeepMerge` |
| The visibility-timeout queues | `QueueKeys`, `QueueProtocol`, `PriorityQueue`, `RedeliveryQueue` |
| Circuit breaker, running statistics, checkpoints, step ranges | `CircuitBreaker`, `RunningStats`, `Calendar`, `Checkpoints`, `StepWalk` |
| Shared: sums over sequences, stable sorting, decimal numerals, strings | `Sums`, `Sorting`, `Decimals`, `Texts` |

## How the model relates to the code

* Code that changes state is a class or a method with the code's own loop. Its contract ties the new state to a
  specification function, and lemmas prove what that function means: against any other plan, over any run, or as the
  inverse of another operation. Two of them are protocols: `ConnectionPool` and `QueueProtocol` are state machines over
  the atomic steps of the code, and their theorems hold for every interleaving of any number of sessions or processes.
* File sizes, row counts, hashes, clocks, random ids, service lookups, the path-likeness of strings and `str.lower` are
  inputs; random ids are taken to be fresh. An exception is a result value: `None`, `ok == false`, or a named failure.
* Iterating over a dictionary is iterating over a set in any order, so every result that is proved holds for every order.
* A NULL in the tables is explicit: keys match only when no column is NULL, and `NOT IN` is true only where a column
  really differs. A column that a row does not have reads as NULL.
* Configuration trees have dictionaries with string keys, lists and scalars. Trees with a key that is empty or has a `.`,
  `[` or `]` are not modelled; this is what `WellFormed` says. It is a little more than printing and parsing a path needs:
  `PathSyntax.ParseOfRender` says exactly which paths come back, whatever their keys.
* DiskCache is taken to iterate over its keys in sorted order, as a comment in the queue says
  (`libs/queue/priority/diskcache.py:108-111`).

## What the code does differently from what it says

* Update and insert with the promotion's own verification always raises: `promote` does not hand the primary keys to
  `_verify_promotion` (`Promotion.Database.Promote`, last clause). The destination is already changed by then.
* An upsert cannot be tried again after an attempt that inserted, when a staged key has a NULL: the row is inserted
  again (`Promotion.UpsertRetry`, an equivalence). A delete and insert cannot be repeated after an attempt that got
  through, when a staged row is outside the deleted partition (`Promotion.DeleteInsertRetry`, an equivalence).
* The branch for a full queue in `lease` cannot be reached (`ConnectionPool.PoolIsSafe`), although a unit test expects it
  (`libs/database/tests/pool/test_queue.py:64`), as long as `close_all` is called only when all sessions are done. The
  code does not check that. Suppose it is called between the steps of sessions and closes at once: no later run reaches
  the full queue, and every blocked session can still get a connection, exactly if no connection is leased and no session
  is blocked at that moment (`ConnectionPool.CloseAllIsSafe`, an equivalence). The smallest case is a pool of one that is
  closed while its connection is leased (`ConnectionPool.ClosedUnderLease`).
* The second look under the lock is at the size only, so a session can open a connection while another one is idle. It
  cannot happen if and only if the pool holds at most one (`ConnectionPool.SecondLookSuffices`, an equivalence).
* The key order breaks at priorities of ten billion: with timestamps of equal integer width, all priorities below a limit
  are in order exactly if the limit is at most that (`QueueKeys.PrioritiesInOrder`, an equivalence). Of any two
  priorities the lower one sorts first exactly if it is less than the leading digits of the other
  (`QueueKeys.PriorityOrder`, an equivalence). The doc strings of the priority queue name a `queue:` prefix; the code
  writes `task_queue:`, which the model follows.
* `max_retries` limits deliveries only through nacks. In every run a message is delivered at most max(1, max_retries)
  times, not counting redeliveries after a timeout (`RedeliveryQueue.OnlyTimeoutsExceedLimit`), and of those there can be
  any number (`RedeliveryQueue.TimeoutsAreNotLimited`). Both together can be reached (`RedeliveryQueue.LimitIsReached`).
* A message can be delivered exactly as long as its id is in the deque, so a process that stops between taking the id
  out of it and putting it back (`libs/queue/diskcache.py:42-63`) strands the message
  (`RedeliveryQueue.OnlyQueuedAreDelivered`, an equivalence).
* `pop` of the priority queue reads the least key and pops it in two steps, so it can return `None` while tasks are queued
  (`QueueProtocol.PopComesUpEmpty`), but only if another process took that very key in between
  (`QueueProtocol.StaysQueued`).
* "1 to 100 workers" has no upper clamp: a limit is kept exactly if no more are wanted or the row floor allows no more
  (`DatabasePartitioning.WithinLimit`, an equivalence).
* The separate order check of `TaskContext.__post_init__` never raises: a reversed range already fails before it as an
  unknown first step (`StepWalk.TaskContext.PostInit`).
* The date windows of a chain of checkpoints tile its range exactly if the watermark never moves back or never moves
  forward (`Checkpoints.WindowsTile`, an equivalence); nothing in the code keeps it from moving back.
* Replacing service references loses entries exactly when keys clash: two references in one dictionary, or one beside a
  `connection` key (`ConfigLoops.ResolveServiceRefs`, an equivalence). Of two references the one replaced last survives
  (`ConfigLoops.ClashKeepsTheLast`), so the result depends on the order of the keys.
* A half-open circuit lets through not one call to test the service but every call, and stays half open exactly as long
  as they all end in exceptions that are not tracked (`CircuitBreaker.StaysHalfOpen`, an equivalence).

## Model

The first 55 rows are the main results; the operations and the steps they rest on follow, part by part.

| member | source | states |
|---|---|---|
| WorkBalancing.GrahamBound | apps/ingestion/src/services/file.py:393-407 | For every list of files, every worker count m and every assignment of the files to m workers, each bucket's load L satisfies 3mL <= (4m-1)T and 2L <= 3T, where T is that assignment's makespan; so the heaviest bucket is within 4/3 - 1/(3m) of the optimum |
| WorkBalancing.WorkersUsed | apps/ingestion/src/services/file.py:400-407 | The exact number of non-empty buckets: one for each file with bytes, one more if there are empty files, and at most m |
| BatchPacking.AtMostTwiceAsManyBatches | libs/file/clients/base.py:283-309 | At most 2n - 1 batches, for n the size of any valid packing of the same files, the best one included |
| DatabasePartitioning.CountWorkers | apps/ingestion/src/services/database.py:265-292 | The branches amount to max(1, min(w, rows / 50,000)) for every requested or computed w, negative ones included, which is the greatest allowed number |
| DatabasePartitioning.PartitionsCoverRows | apps/ingestion/src/services/database.py:343-352 | All queries together load exactly the rows, each as often as it occurs |
| ConnectionPool.PoolIsSafe | libs/database/pool/queue.py:43-67 | In every interleaving idle plus leased connections equal the pool's size, which stays within the maximum; no connection is held twice or both held and idle; the full-queue branch never runs |
| ConnectionPool.FirstInFirstOut | libs/database/pool/queue.py:43-67 | In every run connections leave the queue in the order in which they were returned |
| ConnectionPool.EveryLeaseEnds | libs/database/pool/queue.py:43-67 | Once no new session begins, every schedule ends, and only where all sessions are done |
| ConnectionPool.SecondLookSuffices | libs/database/pool/queue.py:46-57 | In all runs a connection is opened only while none is idle, if and only if the maximum is at most one |
| ConnectionPool.CloseAllIsSafe | libs/database/pool/queue.py:43-80 | In every state that runs can reach: if `close_all` closes at once, then no later run returns a connection to a full queue and every blocked session can still leave its wait in some run, if and only if no connection is leased and no session is blocked |
| Promotion.UpsertMeaning | apps/ingestion/src/services/database.py:572-601 | Update, insert and insert, update both override the target by the staged rows, key by key |
| Promotion.DeleteInsertMeaning | apps/ingestion/src/services/database.py:560-570 | Delete, insert leaves the other partitions as they were, row for row, and makes the partition the staged rows |
| Promotion.SoftDeleteMeaning | apps/ingestion/src/services/database.py:603-628 | After an upsert with soft deletion the live rows of the partition are exactly the staged rows |
| Promotion.FirstFailureStops | apps/ingestion/src/services/database.py:556-636 | A plan runs through exactly if each step has the keys and the partition it needs and is known; otherwise the first one that has not stops it with its own error, and the effects of the steps before it stay |
| Promotion.UpsertRetry | apps/ingestion/src/services/database.py:534-636 | After any number of crashed attempts, each stopped after any step, the whole upsert gives the table of one undisturbed run, exactly if no earlier attempt inserted or no staged key has a NULL |
| Promotion.DeleteInsertRetry | apps/ingestion/src/services/database.py:534-636 | The same for delete, insert, exactly if no earlier attempt got through all steps or all staged rows are in the partition |
| Promotion.SoftDeleteRetry | apps/ingestion/src/services/database.py:534-636 | With soft deletion appended, any number of crashes after any steps and a later full run leave the same live rows as one run, whatever the time stamps |
| PathSyntax.ParseOfRender | libs/utils/dict.py:13-36 | For every path: parsing its printed form gives it back, if and only if no key has a dot or an opening bracket, a key in front of an index is not empty and has no closing bracket, and the first key is not empty unless it stands alone |
| Flattening.RoundTrip | libs/utils/dict.py:177-229 | Flattening and rebuilding gives back the tree, with empty containers, None leaves and nested lists, in whatever order the entries come |
| ConfigLoops.ResolveStrings | apps/ingestion/src/core/contexts/builder/template.py:73-91 | Rewriting path by path equals mapping exactly the path-like strings of a dictionary; anything else is returned as it is |
| ConfigLoops.ResolveServiceRefs | apps/ingestion/src/core/contexts/builder/builder.py:313-356 | Replacing path by path, in any order, equals the recursive replacement of matching keys with string values when no keys clash; and every dictionary keeps its number of entries, and what was not replaced, if and only if no keys clash |
| DeepMerge.DeepMergeIgnoringCase | libs/utils/dict.py:151-174 | For trees without keys that differ only in case, the result has none either, and lower-casing its keys gives the plain merge of the lower-cased trees; for all trees the keys of the base keep their spelling, and only keys that the base has in no spelling are new |
| DeepMerge.MergeAgain | libs/utils/dict.py:122-149 | Merging the same updates again changes nothing |
| QueueKeys.KeyOrder | libs/queue/priority/diskcache.py:59-66 | For priorities below ten billion and timestamps of equal integer width, string order is the order of priority, timestamp, uid |
| QueueKeys.PriorityOrder | libs/queue/priority/diskcache.py:54-74 | For any two priorities and any timestamps, the lower one sorts first exactly if it is less than the leading digits of the other one, as many as its own field has |
| QueueKeys.PrioritiesInOrder | libs/queue/priority/diskcache.py:59-74 | With timestamps of equal integer width, string order is the order of priority, timestamp, uid for all priorities below a limit, exactly if the limit is at most ten billion |
| QueueKeys.ParseInvertsMake | libs/queue/priority/diskcache.py:54-103 | Parsing a queue key gives back priority, timestamp and uid, for every priority |
| QueueProtocol.TasksAreConserved | libs/queue/priority/diskcache.py:177-260 | In every interleaving each pushed task not acknowledged or cleaned up is in exactly one of queued, in flight and in one process's hands, under its original key and value and with at most one receipt |
| QueueProtocol.FlightLasts | libs/queue/priority/diskcache.py:177-260 | In every interleaving a task stays in flight, under its receipt, exactly until it is acknowledged, handed back, recovered after its timeout has passed, or cleaned up for its age |
| QueueProtocol.AckedNeverReturns | libs/queue/priority/diskcache.py:236-244 | After an acknowledgement no run has the task in any place again |
| QueueProtocol.StaleReceiptChangesNothing | libs/queue/priority/diskcache.py:236-260 | A message id that has been acknowledged, handed back or expired never comes back, and acting on it changes nothing |
| QueueProtocol.TaskCanReturn | libs/queue/priority/diskcache.py:204-231 | From every reachable state a task that is not gone can be queued again by at most two recovery writes |
| QueueProtocol.StaysQueued | libs/queue/priority/diskcache.py:157-202 | In every interleaving a queued task stays queued under its value until some process pops its very key or cleans it up for its age |
| PriorityQueue.DiskcacheQueue.Pop | libs/queue/priority/diskcache.py:157-175 | Every receipt whose timeout has passed is queued again and no other one is touched; then the least queued key is delivered, and None exactly if nothing is queued then |
| RedeliveryQueue.BackoffSchedule | libs/queue/diskcache.py:75-90 | If every delivery is nacked in time there are at most max(1, max_retries), and the n-th comes at least 10 * (2^n - 2) seconds after the first |
| RedeliveryQueue.VisibilityTimeout | libs/queue/diskcache.py:51-62 | After a delivery at d the message comes back at exactly d + visibility_timeout: no run without a nack delivers it earlier, and some run delivers it then |
| RedeliveryQueue.BackoffIsExact | libs/queue/diskcache.py:75-90 | A nack at t, after a new message was delivered n times in any run, brings it back at exactly t + 10 * 2^n if n is below max_retries, and otherwise no run delivers it again |
| RedeliveryQueue.OnlyTimeoutsExceedLimit | libs/queue/diskcache.py:51-90 | In every run, with any timeouts and nacks, a new message is delivered at most max(1, max_retries) times, not counting redeliveries after a timeout |
| RedeliveryQueue.TimeoutsAreNotLimited | libs/queue/diskcache.py:51-62 | From every state and for every n, some run of dequeues alone delivers a live message of the deque n times, all but a first waiting one after timeouts, whatever max_retries is |
| RedeliveryQueue.LimitIsReached | libs/queue/diskcache.py:51-90 | The bound is reached: for every n some run of a new message has n redeliveries after timeouts and max(1, max_retries) other deliveries |
| RedeliveryQueue.OnlyQueuedAreDelivered | libs/queue/diskcache.py:39-65 | A cached message that is not dead is delivered in some run, if and only if its id is in the deque |
| RedeliveryQueue.DeadStaysDead | libs/queue/diskcache.py:46-47 | A dead message stays as it is and is never delivered until it is acknowledged |
| CircuitBreaker.ClosedMeansFewFailures | libs/resilience/circuit_breaker.py:46-88 | After any calls on a new breaker its count is the number of tracked failures that ran since the last call that returned, and it is closed exactly while these are fewer than the limit |
| CircuitBreaker.FailureRate | libs/resilience/circuit_breaker.py:46-88 | From every reachable state, in a stretch without success at most floor(length / timeout) tracked failures reach the function beyond those the state spares: threshold less counted ones when closed, one otherwise |
| CircuitBreaker.BoundIsReached | libs/resilience/circuit_breaker.py:46-88 | The bound is sharp, for every number of timeouts, from every closed or half-open state |
| CircuitBreaker.QuietAfterOpening | libs/resilience/circuit_breaker.py:65-75 | After an opening the function does not run again before the timeout has passed |
| CircuitBreaker.StaysHalfOpen | libs/resilience/circuit_breaker.py:55-75 | A half-open circuit stays half open through a sequence of calls exactly if all end in untracked exceptions, and then every one of them gets through |
| RunningStats.WelfordIsBatch | libs/resilience/timeout2.py:39-44 | After any samples the mean times the count is their sum, and m2 the sum of squared deviations from the mean |
| RunningStats.OrderDoesNotMatter | libs/resilience/timeout2.py:39-44 | Count, mean and m2 depend only on which samples there were |
| Checkpoints.WindowsTile | apps/ingestion/src/extras/checkpoints/checkpoint.py:259-284 | The windows of a chain give every date after the first start up to the last end, once and in order, exactly if the watermark never moves back or never moves forward |
| Checkpoints.LatestDate | apps/ingestion/src/extras/checkpoints/checkpoint.py:118-128 | Updating a new checkpoint with dates ends at the latest in the calendar |
| Calendar.TextOrder | apps/ingestion/src/extras/checkpoints/checkpoint.py:127 | Comparing date texts compares the dates |
| StepWalk.WalkIsExact | apps/ingestion/src/core/contexts/task.py:171-181 | Walking from the first active step visits exactly the active steps in order and ends, if and only if no id occurs twice |
| StepWalk.TaskIsWalked | apps/ingestion/src/core/contexts/task.py:59-137 | For distinct ids and boundaries that `__post_init__` accepts, the walk with the defaults filled in visits exactly the steps from the first boundary to the last and ends |
| StepWalk.GeneratedAreDistinct | apps/ingestion/src/core/contexts/builder/builder.py:537-551 | With no ids configured all steps, the start step included, have different ids |
| WorkBalancing.BalancePartitions | apps/ingestion/src/services/file.py:393-407 | Every file is in exactly one work unit, as often as it is listed |
| WorkBalancing.BalanceWorkload | apps/ingestion/src/services/file.py:367-407 | The loop over buckets computes the LPT assignment without its empty groups, and nothing for no files or no workers |
| WorkBalancing.AssignToLightest | apps/ingestion/src/services/file.py:401-404 | The first bucket of least load takes the file, and the buckets keep mirroring the groups |
| WorkBalancing.NewBuckets | apps/ingestion/src/services/file.py:398 | Fresh, distinct, empty buckets |
| WorkBalancing.Parallelize | apps/ingestion/src/services/file.py:357-365 | No files raise; otherwise the number of units is exactly the least of the wanted number (the request, or one per 100 MiB of the listed total, at least one), the number of files, and the files with bytes plus one if there are empty ones; together they are the files |
| Sorting.SortIsStable | libs/file/clients/base.py:289 | Sorting by descending size is a permutation, sorted, and keeps the order of equal sizes |
| BatchPacking.PackFile | libs/file/clients/base.py:295-305 | One turn of the loop: the closed batches and the open one stay the files so far, packed by next fit |
| BatchPacking.SplitBySize | libs/file/clients/base.py:289-309 | The batches one after another are the sorted files; each is within the limit or one oversized file; each was closed only because the next file did not fit |
| BatchPacking.PairsExceedLimit | libs/file/clients/base.py:295-307 | Batches two by two hold more than the limit |
| BatchPacking.PackingNeeds | libs/file/clients/base.py:283-309 | Any packing needs a batch of its own for each oversized file, and room for the others |
| DatabasePartitioning.GreatestAllowed | apps/ingestion/src/services/database.py:265-292 | The number of workers is the greatest that is allowed: one, or more if each has 50,000 rows and they are requested or, without a request, each has 20,000,000 cells |
| DatabasePartitioning.AutomaticShare | apps/ingestion/src/services/database.py:281-289 | Without a request and with the row floor not biting, the average share is under twice the cell budget |
| DatabasePartitioning.WithinLimit | apps/ingestion/src/services/database.py:291-292 | A limit on the number of workers is kept exactly if no more are wanted or the row floor allows no more: there is no upper clamp |
| DatabasePartitioning.PartitionLoad | apps/ingestion/src/services/database.py:315-352 | One query per residue of the hash, in order; a non-positive worker count raises |
| DatabasePartitioning.LoadInParallel | apps/ingestion/src/services/database.py:265-352 | With the computed number of workers the queries never raise and load exactly the rows |
| DatabasePartitioning.QueriesAreDisjoint | apps/ingestion/src/services/database.py:343-352 | A query selects a row exactly if the row is there and its hash has the query's residue |
| ConnectionPool.StepKeepsInv | libs/database/pool/queue.py:43-80 | Every atomic step of any session keeps the lock, size and exclusivity invariants |
| ConnectionPool.BlockedCanBeFreed | libs/database/pool/queue.py:55-57 | A session blocked with the lock held can be served at once, or after some other session's return |
| ConnectionPool.SomeStepIsEnabled | libs/database/pool/queue.py:43-67 | Deadlock freedom: while a session is not done, some session can take a step |
| ConnectionPool.RunsAreBounded | libs/database/pool/queue.py:43-67 | Without new sessions only a bounded number of steps is left |
| ConnectionPool.ClosedUnderLease | libs/database/pool/queue.py:43-80 | A run on a pool of one that is closed under a lease and ends where the first session returns to a full queue |
| ConnectionPool.QueueConnectionPool.GetNoWait | libs/database/pool/queue.py:46 | The non-blocking get is the protocol's first step |
| ConnectionPool.QueueConnectionPool.EnterLock | libs/database/pool/queue.py:49 | Entering the lock is the protocol's step, possible only while it is free |
| ConnectionPool.QueueConnectionPool.CheckRoom | libs/database/pool/queue.py:52 | The comparison under the lock is the protocol's check |
| ConnectionPool.QueueConnectionPool.CountConnection | libs/database/pool/queue.py:53-54 | Counting the new connection is the protocol's step |
| ConnectionPool.QueueConnectionPool.GetBlocking | libs/database/pool/queue.py:57 | The blocking get takes the oldest idle connection, lock held |
| ConnectionPool.QueueConnectionPool.ExitLock | libs/database/pool/queue.py:49-60 | Leaving the lock is the protocol's step, with a connection in hand |
| ConnectionPool.QueueConnectionPool.PutBack | libs/database/pool/queue.py:62-67 | Returning a connection, with the full-queue branch as the code has it |
| ConnectionPool.QueueConnectionPool.CloseIdle | libs/database/pool/queue.py:75-80 | Exactly the idle connections are closed and the size is reset |
| Tables.UpdateOfInsert | apps/ingestion/src/services/database.py:572-601 | Update and insert with the anti-join commute, row for row |
| Tables.InsertAgain | apps/ingestion/src/services/database.py:586-601 | Inserting again adds nothing exactly if no staged key has a NULL |
| Tables.UpsertOverrides | libs/database/sql/operations/merge.py:112-145 | With unique keys the updated rows and the inserted ones are the target's unmatched rows and all staged rows |
| Promotion.UpsertRuns | apps/ingestion/src/services/database.py:572-601 | Both orders of update and insert give the same table, row for row |
| Promotion.InsertRows | apps/ingestion/src/services/database.py:586-601 | All staged rows are appended, or those whose key the target lacks if the plan updates by keys |
| Promotion.UpdateRows | apps/ingestion/src/services/database.py:572-584 | Row by row: a matching staged row is taken over but for keys and columns that are not staged, and rows without a match stay |
| Promotion.SoftDeleteRows | apps/ingestion/src/services/database.py:603-628 | Row by row: exactly the rows of the partition without a marker whose key is certain to differ from every staged key get the time stamp |
| Promotion.FullRefreshVerified | apps/ingestion/src/services/database.py:653-659 | A full refresh, with soft deletion or without, leaves the staged rows and passes the check exactly if the expected count is their number |
| Promotion.PartitionVerified | apps/ingestion/src/services/database.py:689-705 | Without truncation and upsert the check counts the rows of the partition, the live ones for a soft deletion with a marker column, and without a partition it never fails |
| Promotion.DeleteInsertVerified | apps/ingestion/src/services/database.py:689-705 | After delete, insert the partition count check passes exactly if the expected count is the number of staged rows |
| Promotion.DeleteInsertSoftVerified | apps/ingestion/src/services/database.py:689-705 | The same with soft deletion, where only live rows are counted |
| Promotion.TruncateInsertRetry | apps/ingestion/src/services/database.py:534-636 | Truncate, insert is retry-safe after any number of crashes and leaves exactly the staged rows |
| Promotion.Database.ApplyMergeOperation | apps/ingestion/src/services/database.py:534-636 | The steps run in order, each on what the earlier ones left; a failing check stops with their effects kept |
| Promotion.Database.Promote | apps/ingestion/src/services/database.py:419-525 | Every error path and what it leaves behind; a full refresh succeeds exactly for the right count; without truncation, upsert and partition the check never fails; update and insert without truncate always raises; the staging table is dropped exactly on success |
| PathSyntax.ParsePath | libs/utils/dict.py:13-29 | The loop over dotted segments parses the whole path, or raises |
| PathSyntax.RenderIsInjective | libs/utils/dict.py:32-36 | Different paths that read back print differently |
| Flattening.PutExtendsPart | libs/utils/dict.py:47-60 | Replaying one more leaf, with any leaves replayed before it, adds exactly that leaf |
| Flattening.PutReaches | libs/utils/dict.py:47-60 | A stored entry is found at its path |
| Flattening.PutElsewhere | libs/utils/dict.py:47-60 | Storing an entry leaves every node as it is whose path parts from it |
| Flattening.PutRaises | libs/utils/dict.py:47-60 | Storing an entry raises exactly if some node on the way that is there already is not a container for the next segment |
| Flattening.FlattenInto | libs/utils/dict.py:185-202 | The recursive walk enters exactly the leaves below a node, under their printed paths |
| Flattening.FlattenFields | libs/utils/dict.py:186-191 | Visiting the items of a dictionary in any order enters exactly the leaves below it |
| Flattening.FlattenItems | libs/utils/dict.py:193-198 | Visiting a list enters exactly the leaves below it |
| Flattening.FlattenDict | libs/utils/dict.py:177-204 | The result has exactly the leaves under their printed paths, and every listing of it rebuilds the tree |
| Flattening.UnflattenDict | libs/utils/dict.py:207-229 | The loop replays the entries in order, raising where the code does |
| PathEdits.SetExtendsEdits | libs/utils/dict.py:90-119 | After any edits to other leaves a path still leads to its node, and editing there makes exactly that one edit more |
| PathEdits.SetRaises | libs/utils/dict.py:90-113 | An edit raises exactly if the container is not there or a list is too short for a new value |
| PathEdits.SetMissing | libs/utils/dict.py:112-119 | An edit of something that is not there changes nothing |
| PathEdits.SetReaches | libs/utils/dict.py:90-119 | An edit puts the value, or the old one for None, under the new name, and the old name is gone |
| PathEdits.SetElsewhere | libs/utils/dict.py:90-119 | An edit leaves every node as it is whose path parts from the edited one, except under the new name |
| ConfigLoops.SetNestedKey | libs/utils/dict.py:90-119 | An edit through the printed path is the edit at the parsed path |
| ConfigLoops.Recurse | libs/utils/dict.py:75-85 | The walk yields exactly the matching entries below a node, under their printed paths |
| ConfigLoops.FindKeysByPattern | libs/utils/dict.py:68-87 | Exactly the entries under matching keys, at any depth, each path leading back to its value |
| ConfigPasses.ApartIffNoClash | apps/ingestion/src/core/contexts/builder/builder.py:325-356 | The edits of a pass stay apart exactly if no dictionary has two keys to rename, or one beside a key of the new name |
| ConfigPasses.EditedIsMapped | apps/ingestion/src/core/contexts/builder/builder.py:325-356 | All edits together are the recursive map |
| ConfigPasses.ReferencesReplaced | apps/ingestion/src/core/contexts/builder/builder.py:325-356 | In a dictionary without clashes a reference gives way to a connection entry with its service, or with the reference itself if none is found, and every other entry stays under its key |
| ConfigPasses.NormaliseNeverClashes | apps/ingestion/src/core/contexts/builder/template.py:81-91 | Rewriting strings in place never clashes, and maps every path-like string to its absolute form |
| LostEntries.NoneLostMeansNoClash | apps/ingestion/src/core/contexts/builder/builder.py:325-356 | If no entry is lost, whatever the order and the services, then no keys clash |
| LostEntries.MappedKeepsEntries | apps/ingestion/src/core/contexts/builder/builder.py:325-356 | The recursive replacement loses no entry when no keys clash |
| ConfigLoops.ClashKeepsTheLast | apps/ingestion/src/core/contexts/builder/builder.py:345-352 | Of two references in any dictionary only the one replaced last survives |
| DeepMerge.DeepMerge | libs/utils/dict.py:137-149 | The loop over the updates, in any order, computes the merge |
| DeepMerge.UpdatesWin | libs/utils/dict.py:139-149 | Whatever the updates have that is not a dictionary is in the merge, at its path |
| DeepMerge.BaseStays | libs/utils/dict.py:137-149 | What the updates do not touch stays as the base has it |
| DeepMerge.NothingElseMerged | libs/utils/dict.py:137-149 | The merge has no path that neither side has |
| DeepMerge.BaseKeyMap | libs/utils/dict.py:151-153 | Every key is found by its lower-cased form, with one of its spellings |
| DeepMerge.UpdateKey | libs/utils/dict.py:155-172 | One update goes to the base's spelling of its key, or to its own if the base has none |
| QueueKeys.NamespacesAreDisjoint | libs/queue/priority/diskcache.py:74-89 | No key has both namespace prefixes |
| QueueKeys.ParseIgnoresPrefix | libs/queue/priority/diskcache.py:93-103 | Whatever stands in front of the last three fields of a key is ignored |
| QueueProtocol.StepKeepsInv | libs/queue/priority/diskcache.py:124-300 | Every write of every process keeps the placement invariants |
| QueueProtocol.HandingBackUndoesDelivery | libs/queue/priority/diskcache.py:177-260 | Popping a task and handing it back, in the two writes of a nack, restores the store, so the task regains its place |
| QueueProtocol.PopStartsFlight | libs/queue/priority/diskcache.py:177-202 | A popped task is in flight under its key, value and times, and no longer queued |
| QueueProtocol.PopComesUpEmpty | libs/queue/priority/diskcache.py:157-202 | Another process can take the key that a pop has read, so that the pop finds nothing although another task is queued |
| PriorityQueue.DiskcacheQueue.Push | libs/queue/priority/diskcache.py:124-155 | A fresh key adds exactly its task |
| PriorityQueue.SortedKeys | libs/queue/priority/diskcache.py:108-116 | The iteration as the comment describes it: all keys, in ascending order |
| PriorityQueue.DiskcacheQueue.GetFirstQueueKey | libs/queue/priority/diskcache.py:105-122 | The first queue key of the sorted iteration is the least queued key; None exactly if nothing is queued |
| PriorityQueue.DiskcacheQueue.PopByKey | libs/queue/priority/diskcache.py:177-202 | A queued task becomes a receipt that times out after the visibility timeout, and its message; an unknown key changes nothing |
| PriorityQueue.DiskcacheQueue.RecoverZombies | libs/queue/priority/diskcache.py:204-231 | Every receipt whose timeout has passed returns to the queue under its original key and value, every other one stays as it is, and nothing else changes |
| PriorityQueue.DiskcacheQueue.Ack | libs/queue/priority/diskcache.py:236-244 | Exactly the receipt is dropped |
| PriorityQueue.DiskcacheQueue.Nack | libs/queue/priority/diskcache.py:246-260 | The task returns under its original key; an unknown id changes nothing |
| PriorityQueue.DiskcacheQueue.Cleanup | libs/queue/priority/diskcache.py:270-295 | Exactly what was queued or delivered more than seven days ago is dropped |
| PriorityQueue.LeastIsFirst | libs/queue/priority/diskcache.py:105-122 | The least key has the lowest priority value, then the earliest timestamp, then the least uid |
| RedeliveryQueue.DiskcacheQueue.Enqueue | libs/queue/diskcache.py:17-30 | A new message is cached as pending and its id appended |
| RedeliveryQueue.DiskcacheQueue.Dequeue | libs/queue/diskcache.py:32-67 | One pass: the first message ready at its turn is delivered and moved to the end, live ids passed over keep their order, dead and acknowledged ones are dropped |
| RedeliveryQueue.DiskcacheQueue.Ack | libs/queue/diskcache.py:69-73 | The message is removed; a missing one raises |
| RedeliveryQueue.DiskcacheQueue.Nack | libs/queue/diskcache.py:75-90 | Dead once the retries are used up, otherwise pending again after the backoff |
| RedeliveryQueue.StepKeepsInv | libs/queue/diskcache.py:17-90 | The deque never repeats an id and has the id of every message that is not dead |
| RedeliveryQueue.RunKeepsInv | libs/queue/diskcache.py:17-90 | The same after any run |
| RedeliveryQueue.ContentsStay | libs/queue/diskcache.py:17-90 | In every run a message keeps its id, payload and group |
| RedeliveryQueue.RetriesAreDeliveries | libs/queue/diskcache.py:54-59 | In every run the retry count is the number of deliveries |
| RedeliveryQueue.AckedIsNotDelivered | libs/queue/diskcache.py:69-73 | No run delivers an acknowledged message again |
| RedeliveryQueue.NewIsAvailable | libs/queue/diskcache.py:17-30 | A new message can be delivered at once |
| RedeliveryQueue.DeliveredWhenDue | libs/queue/diskcache.py:39-65 | Whatever else is queued, some run delivers a live message of the deque as soon as it is available |
| RedeliveryQueue.DeliveriesAreSpaced | libs/queue/diskcache.py:51-62 | Deliveries without a nack in between are at least the visibility timeout apart |
| RedeliveryQueue.AvailableMeansDelivered | libs/queue/diskcache.py:39-67 | If some message is available when the call begins, the call returns a message |
| CircuitBreaker.CircuitBreaker.CheckBeforeCall | libs/resilience/circuit_breaker.py:65-75 | An open circuit refuses until the timeout has passed, then turns half open |
| CircuitBreaker.CircuitBreaker.Succeed | libs/resilience/circuit_breaker.py:77-80 | A success closes the circuit and forgets the failures |
| CircuitBreaker.CircuitBreaker.Fail | libs/resilience/circuit_breaker.py:82-88 | A failure counts, and opens the circuit when half open or at the threshold |
| CircuitBreaker.CircuitBreaker.Wrapper | libs/resilience/circuit_breaker.py:50-61 | A call runs exactly if the check passes; success, tracked and other exceptions change the breaker as specified |
| CircuitBreaker.HalfOpenIsReached | libs/resilience/circuit_breaker.py:65-88 | Whatever the settings, a run from a new circuit ends half open |
| RunningStats.RunningStats.Update | libs/resilience/timeout2.py:39-47 | One sample updates count, mean, m2 and the extremes by the recurrence |
| RunningStats.VarianceIsDefined | libs/resilience/timeout2.py:49-53 | m2 is never negative, so the square root is defined |
| RunningStats.ExtremesAreSamples | libs/resilience/timeout2.py:46-47 | The extremes are samples and bound all of them |
| RunningStats.MeanBetweenExtremes | libs/resilience/timeout2.py:39-47 | The mean is between minimum and maximum |
| Calendar.OrdinalOrder | apps/ingestion/src/extras/checkpoints/checkpoint.py:279-281 | Day differences order dates as the Gregorian calendar does |
| Calendar.YearStartIsGregorian | apps/ingestion/src/extras/checkpoints/checkpoint.py:279-281 | The day count before a year is that of the Gregorian leap rule, in closed form |
| Calendar.ParseInvertsFormat | apps/ingestion/src/extras/checkpoints/checkpoint.py:275-284 | Parsing a formatted date gives the date back |
| Checkpoints.Checkpoint.UpdateEndValue | apps/ingestion/src/extras/checkpoints/checkpoint.py:118-128 | The end watermark advances only to a greater value |
| Checkpoints.FoldedIsGreatest | apps/ingestion/src/extras/checkpoints/checkpoint.py:118-128 | Updating with any values ends at the greatest of them |
| Checkpoints.WindowIsResolved | apps/ingestion/src/extras/checkpoints/checkpoint.py:270-284 | A checkpoint between two dates resolves to the window between them |
| Checkpoints.PartitionDateWins | apps/ingestion/src/extras/checkpoints/checkpoint.py:268-269 | A partition date is the only date, whatever the watermarks |
| Checkpoints.FirstRun | apps/ingestion/src/extras/checkpoints/checkpoint.py:275-277 | Without a start the end date is the only date |
| Checkpoints.NoDates | apps/ingestion/src/extras/checkpoints/checkpoint.py:270-284 | Without an end there is no date, and texts that are no dates raise |
| Checkpoints.WindowIsExact | apps/ingestion/src/extras/checkpoints/checkpoint.py:279-284 | The window has exactly the dates after its start up to its end, in ascending order |
| StepWalk.TaskContext.PostInit | apps/ingestion/src/core/contexts/task.py:59-91 | It succeeds exactly for boundaries that are steps in forward order, fills in the defaults, and never raises from the order check |
| StepWalk.BuildStepIds | apps/ingestion/src/core/contexts/builder/builder.py:537-551 | Each step gets its configured id or one made of its stage and count; with none configured all ids differ and none is "start" |
| StepWalk.IdOfStep | apps/ingestion/src/core/contexts/builder/builder.py:547-551 | A configured id is kept; without one the first step of a stage is named stage_dataset_data, and the n-th one stage_n |
| StepWalk.GeneratedIdsDiffer | apps/ingestion/src/core/contexts/builder/builder.py:547-551 | Generated ids are equal only for the same stage and count |

## Left out

- SetNestedKey: trees are values, so walking to a container and changing it there is one recursive function, and that the copy shares nothing with its argument is not something the model can state; indexing into a string by a path is an error in the model, and a character in Python.
- DeepMerge: trees are values, so "non-destructive" and sharing between the result and its arguments are not captured.
- UnflattenDict: trees are values, so walking down and creating containers in place is one recursive function; bracket texts that Python's `int` reads but that are not plain digits, such as `[-1]` or `[ 1]`, raise in the model.
- FlattenDict: `flatten_lists=False`, a parent key, a list or scalar at the top, tuples and keys that are not strings are not modelled.
- PopByKey: it is stated for keys of the queue namespace; the code would read other entries of the index in a different shape. The in-memory set of keys in flight is not modelled.
- Pop: the three clock readings of one call are separate inputs; that DiskCache iterates in sorted order is assumed as the comment says.
- TasksAreConserved: a process that stops between the two writes of a nack or a recovery keeps its task in hand for good; the code has no recovery from that.
- ParseInvertsMake: timestamps count microseconds, the six decimals that a key keeps, so float rounding is not modelled.
- ParseInvertsFormat: years have four digits, and months and days two; `strptime` also reads unpadded ones.
- WelfordIsBatch: over the reals, so floating-point rounding is not modelled; the square root of `std` is left out.
- Dequeue: the reads and writes of one call are not interleaved with other processes, and a process that stops inside a call is seen only in what it leaves behind; the short sleep is left out.
- Wrapper: calls follow each other; concurrent calls through one breaker are not modelled.
- ApplyMergeOperation: the schema check lets the staging table have columns that the destination lacks; the model takes over such rows as they are, where the database would reject the statement for the unknown column.
- Promote: strategy 2 of the verification is modelled as `promote` reaches it, without primary keys, where it raises before counting; the time stamp and the SQL texts are inputs or left out.
- PoolIsSafe: connections are values that count as true, and the pool is closed only when no session is active, which the code does not check.
- CloseAllIsSafe: an overlapping `close_all` is one step, where the code closes one connection after another and other sessions can come in between.
- SplitBySize: finding, filtering and extracting the files is left out; the files and sizes are inputs.
- PartitionLoad: each query stands for the rows it selects; the texts of the queries are left out, and the hash is a function to natural numbers.
- The merge of defaults into steps (`_resolve_merged_config`): it only applies the merge proved here.
- Template rendering, expression evaluation, SQL predicates of checkpoints, database, file and cloud drivers, monitoring, reporters and the command line: input and output, or texts in other languages.
- The Redis, Postgres and memory queues: other systems' semantics, or easy variants of what is proved.
- Persistence of running statistics: it rounds and drops m2, so there is no round trip.
