# Work queue, memory sync and their neighbours, verified

A Dafny model of the parts of the repository that are protocols or state machines, with
proofs of what they are for. `dafny verify dfyconfig.toml` checks all of it.

- **Sql**, **WorkRows**, **Queue**: the self-hosted work queue. `WorkRows` says what each
  operation does to the rows; the class `WorkQueue` runs the source's statements, with SQL's
  three-valued conditions and set-level updates, and is proved to do that. Ids are row
  positions, so they double as rowids. Stored timestamps are whole seconds, clocks are
  milliseconds, and every statement reads a clock of its own, which may jump.
- **RowHistory**, **Protocol**, **RunTruths**: the queue with any number of poll-loop workers
  as a step system. Requests and replies are separate messages: a request may be served late,
  repeatedly or never, a reply may arrive late or never, a worker may stop waiting, crash and
  start over. Everybody else may use every operation at any time (only completions under a
  poll loop's name are that loop's own). The theorems are about every run from an empty queue.
  **QueueLaws**: what each column of a row records and what each answer means there, exactly;
  **Delivery**: that a ready item is handed out, executed and recorded.
- **PollLoop**: the worker's loop as it is written, proved to be a participant of that system.
  **Waits**: a bounded wait on an item while such a run goes on.
- **QueueViews**: the counters against what claims hand out. **Paging**: keyset paging of the
  list, by the queue's own cursors and along the official route.
- **MemoryPaths**, **MemoryPass**, **MemoryEvents**, **MemoryRuns**, **MemorySync**,
  **MemoryExamples**: how store paths and files of a mount name each other; what a pass that ends or
  throws does to disk, store and baseline, against a three-way merge per path; which edits of a path
  survive a run of passes; that whole runs are such runs, path by path; the store and the mount as
  classes whose passes do it in place; and concrete passes.
- **StepLog**, **StepFates**, **PiChild**, **RateLimiter**, **RetryLoop**, **LineReaders**,
  **WireFormat**, **Trimmer**: the default strategy's event log and the fate of each tool call, the
  Pi child being aborted, the inbound rate limiter, the model retry loop, the incremental stream
  readers and what a stream means, and the in-flight tool-result trimmer.

Clocks, failures of requests and appends, probes of process groups and the replies of model
requests are parameters, quantified over in every theorem.

## Where the code differs from what it is meant to do

Five properties hold only under a condition. Each has a lemma that gives the condition exactly,
and a concrete input on the other side.

- Paging the work list along the official route: a page of exactly 200 rows asks the queue for
  201, which `list` clamps to 200, so the route publishes no cursor and the walk ends with rows
  unread (`Paging.RouteLosesRowsOnlyAt200`, `Paging.TwoHundredAndOneRows`). The queue's own
  cursors lose nothing (`Paging.ListingVisitsEveryRow`).
- Memory sync: the push lists files, not paths, and the pull cannot write every path the store
  accepts. A pass runs to its end exactly when both listings of the store succeed, no path of store
  or baseline escapes the mount, the records' files fit into the tree of files and directories (two
  records such as `/a` and `/a/b` do not, nor does one that resolves to a directory), and, in a
  writable mount, no listed file's first name starts with two dots (`MemoryPass.FitsMeans`,
  `MemorySync.Mount.Reconcile`, `MemoryExamples.NestedRecordsThrow`). Then, at a path whose file no
  other path of store or baseline shares and whose own request succeeds, the store ends at the merge
  exactly under the condition of `MemoryPass.StoreReachesMerge`: a record whose path is not
  spelled as its file would be listed (a dot segment, say) is deleted and created again under the
  file's path, one whose file is named like the mount's marker file is deleted, of records that
  resolve to one file at most one is left, and a file whose name ends in a blank is created under
  another path (`MemoryPass.RecordSurvives`, `MemoryPass.TwinTakesPath`,
  `MemoryExamples.DottedRecordMoves`, `MemoryExamples.TwoRecordsOneFile`,
  `MemoryPass.MarkerRecordIsLost`, `MemoryExamples.BlankFileIsRenamed`).
- Edits between passes: a pass that throws after it has uploaded, because the second listing fails
  or because it meets a file whose first name starts with two dots, keeps the listing it began
  with as its baseline. An edit made before the next pass is then taken for a conflict and
  overwritten, although nobody else wrote the store; and another writer's change is undone if it
  puts back what was there before. Failed requests, and passes that throw before they upload, lose
  nothing by themselves; a deleted file comes back with the next pull in any case. The exact
  conditions are those of `MemoryRuns.LastEditOfRunSurvives`, `MemoryRuns.EditAfterThrownPass` and
  `MemoryEvents.StoreEditAfterThrow`; concrete runs are `MemoryExamples.EditIsLost` and
  `MemoryExamples.DeletionIsUndone`.
- Rate limiting: a configured limit below one request is floored to zero, and then a caller that
  honours Retry-After is refused again (`RateLimiter.RetryAfterIsEnough`,
  `RateLimiter.HalfARequestIsNone`).
- `queueStats` against `claim`: a lease that does not reach back over the current second lapses
  as it is taken, so the oldest ready row is handed out for ever (`QueueViews.ClaimsAgreeExactlyWhen`,
  `QueueViews.SubSecondLeaseNeverDrains`). No lease of a second or more is affected.

## Model

| member | source | states |
|---|---|---|
| `Queue.WorkQueue.EnqueueItem` | src/sandbox/self-hosted-provider.ts:302-317 | the new row is queued and unclaimed under the next id, and born stopped exactly when its session is terminal |
| `Queue.WorkQueue.SweepLapsed` | src/sandbox/self-hosted-provider.ts:416-422 | the set-level update, under three-valued conditions, turns exactly the unstopped accepted rows whose lease lapsed into `unknown` |
| `Queue.WorkQueue.SelectCandidate` | src/sandbox/self-hosted-provider.ts:424-448 | the four selections find the oldest claimable row, by (created_at, rowid), inside the given session, environment, both or neither |
| `Queue.WorkQueue.TakeLease` | src/sandbox/self-hosted-provider.ts:449-469 | the guarded update leases exactly one row if it is still claimable at its own clock reading, and clears its acceptance, give-up and heartbeat; else nothing changes |
| `Queue.WorkQueue.ClaimItem` | src/sandbox/self-hosted-provider.ts:339-470 | sweep, selection and guarded update together are the row-level claim, with three independent clock readings and a reclaim window that defaults to the lease |
| `Queue.WorkQueue.CompleteItem` | src/sandbox/self-hosted-provider.ts:495-513 | only the holder of an open row records an outcome; the completion hook fires exactly when the answer is `completed` |
| `Queue.WorkQueue.RenewItem` | src/sandbox/self-hosted-provider.ts:537-551 | only the holder of an open, unstopped row renews; the refusal says lease lost exactly when the row was stopped |
| `Queue.WorkQueue.AcceptItem` | src/sandbox/self-hosted-provider.ts:613-636 | only the holder of an open, unstopped row inside its lease is told to go ahead; the refusals tell a lost lease from another holder |
| `Queue.WorkQueue.AcceptItemScoped` | src/sandbox/self-hosted-provider.ts:674-692 | the same on the official wire, where an absent worker header skips the holder check |
| `Queue.WorkQueue.RenewItemScoped` | src/sandbox/self-hosted-provider.ts:719-767 | the scoped renewal's whole condition and its effect: it anchors the heartbeat and names a holder only where there was none |
| `Queue.WorkQueue.StopSession` | src/sandbox/self-hosted-provider.ts:855-860 | marks exactly the session's open, unstopped rows and counts them |
| `Queue.WorkQueue.StopOne` | src/sandbox/self-hosted-provider.ts:782-791 | marks one open, unstopped row; found exactly when the row exists |
| `Queue.WorkQueue.RecordGiveUp` | src/sandbox/self-hosted-provider.ts:572-581 | notes a given-up wait on a queued, unstopped row that has no such note yet |
| `Queue.WorkQueue.WaitFailure` | src/sandbox/self-hosted-provider.ts:1005-1033 | why a bounded wait failed, from the row it had read; it changes at most the give-up note |
| `Queue.WorkQueue.Await` | src/sandbox/self-hosted-provider.ts:949-961 | the polling loop: a result seen by a poll wins even past the deadline, and it times out only at a poll past the deadline with no result in any poll so far |
| `Waits.AwaitInRun` | src/sandbox/self-hosted-provider.ts:949-1033 | a bounded wait over any growing run: it times out only when no outcome was reported by any of its polls, says `work_queue_timeout` only when nobody had been handed, accepted, started or completed the item, `work_lease_lost` exactly when it was stopped, and `unknown` exactly otherwise; and a result is the one that was reported |
| `Queue.ClaimableSql` | src/sandbox/self-hosted-provider.ts:383-392 | under three-valued logic the row's and the session's conditions keep a row exactly when it is claimable; a NULL operand never satisfies a comparison |
| `Queue.CandidateSql` | src/sandbox/self-hosted-provider.ts:424-448 | the composed WHERE clause is true exactly on the claimable rows in scope |
| `Sql.UpdateOne` | src/sandbox/self-hosted-provider.ts:462-465 | an UPDATE that pins the primary key changes that row, with `changes` 1, or nothing, with `changes` 0 |
| `WorkRows.Oldest` | src/sandbox/self-hosted-provider.ts:424-448 | the selected row comes before every other selectable row in (created_at, rowid) order; none is selected only when none qualifies |
| `RowHistory.ApplyMovesForward` | src/sandbox/self-hosted-provider.ts:302-860 | every operation keeps the shape of every row (a lease nobody is named on has a heartbeat; queued means not accepted; a settled row has holder and result) and moves rows only forward |
| `RowHistory.ClaimHandsOut` | src/sandbox/self-hosted-provider.ts:339-470 | a claim hands out only a queued, unstopped, lapsed, in-scope row of a session that has not ended, and leaves it queued under the caller's name |
| `Protocol.StepKeepsInv` | src/cli/worker-commands.ts:383-491 | every step of queue, workers, sessions or anyone else keeps: whoever was told to go ahead is the row's holder and the row is no longer queued; only sent requests have replies; nobody is about to start what was started |
| `Protocol.RunKeepsInv` | src/cli/worker-commands.ts:383-491 | and so does every run |
| `Protocol.AtMostOnce` | src/sandbox/self-hosted-provider.ts:339-636 | over every run, with replies lost, late or repeated, leases lapsing, sessions ending and workers crashing, no item is executed twice by poll loops, be it the same or different ones |
| `RunTruths.LeaseColumn` | src/sandbox/self-hosted-provider.ts:339-767 | `claimed_at` changes exactly when a claim or a renewal is answered, to that operation's clock reading |
| `RunTruths.AcceptedColumn` | src/sandbox/self-hosted-provider.ts:416-422 | a row becomes accepted only by an acceptance, and `unknown` only from accepted |
| `RunTruths.OutcomeColumn` | src/sandbox/self-hosted-provider.ts:495-513 | a row is settled exactly by an answered completion, with that completion's result, status and holder |
| `RunTruths.StepKeepsAll` | src/sandbox/self-hosted-provider.ts:302-860 | one step keeps all whole-run invariants, moves rows only forward, and only appends to the list of completions |
| `RunTruths.StatusIsTrue` | src/sandbox/self-hosted-provider.ts:416-422 | in every reachable state: queued means never accepted, executed or completed; accepted or unknown means accepted and not completed; settled means completed; whoever executed an item is its holder |
| `RunTruths.ReportsAreOfExecutions` | src/cli/worker-commands.ts:431-483 | a poll loop reports only items it ran, no item is reported twice, and an outcome under its name is the outcome of an execution |
| `RunTruths.QueueTimeoutIsTruthful` | src/sandbox/self-hosted-provider.ts:1005-1033 | a wait reports `work_queue_timeout` only for an item that in the run so far nobody was handed, accepted, started or completed |
| `RunTruths.OutcomeIsFinal` | src/sandbox/self-hosted-provider.ts:495-513 | a recorded outcome is the row's outcome after every continuation, and no other completion of that item is ever recorded |
| `RunTruths.HookFiresOnce` | src/sandbox/self-hosted-provider.ts:495-513 | over any run the completion hook is called exactly once for every settled item and for no other, with the row that every continuation keeps |
| `RunTruths.HolderIsStable` | src/sandbox/self-hosted-provider.ts:674-767 | after every continuation an accepted row has the same holder and is never queued again; applied, failed and unknown rows are identical |
| `RunTruths.StoppedRefuses` | src/sandbox/self-hosted-provider.ts:537-636 | a stopped row is never handed out, accepted or renewed, on either wire |
| `RunTruths.StopIsFinal` | src/sandbox/self-hosted-provider.ts:855-860 | after every continuation a stopped row is refused to everyone, has changed at most by its holder's outcome, and that outcome is still recorded |
| `RunTruths.EndedSessionIsFinal` | src/sandbox/self-hosted-provider.ts:246-392 | once a session is terminal no later claim returns any of its items, and items enqueued afterwards are born stopped |
| `RunTruths.LeaseWindow` | src/sandbox/self-hosted-provider.ts:343-384 | for every row of every reachable state: inside the lease and lapsed are complements; an unaccepted claim is never reclaimable within lease − 1000 ms of its last renewal and always from lease ms on; an accept succeeds exactly before that instant |
| `RunTruths.SweepSparesRenewed` | src/sandbox/self-hosted-provider.ts:416-422 | in every reachable state a sweep marks a row `unknown` exactly when it is accepted, unstopped and its last renewal is a lease back, so never one renewed within the lease less a second |
| `RunTruths.FlooredLease` | src/sandbox/self-hosted-provider.ts:343-352 | flooring both timestamps to seconds loses exactly the renewal's own fraction of a second |
| `RunTruths.ApplyForgets` | src/sandbox/self-hosted-provider.ts:572-581 | no operation's answer and no other column depends on `abandoned_at` |
| `RunTruths.GiveUpsAreInvisible` | src/sandbox/self-hosted-provider.ts:949-1033 | erasing `abandoned_at` after every step of any run changes no answer, message, worker or record |
| `PollLoop.Worker.ClaimWorkItem` | src/cli/worker-commands.ts:383-404 | sends one claim and takes an item exactly when the reply that names it arrived |
| `PollLoop.Worker.AcceptWorkItem` | src/cli/worker-commands.ts:774-797 | sends one accept and goes ahead exactly when its acceptance arrived |
| `PollLoop.Worker.RenewOnce` | src/cli/worker-commands.ts:528-541 | a tick sends one renewal, and the lease counts as lost from the first explicit refusal that arrives, and only then |
| `PollLoop.Worker.RenewWhileRunning` | src/cli/worker-commands.ts:521-555 | sends one renewal per tick for the running item, executes nothing meanwhile, and carries the lost lease out |
| `PollLoop.Worker.RunAndReport` | src/cli/worker-commands.ts:431-483 | runs the item once and reports it once, failed when the command failed or the lease was lost |
| `PollLoop.Worker.HandleItem` | src/cli/worker-commands.ts:424-483 | a claimed item is run and reported exactly when the acceptance had arrived by the time its answer was awaited, and otherwise only the accept is sent |
| `PollLoop.Worker.PollOnce` | src/cli/worker-commands.ts:383-491 | the item taken, whether it runs, and the exact requests and executions of one iteration, all determined by the replies that arrived |
| `PollLoop.Worker.Poll` | src/cli/worker-commands.ts:383-491 | whatever everybody else does between the worker's actions, each run of the loop is a run of the protocol, so no item is executed twice; one claim an iteration, and what it executed is exactly what it reported, in order |
| `PollLoop.OthersKeepDeeds` | src/cli/worker-commands.ts:383-491 | nothing anybody else does changes a worker's place in its loop, its requests or its executions |
| `QueueLaws.HolderColumn` | src/sandbox/self-hosted-provider.ts:449-755 | the holder of a row changes exactly by the claim that hands it out, to the claimer, or by an answered heartbeat while it has none |
| `QueueLaws.StatusColumn` | src/sandbox/self-hosted-provider.ts:302-860 | what the status of any row is after any operation: `accepted` by an answered acceptance, an outcome by an answered completion, `unknown` by a claim's sweep over the queue's own lease, else as before |
| `QueueLaws.StopColumn` | src/sandbox/self-hosted-provider.ts:302-860 | a row is stopped exactly by a stop of its session or of itself while it has no outcome, or at the enqueue for an ended session, and only once |
| `QueueLaws.ResultColumns` | src/sandbox/self-hosted-provider.ts:495-513 | result and completion time are set exactly by an answered completion, to what it reported |
| `QueueLaws.NoteColumns` | src/sandbox/self-hosted-provider.ts:449-755 | a hand-out clears acceptance, give-up and heartbeat; else each is written exactly by its own operation |
| `QueueLaws.FixedColumns` | src/sandbox/self-hosted-provider.ts:302-317 | session and age never change; only an enqueue adds a row, the last one |
| `QueueLaws.OverIsEnded` | src/sandbox/self-hosted-provider.ts:241-250 | the statuses without outbound transitions are the six terminal ones |
| `QueueLaws.TransitionsAre` | src/types/session.ts:37-52 | from which statuses a session may become each other |
| `QueueLaws.ClaimHandsOutExactly` | src/sandbox/self-hosted-provider.ts:339-470 | in every reachable configuration a claim, whatever its scope, window and clock readings, hands out item i if and only if i is queued, unstopped, of a session that is not over, asked for, last renewed a window before, no such item is older, and its lease has still lapsed by the last reading |
| `QueueLaws.UnknownExactlyWhen` | src/sandbox/self-hosted-provider.ts:416-422 | of all operations only a claim makes a row `unknown`, handing something out or not, and exactly each accepted, unstopped one whose last renewal is the queue's own lease back by the sweep's reading |
| `QueueLaws.EnqueuedWaits` | src/sandbox/self-hosted-provider.ts:302-317 | what is enqueued waits for a claim at once, exactly when its session is not over |
| `QueueLaws.AcceptAnswers` | src/sandbox/self-hosted-provider.ts:613-636 | the answer to every acceptance in every reachable configuration, in terms of stop, holder, status and the last renewal |
| `QueueLaws.AcceptScopedAnswers` | src/sandbox/self-hosted-provider.ts:674-692 | the same on the official wire, where a nameless caller needs only the lease |
| `QueueLaws.RenewalAnswers` | src/sandbox/self-hosted-provider.ts:537-551 | the answer to every renewal: granted to the holder of an open, unstopped row however late it comes |
| `QueueLaws.BeatAnswers` | src/sandbox/self-hosted-provider.ts:719-767 | the answer to every scoped heartbeat, the precondition first |
| `QueueLaws.CompletionAnswers` | src/sandbox/self-hosted-provider.ts:495-513 | the holder of any open row, stopped or not, accepted or only claimed, is answered `completed`, and nobody else |
| `QueueLaws.CompletionIsRecorded` | src/sandbox/self-hosted-provider.ts:495-513 | and then the row holds the outcome, the hook is told, and no other row changes |
| `QueueLaws.ExecutionIsRecorded` | src/sandbox/self-hosted-provider.ts:495-513 | in every reachable configuration a poll loop's completion of what it executed is recorded, and the hook fired, exactly when the row is not `unknown` and nothing was recorded before |
| `QueueLaws.WaitCodeIs` | src/sandbox/self-hosted-provider.ts:1005-1033 | the code of a failed wait on an unfinished item, exactly: stopped; never leased by anyone; else outcome unknown |
| `QueueLaws.WaitNote` | src/sandbox/self-hosted-provider.ts:1005-1033 | a failed wait leaves its note exactly on a queued, leased, unstopped row without one |
| `Delivery.ReadyItemIsDelivered` | src/cli/worker-commands.ts:383-491 | in every reachable configuration an idle poll loop whose claim is served while item i is first for it and whose acceptance is served within the lease executes i; and its report, served next, is i's outcome and is told to the hook |
| `QueueViews.StatsPartition` | src/sandbox/self-hosted-provider.ts:905-924 | depth plus pending is the number of live queued rows |
| `QueueViews.OldestQueuedIs` | src/sandbox/self-hosted-provider.ts:905-924 | the oldest queuing time is that of the oldest live queued row, leased or not |
| `QueueViews.OneClaim` | src/sandbox/self-hosted-provider.ts:339-470 | one environment-scoped default claim hands out the oldest row of those that depth counts, or finds none, and takes it out of them exactly when the lease reaches back over the current second |
| `QueueViews.ClaimsDrainDepth` | src/sandbox/self-hosted-provider.ts:905-924 | at one instant exactly `depth` successive claims succeed, handing out those rows oldest first, then every claim is null, if the lease reaches back over the current second (any lease of a second or more) |
| `QueueViews.SubSecondLeaseNeverDrains` | src/sandbox/self-hosted-provider.ts:274-278 | with a shorter lease, whatever is queued, the oldest ready row is handed out by every claim |
| `QueueViews.ClaimsAgreeExactlyWhen` | src/sandbox/self-hosted-provider.ts:905-924 | for every queue, and more claims than `depth`, counter and claims agree if and only if the lease reaches back over the current second or nothing is ready |
| `Paging.NewestFirstSorts` | src/sandbox/self-hosted-provider.ts:868-890 | a listing holds every selected row once, in strictly descending (created_at, rowid) order |
| `Paging.CursorSelectsRest` | src/sandbox/self-hosted-provider.ts:870-886 | the rows below a cursor are exactly the rest of the listing after the cursor's row |
| `Paging.GrowthIsAboveCursor` | src/sandbox/self-hosted-provider.ts:870-886 | rows enqueued later with larger keys never appear below a cursor |
| `Paging.RestIsListed` | src/sandbox/self-hosted-provider.ts:870-886 | at every later fetch the cursor selects exactly what remained of the first view |
| `Paging.ListingVisitsEveryRow` | src/sandbox/self-hosted-provider.ts:868-890 | following `list` cursors, with any page sizes (absent and out of range too), with or without an environment, from the start or any row, while rows are enqueued in between, gives the first view's rows in order without a gap or a repetition |
| `Paging.ListedAre` | src/sandbox/self-hosted-provider.ts:868-890 | the listing holds exactly the rows of the environment asked for, or all, whatever their status |
| `Paging.WholeListing` | src/sandbox/self-hosted-provider.ts:868-890 | followed to its end the walk gives every row that was there, each once, newest first |
| `Paging.PageEndsEarlyOnlyAt200` | src/api/routes/environment-work.ts:468-483 | a page of the route ends the walk with rows remaining if and only if its limit is 200 and more than 200 rows remain: the route asks for 201 and the queue gives 200 |
| `Paging.RouteLosesRowsOnlyAt200` | src/api/routes/environment-work.ts:112-123 | a whole walk along next_page, for all accepted limits, loses rows if and only if some 200-row page that is not the last one fetched meets more than 200 remaining rows |
| `Paging.TwoHundredAndOneRows` | src/sandbox/self-hosted-provider.ts:869-869 | a concrete such walk: of 201 rows fetched 200 at a time one is never given |
| `MemoryPaths.TargetOfPath` | src/cli/worker-memory.ts:134-142 | a listed path resolves back to its file, unless its first name starts with two dots, which counts as escaping the mount |
| `MemoryPaths.PathOfInjective` | src/cli/worker-memory.ts:170-182 | no two files are listed under one path |
| `MemoryPaths.TargetIsProper` | src/cli/worker-memory.ts:134-142 | what a path resolves to has no empty, dot or slash-bearing names |
| `MemoryPaths.DottedIsAnAlias` | src/cli/worker-memory.ts:134-142 | a path with a dot segment resolves to the file of the path without it |
| `MemoryPaths.DottedIsAccepted` | src/api/routes/memory-stores.ts:676-683 | the store's API keeps such a path as it stands |
| `MemoryPaths.ApiPathHasNoBlanks` | src/api/routes/memory-stores.ts:676-683 | no path that the API keeps ends in a blank |
| `MemoryPaths.KeptExactlyWhen` | src/api/routes/memory-stores.ts:676-683 | the API keeps a path as it stands exactly when it is absolute, has no double slash, and ends in neither a slash nor a blank; and whatever it keeps is such a path |
| `MemoryPaths.RefusedExactlyWhen` | src/api/routes/memory-stores.ts:676-683 | it refuses exactly what, without blanks around it, is empty, not absolute, or ends in a slash |
| `MemoryPaths.ListedPathIsKept` | src/api/routes/memory-stores.ts:676-683 | of the paths under which files are listed it keeps as they stand exactly those whose name does not end in a blank |
| `MemoryPaths.DotDotGoesUp` | src/cli/worker-memory.ts:134-142 | a segment of two dots takes back the one before it |
| `MemoryPaths.DotDotEscapes` | src/cli/worker-memory.ts:134-142 | above the mount it escapes, unless it comes back by the mount's own name |
| `MemoryPaths.DottedNameEscapes` | src/cli/worker-memory.ts:134-142 | and any first name that begins with two dots counts as escaping |
| `MemoryPass.MergeMeans` | src/cli/worker-memory.ts:274-295 | the local version wins exactly when it changed and the store's did not; else the store's state, absence included |
| `MemoryPass.PullAllMeans` | src/cli/worker-memory.ts:279-295 | after the records of a listing each file is the fold of the merges of those that resolve to it, and the baseline is the listing |
| `MemoryPass.FileReachesMerge` | src/cli/worker-memory.ts:274-306 | where no two paths share a file, a pass leaves the file at the merge |
| `MemoryPass.StoreFollowsDisk` | src/cli/worker-memory.ts:324-368 | a successful push leaves the store, at a path that can be shown, with the file's version, and with nothing elsewhere |
| `MemoryPass.PullSucceedsWhen` | src/cli/worker-memory.ts:134-158 | whatever the contents, the baseline and the order, a pull brings every record exactly when no path escapes the mount and the files that are not there yet fit into the tree of files and directories, each other included |
| `MemoryPass.FitsMeans` | src/cli/worker-memory.ts:274-306 | spelled out: a pull throws if and only if a path of store or baseline escapes, or a record's file that is not there yet meets a directory of its name or a file above it, or one record's file lies above another's |
| `MemoryPass.DottedFileStays` | src/cli/worker-memory.ts:170-182 | the pull neither brings nor takes a file whose first name starts with two dots, so whether the push throws is settled before the pass |
| `MemoryPass.StoreReachesMerge` | src/cli/worker-memory.ts:316-375 | where no two paths share the file, and for every path whose request succeeds, the store ends at the merge if and only if: no other file is created there and the path is spelled as its file is listed, its file is no marker file and a new path is kept as it is, or the merge is absent; or another file is created there and the first of them holds the merge |
| `MemoryPass.TwinTakesPath` | src/api/routes/memory-stores.ts:223-259 | where a file listed under another path is created at a path new to the store, the store holds what some such file holds, and never the merge if that is absent |
| `MemoryPass.NewRecordIs` | src/cli/worker-memory.ts:338-344 | a path new to the store gets exactly what the first file asked for at it holds |
| `MemoryPass.RecordSurvives` | src/cli/worker-memory.ts:354-368 | whatever else resolves to its file, a listed record outlives a successful pass if and only if it is spelled as its file is listed, is no marker file's, and no departed path resolves to its file; and then it holds what the pull made of the file |
| `MemoryPass.OneRecordPerFile` | src/cli/worker-memory.ts:134-142 | of records that resolve to one file at most one outlives a successful pass |
| `MemoryPass.AliasMoves` | src/cli/worker-memory.ts:338-368 | a record under another spelling than its file's is deleted and created again under the file's own path, with the merged content |
| `MemoryExamples.DottedRecordMoves` | src/cli/worker-memory.ts:338-368 | for instance /a/./b, in sync with its file, becomes /a/b |
| `MemoryExamples.TwoRecordsOneFile` | src/cli/worker-memory.ts:279-295 | for instance of /a/./b and /a/b only /a/b is left, with its own content, and the other content is lost |
| `MemoryPass.MarkerRecordIsLost` | src/cli/worker-memory.ts:354-368 | a record whose file is named like a marker file is deleted, in sync or not |
| `MemoryPass.BlankFileIsRenamed` | src/api/routes/memory-stores.ts:676-683 | a file whose name ends in a blank is created in the store without it |
| `MemoryExamples.BlankFileIsRenamed` | src/api/routes/memory-stores.ts:676-683 | for instance a pass over the single file `x ` and an empty store leaves the record /x, where there is no file and the merge is absent |
| `MemoryPass.NestedRecordsStopEveryPull` | src/cli/worker-memory.ts:152-158 | while the store lists /a and /a/b, both of which the API accepts, every pull of every mount throws |
| `MemoryExamples.NestedRecordsThrow` | src/cli/worker-memory.ts:152-158 | and such a pass runs: it ends in the throw, with both records in the store |
| `MemoryRuns.PassProjects` | src/cli/worker-memory.ts:316-375 | at an ordinary path a whole pass is the per-path pass |
| `MemoryRuns.PullProjects` | src/cli/worker-memory.ts:274-306 | wherever a pull throws, the file of a path alone on it holds its old version or the merge, according to whether the pull had got to the path, and then the baseline is what the store holds |
| `MemoryRuns.PushProjects` | src/cli/worker-memory.ts:324-353 | when the push throws, the store has at an ordinary path the merge exactly if its file was listed before and its request succeeded; else it is untouched |
| `MemoryRuns.EndProjects` | src/cli/worker-memory.ts:316-375 | at an ordinary path every pass, however it ends, is one event: a whole pass, or a thrown one that has pulled or not and sent or not, and keeps as baseline the listing it began with |
| `MemoryRuns.RunProjects` | src/cli/worker-memory.ts:316-375 | over any run of passes that end or throw anywhere, local edits and other writers' changes between passes, an ordinary path goes through exactly its own events |
| `MemoryRuns.LastEditOfRunSurvives` | src/cli/worker-memory.ts:316-375 | over any such run in which nobody else writes the path, the agent's last edit is still in the file if and only if no pass since pulled when the file differed from the store because it had been deleted, or edited after the last pass that pulled had thrown after uploading |
| `MemoryRuns.EditAfterThrownPass` | src/cli/worker-memory.ts:279-293 | an edit made after a pass that threw once it had pulled the path is kept by the next pass that pulls it if and only if the first uploaded nothing there, or the same; else the file is back at what was uploaded |
| `MemoryEvents.BaselineIs` | src/cli/worker-memory.ts:371-374 | over every run the baseline is what the store held when the last pass that pulled ended, or, if that pass threw, when it began |
| `MemoryEvents.FileIsKeptExactlyWhen` | src/cli/worker-memory.ts:279-293 | so after any run the next pass keeps the file as it is if and only if the store holds the same, or the file is there and the store holds what it held at that moment |
| `MemoryEvents.PassLosesEditExactlyWhen` | src/cli/worker-memory.ts:279-293 | while nobody else writes the store, a pass changes the file if and only if it differs from the store and either is deleted or the last pass that pulled threw after uploading; then it holds what the store holds |
| `MemoryEvents.LastEditSurvivesExactlyWhen` | src/cli/worker-memory.ts:279-293 | while nobody else writes the store, the last edit is on the disk after a run if and only if no pass since has lost it so; otherwise the file holds what the store does |
| `MemoryEvents.SurvivingEditIsUploaded` | src/cli/worker-memory.ts:333-344 | and then the next pass that runs to its end leaves it on the disk, in the store and in the baseline |
| `MemoryEvents.FailedUploadsAreRetried` | src/cli/worker-memory.ts:345-352 | in particular edits survive any number of passes whose request fails or that throw before they send it, and the first successful pass uploads the last of them |
| `MemoryEvents.OnlyBaselineIsReplaced` | src/cli/worker-memory.ts:333-341 | a pass replaces a store version exactly when the file alone differs from the baseline, and then by the file; so never a version that differs from the baseline |
| `MemoryEvents.NextPassMakesUpForThrow` | src/cli/worker-memory.ts:371-374 | if nothing happens before the next pass, a lost baseline does no harm: that pass ends where the two would have ended |
| `MemoryEvents.EditAfterThrow` | src/cli/worker-memory.ts:279-293 | an edit in between is kept exactly when the thrown pass uploaded nothing or the same; after a whole pass it is always kept |
| `MemoryEvents.StoreEditAfterThrow` | src/cli/worker-memory.ts:279-305 | what another writer does in between, deletion included, stands exactly unless it puts back what was there before the thrown pass; after a whole pass it always stands |
| `MemoryExamples.EditIsLost` | src/cli/worker-memory.ts:371-374 | for instance a new file x is uploaded, the second listing fails, x is edited, and the next pass puts the old content back on the disk: the edit is gone although nobody else wrote the store |
| `MemoryExamples.DeletionIsUndone` | src/cli/worker-memory.ts:371-374 | or the record is deleted in between, and the next pass creates it again |
| `MemoryRuns.QuietPull` | src/cli/worker-memory.ts:279-295 | after no changes the pull writes nothing |
| `MemoryRuns.QuietPassChangesNothing` | src/cli/worker-memory.ts:316-375 | and the pass changes no file and no record |
| `MemoryRuns.PassEndsQuiet` | src/cli/worker-memory.ts:316-375 | a fully successful pass leaves disk, store and baseline equal, if each listed path is one that the API keeps |
| `MemorySync.QuietSendsNothing` | src/cli/worker-memory.ts:324-368 | after no changes no request is due |
| `MemorySync.Service.Create` | src/api/routes/memory-stores.ts:223-259 | a memory is created under the trimmed and collapsed path, unless that is refused or taken |
| `MemorySync.Service.Update` | src/api/routes/memory-stores.ts:265-318 | a record's content is replaced only under its expected hash; asking for what is already there succeeds anyway |
| `MemorySync.Service.Delete` | src/api/routes/memory-stores.ts:327-356 | a record is deleted only under its expected hash |
| `MemorySync.Mount.PullOne` | src/cli/worker-memory.ts:279-295 | one listed record: kept, adopted, written, or thrown at, as the specification step says |
| `MemorySync.Mount.DropDeleted` | src/cli/worker-memory.ts:296-305 | the files of departed paths go and their baseline entries too; it throws exactly on a path that escapes |
| `MemorySync.Mount.Pull` | src/cli/worker-memory.ts:274-306 | the whole pull: exactly when it throws, in terms of paths, files and directories, and what every file and baseline entry is then: after a prefix of the listing, or all of it and some of the departed paths, or everything |
| `MemorySync.Mount.UploadOne` | src/cli/worker-memory.ts:325-353 | one file is sent exactly when the store's record differs from it, as a create or as an update conditioned on the listed hash |
| `MemorySync.Mount.Upload` | src/cli/worker-memory.ts:324-353 | the uploads in the order of the listing, up to the first file whose path counts as escaping: which records are updated and created |
| `MemorySync.Mount.DeleteMissing` | src/cli/worker-memory.ts:354-368 | the delete arm removes exactly the unrefused baseline paths that no listed file shows |
| `MemorySync.Mount.Reconcile` | src/cli/worker-memory.ts:316-375 | exactly how a pass ends, from what is there before it, and what disk, store and baseline are by then: in each of the five cases it is the relation the theorems about runs are about; only due requests are sent |
| `RateLimiter.Limiter.Handle` | src/api/rate-limit.ts:84-128 | the middleware is the specification's step: window, counter, reply |
| `RateLimiter.WindowsAreApart` | src/api/rate-limit.ts:69-82 | under any clock readings the k-th window starts at least (k − 1) minutes after the first reading and not after the highest |
| `RateLimiter.AdmittedPerWindow` | src/api/rate-limit.ts:84-128 | closed windows admitted at most the limit each, the open one exactly its counter |
| `RateLimiter.AdmissionBound` | src/api/rate-limit.ts:69-128 | a bucket is admitted at most limit · (1 + ⌊(highest − first)/60000⌋) times |
| `RateLimiter.SilentBucket` | src/api/rate-limit.ts:84-128 | while a bucket is silent its window stays or its counter is zero, whatever others do |
| `RateLimiter.RepliesAreExact` | src/api/rate-limit.ts:69-128 | under any readings a limited request is admitted exactly while fewer of its bucket than its limit were admitted in its window, and told how many are left; a refused one is told the least whole seconds, at least one, after which the window is over |
| `RateLimiter.UnlimitedLeavesNoTrace` | src/api/rate-limit.ts:84-92 | a request that is not limited changes neither window nor counts |
| `RateLimiter.RetryAfterIsEnough` | src/api/rate-limit.ts:104-123 | a refused caller back after Retry-After seconds is admitted if and only if its limit is not zero |
| `RateLimiter.HalfARequestIsNone` | src/api/rate-limit.ts:166-173 | a limit of zero is reachable: a configured half request a minute is floored and admits nobody |
| `RetryLoop.RetryMiddleware.TryOnce` | src/model/registry.ts:482-502 | one round: it ends the call with its request's answer, exhausted exactly at the fourth retryable failure, or announces a retry |
| `RetryLoop.RetryMiddleware.RunWithRetry` | src/model/registry.ts:474-509 | at most four requests whatever the errors; the outcome is the one the rounds admit; every retry is announced with its number and delay and waited for; other calls may share the flag meanwhile |
| `RetryLoop.OneOutcome` | src/model/registry.ts:474-509 | within four requests the rounds admit exactly one outcome |
| `RetryLoop.WaitBound` | src/types/model.ts:167-193 | without Retry-After the waits add up to at most 7000 ms, even when the error type changes between attempts |
| `RetryLoop.DelayIsPlain` | src/types/model.ts:167-193 | the delay before each retry: Retry-After except for timeouts, else 1, 2 and 4 s after a server's error and none after others |
| `RetryLoop.OutcomeMeans` | src/model/registry.ts:474-509 | in plain terms, both ways: a call ends after n retries if and only if each round before failed for one of the four transient reasons unaborted, and the last was aborted, answered, failed otherwise, or was the fourth |
| `RetryLoop.SomeOutcome` | src/model/registry.ts:474-509 | and every call ends so |
| `RetryLoop.ServerWaits` | src/types/model.ts:167-193 | while the server fails without Retry-After the waits are exactly 1, 2 and 4 s |
| `RetryLoop.UnreportedMeans` | src/model/registry.ts:475-490 | a retry is unreported exactly when one was scheduled after the last recovery |
| `RetryLoop.RecoveriesAreEarned` | src/model/registry.ts:475-490 | a recovery is reported only while some scheduled retry is unreported, across all calls sharing the middleware |
| `LineReaders.EventStreamParser.Push` | apps/console/src/api.ts:188-193 | pushing a chunk is feeding its characters one by one to the reference reader |
| `LineReaders.EventStreamParser.Finish` | apps/console/src/api.ts:194-198 | finishing closes the reader: the last line counts and a pending event is delivered |
| `LineReaders.SplitIsFed` | apps/console/src/api.ts:188-193 | splitting a whole buffer into lines and consuming them is character-by-character reading |
| `LineReaders.ParseChunks` | apps/console/src/api.ts:149-200 | for every way of cutting a text the delivered events are those of the whole text |
| `LineReaders.SentIsDelivered` | apps/console/src/api.ts:158-185 | round trip: events written in the wire format of section 9.2.6 of the WHATWG HTML Standard are delivered in order, name, id and data unchanged |
| `LineReaders.ToolCallTypeSanitizer.Transform` | src/model/registry.ts:715-727 | a chunk emits exactly the lines it completes, each rewritten, and keeps the rest; a rewrite that throws leaves the lines before it |
| `LineReaders.SanitizeChunks` | src/model/registry.ts:696-733 | for every way of cutting a text the output is its lines rewritten, up to the first whose rewrite throws, and the very text when no line needs it |
| `LineReaders.LinesJoinBack` | src/model/registry.ts:715-733 | the lines of a text joined are the text |
| `LineReaders.LinesAre` | src/model/registry.ts:715-733 | and each of them ends with its only line feed, but the last may have none |
| `LineReaders.RewrittenIs` | src/model/registry.ts:696-733 | what is sent is the lines' rewrites joined, up to the first that throws |
| `WireFormat.StreamIsDelivered` | apps/console/src/api.ts:149-200 | for every stream of event, id, data, unknown and comment lines, in any spelling, with either line ending, with empty events and an unfinished end, the parser delivers exactly the events it means: last name and last non-empty id since the last event, all data lines |
| `WireFormat.DataSplitsBack` | apps/console/src/api.ts:158-185 | an event's data split at its line feeds gives back its data lines |
| `StepLog.StepLogger.CloseRequestSpan` | src/strategy/default-strategy.ts:341-355 | closes the span in flight at most once, also when the append fails |
| `StepLog.StepLogger.PrepareStep` | src/strategy/default-strategy.ts:436-462 | an open span is closed as an error before the next start |
| `StepLog.StepLogger.LogUses` | src/strategy/default-strategy.ts:556-625 | the first loop logs exactly the calls that are not parked and parks the others on their lists, in order |
| `StepLog.StepLogger.LogMissing` | src/strategy/default-strategy.ts:687-721 | the third loop logs an error result for exactly the uses that nothing answered |
| `StepLog.StepLogger.OnStepFinish` | src/strategy/default-strategy.ts:466-721 | the whole log of a step: the span's end, then notes, uses, results and made-up errors, and the calls it leaves pending on either list |
| `StepLog.StepLogger.EndStep` | src/strategy/default-strategy.ts:482-496 | a finished step's end names the start in flight, if any, and clears it also when the append fails |
| `StepLog.StepLogger.RunAndUnwind` | src/strategy/default-strategy.ts:436-909 | for any callback sequence and the catch path every start is closed at most once, before the next start, by an end that names it, and only a failed append leaves one without; and the log's tool events are those of the finished steps, one step after another; both pending lists are those of the finished steps, joined; and the whole log is the one that the callbacks append |
| `StepFates.OneFate` | src/strategy/default-strategy.ts:556-721 | each call has one fate: used and answered in the log; left to the caller, exactly when its tool is custom and no result answers it; left to be confirmed, exactly when its tool is not custom, needs confirmation or was asked about, and no result answers it; or a custom call answered already |
| `StepFates.OnlyCallsAreListed` | src/strategy/default-strategy.ts:556-625 | nothing else is used or pending, and nothing twice |
| `StepFates.InCallOrder` | src/strategy/default-strategy.ts:556-625 | uses and pending calls come in the order of the calls |
| `StepFates.PendingIsLeftBySome` | src/strategy/default-strategy.ts:556-625 | over a whole run a call is pending exactly when some finished step left it so |
| `StepFates.NoCallIsLost` | src/strategy/default-strategy.ts:556-721 | over a whole run every call of a finished step is in the log or still pending where it belongs |
| `StepFates.NotesComeFirst` | src/strategy/default-strategy.ts:498-553 | a step notes its reasoning and then its text, exactly when it has them, before its tool events |
| `StepFates.StreamErrorCloses` | src/strategy/default-strategy.ts:341-355 | a stream error ends the request in flight as an error |
| `StepFates.RequestsAreShown` | src/strategy/default-strategy.ts:436-496 | without failed closing appends the log has one start for each prepared request and one good end for each finished step |
| `StepLog.LogIsPaired` | src/strategy/default-strategy.ts:556-721 | over the whole log of any callback sequence every tool use is followed within its step by exactly one result with its id, and every result answers an earlier use of its step |
| `StepLog.AnswersMatchUses` | src/strategy/default-strategy.ts:556-721 | the calls with a logged use are exactly the answered ones, each once |
| `StepLog.UsesArePaired` | src/strategy/default-strategy.ts:556-721 | every logged use is followed in its step by exactly one result with its id, and every result answers an earlier use of the step |
| `StepLog.ParkedCallsAreAbsent` | src/strategy/default-strategy.ts:556-625 | a parked call leaves neither a use nor a result in the step |
| `PiChild.Child.RejectAbortIfSafe` | src/strategy/pi-launcher.ts:827-834 | settles as an abort exactly when a close or error was reported and the tree's termination was reported or the group is seen dead |
| `PiChild.Child.OnAbort` | src/strategy/pi-launcher.ts:835-871 | the abort handler is the machine's step |
| `PiChild.Child.OnForceTimer` | src/strategy/pi-launcher.ts:856-869 | the force timer is the machine's step |
| `PiChild.Child.OnError` | src/strategy/pi-launcher.ts:878-886 | the error handler is the machine's step |
| `PiChild.Child.OnClose` | src/strategy/pi-launcher.ts:887-896 | the close handler is the machine's step |
| `PiChild.Child.OnWaitReturned` | src/strategy/pi-launcher.ts:415-433 | the lease is kept when cleanup is pending and released otherwise |
| `PiChild.AbortInvKept` | src/strategy/pi-launcher.ts:827-896 | every event after an abort keeps the settlement truthful, never settles twice, and settles as an abort only on a probe that saw the group dead |
| `PiChild.AbortIsSafe` | src/strategy/pi-launcher.ts:787-896 | for every order of events around an abort: it settles as an abort only at an event before which it was unsettled, at which a close or error of the child had been reported, and at which the group was seen dead or the tree's termination had been reported; else as cleanup pending by the timeout; the lease is released only after such an abort |
| `PiChild.AbortSettlesAt` | src/strategy/pi-launcher.ts:827-896 | the event that settles an abort, and what had been reported and probed at that moment |
| `PiChild.SettledStays` | src/strategy/pi-launcher.ts:796-809 | a wait settles once, whatever follows |
| `PiChild.SafeMeansSettled` | src/strategy/pi-launcher.ts:827-834 | and it does settle as soon as the workspace is seen to be safe |
| `PiChild.PlainReportSettles` | src/strategy/pi-launcher.ts:878-896 | without an abort the first report of the child or the prompt settles the wait as what it is, nothing else does, and nothing stays armed |
| `PiChild.AbortSettlesExactly` | src/strategy/pi-launcher.ts:787-896 | for every order of events an aborted wait settles exactly as the reports since the abort say: as an abort at the first event at which the workspace is seen to be safe, as cleanup pending if the timer fires before |
| `PiChild.LeaseAfterWait` | src/strategy/pi-launcher.ts:415-433 | for every order of events the lease is held until the wait has settled; once the settled wait has returned it is suspended for cleanup pending and released for every other outcome, and stays so |
| `Trimmer.Clone` | src/strategy/in-loop-context.ts:93-108 | the clone reads the same, and every output in it is new |
| `Trimmer.EstimateTokens` | src/strategy/in-loop-context.ts:46-56 | the counting loops compute the recomputable estimate |
| `Trimmer.TrimPart` | src/strategy/in-loop-context.ts:113-120 | overwriting one part changes that part only and the running count stays the recomputed estimate |
| `Trimmer.Pass` | src/strategy/in-loop-context.ts:113-133 | a pass trims the next tool messages in order and stops as soon as the count fits |
| `Trimmer.TrimInFlightToolResults` | src/strategy/in-loop-context.ts:83-135 | null exactly when the input fits; otherwise an oldest-first prefix of the tool messages is trimmed, none needlessly, until it fits or none is left; the caller's objects read the same; in exactly those messages the output values are overwritten with the placeholder |
| `Trimmer.TrimOneMore` | src/strategy/in-loop-context.ts:113-133 | trimming one more tool message changes that message alone |
| `Trimmer.RecentOnesAreKept` | src/strategy/in-loop-context.ts:66-82 | the last three tool messages stay verbatim unless trimming all older ones is not enough; other messages always do |
| `Trimmer.ToolIndexesAre` | src/strategy/in-loop-context.ts:87-90 | the collected positions are all the tool messages, in order |
| `Trimmer.EveryListShows` | src/strategy/in-loop-context.ts:46-56 | every message list reads as some list of values |
| `Trimmer.TrimOverwrites` | src/strategy/in-loop-context.ts:63-72 | a trim overwrites, in each of the oldest k tool messages, every output value that is there with the placeholder, keeping kind, text and size; a missing value stays missing, and every other part and message is the same |
| `Trimmer.TrimSaves` | src/strategy/in-loop-context.ts:113-133 | the estimate falls by exactly what that saves: each overwritten output that counted then costs sixteen tokens |
| `Trimmer.LargeOutputsShrink` | src/strategy/in-loop-context.ts:113-133 | so larger outputs really shrink |
| `Trimmer.EstimateRoundsUp` | src/strategy/in-loop-context.ts:25-56 | the estimate is four characters a token rounded up piece by piece, over the text, else the string output, else the serialized form of every part |
| `Trimmer.ShowsOneList` | src/strategy/in-loop-context.ts:46-56 | and as one only |

## Left out

- HTTP, SQLite, the file system, timers, JSON, authentication and command-line handling as such.
- Deleting a session removes its work rows too; after that a later enqueue counts as one for an unknown session. Not modelled.
- `--on-work` and `worker run`: several processes then share one worker id, for which acceptance is idempotent, so executions are those of poll loops with distinct ids.
- Executions by workers on the official wire: their operations are modelled and may happen at any step, but what they run is not recorded as an execution.
- A `work_queue_timeout` item may still run later: the row stays claimable, and the theorem is about the past only.
- Heartbeat compare-and-set is not unique within one second, because `heartbeat_at` has second precision; no such claim is made.
- Row payload, kind, metadata and environment columns, `workers_polling`, `recordPoll`, `stats()`, offset pagination, and dates outside four-digit years.
- Paging.ListingVisitsEveryRow: rows that are removed between two fetches, by the deletion of a session, are left out.
- Queue.WorkQueue.Await: the sleep between polls is left out; what each poll saw and when is an input, which `Waits.AwaitInRun` ties to a run.
- PollLoop.Worker.Poll: the endless loop is run for any finite number of iterations; materializing files and memory mounts before a run, and logging, are left out. In this loop a renewal's answer is looked at before the next tick; the step system allows it at any later moment.
- MemorySync.Mount.Reconcile: hashes are contents, and UTF-8 decoding, null contents, symbolic links and other files that are neither regular nor directories, file systems that fold case, and a second writer inside a pass are left out; a name that the host refuses counts as a directory's, and the mount directory is taken to exist. Local deletions are not pushed by the code either: the pull restores the file first.
- MemoryRuns.RunProjects: a worker that dies inside a pass is left out.
- Memory locks, mount creation and the final sync on exit.
- RetryLoop.RetryMiddleware.RunWithRetry: classifying an error is an input; what other calls do while one waits is only required to keep the shared flag truthful.
- LineReaders.SanitizeChunks: the rewrite of one line is an arbitrary function that may throw, and what a reader still gets of the lines before a throw is left out; parsing JSON in event data and byte-level UTF-8 decoding are left out.
- StepLog.StepLogger.OnStepFinish: appends other than span appends do not fail, large results are not spilled, MCP event names, message contents, and calls parked after the stream are left out.
- StepLog.UsesArePaired: assumes distinct call ids and at most one result per call, only for the step's own non-custom calls, as the SDK promises.
- PiChild.AbortIsSafe: what is proved is about what was reported: after an abort any error of the child counts as its close, and a terminator that throws at once counts as done. Settlement without an abort is in the machine but not part of the theorem; a missing stdin, launch errors before the child exists, the launcher's own turn timeout, lease-file internals and Windows command resolution are left out.
- RateLimiter.Limiter.Handle: a request is its bucket, whether the policy applies, and the clock it reads; caller identity, header texts and concurrency inside one request are left out.
- Trimmer.TrimInFlightToolResults: parts that are strings or not objects, and message contents that are neither a string nor a list, are left out; a part's serialized length is a number.
- Docker, Kubernetes, console interface, settings merge and provider tables: thin, or settled by reading one branch.
