# Coordinator3000, verified model

This project models the two state machines of Coordinator3000 and the small algorithms they lean on,
and proves properties of them with Dafny. `dafny verify dfyconfig.toml` checks everything.

**The coordination board** (`BoardModel.dfy` and the other `Board*.dfy` files). The board's connection pool
commits every SQL statement by itself, so `claim_task`, `create_task`, `release_stale` and the REST submit are
small programs of several statements, and statements of different calls interleave freely. `BoardModel.Next`
is one statement; a `Call` is a program counter with its local variables; `Run` executes a schedule, that is,
any interleaving of the statements of any number of calls together with the passing of time. Invariants are
proved for every schedule from an empty board. `BoardStore.dfy` is the board as an object that is updated in
place: each statement method is proved to be the step `Next`, and the board's own methods run their statements
in order with arbitrary other callers in the gaps (`gap` or `others` say what those do), so a contract such as
`ClaimTask`'s holds whatever runs in between. `BoardCalls.dfy`, `BoardDrain.dfy` and `BoardSweeps.dfy` hold what
those methods need about calls side by side, about finishing a goal and about repeated sweeps; `BoardRows.dfy`
reads every row off the history of what was written to it. `log` is a
history of claims, releases and sweeps that the table does not store; `HistoryIsFaithful` ties it to the table.

**The orchestration graph and its registry row** (`Orchestration.dfy`, `RunTrace.dfy`, `RunRegistry.dfy`). The routing model,
the coder, the reviewer and the effects of finalizing are oracles that may answer anything at each node
execution, or raise. `Exec` is the run after a number of node executions; `RunTrace.dfy` reads its state off its
visits without referring to the nodes.

**Supporting algorithms.** The job queue (`JobQueue.dfy`), workspace paths (`WorkspacePaths.dfy`), slugs
(`Slugs.dfy`), account tokens (`Accounts.dfy`), task keys (`TaskKeys.dfy`), the board page (`BoardPage.dfy`).

## What does not hold, and exactly when it does

- `app/agents/orchestrator.py:3-5` says the guards make a run always terminate. The iteration guard counts
  coder rounds only: a router that keeps asking for reviews never ends (`OnlyReviewsNeverEnd`), and neither does
  the fixed fallback rule when reviews reject without a summary (`SilentRejectionsNeverEnd`). A run ends by
  itself exactly when the replies of some round stop it: the router asks to finish or gives nothing, the worker
  it asks for raises, or the coder rounds asked for reach the cap (`RunsEndExactlyWhen`, on the replies alone);
  otherwise the recursion limit ends it, as failed (`RunsEndExactlyWhenRepliesStop`).
- The claim is called atomic (the repository's `README.md:92`, `app/store/board.py:407`), but the blocker check
  and the update are separate statements. From an empty board, eleven statements put a task in progress in front of an open blocker
  (`ClaimedInFrontOfOpenBlocker`). `ClaimIsSafeExactlyWhen` gives the exact condition on what happens in the gap,
  and `ClaimedOnlyWhenUnblocked` the discipline under which every claim of a run is safe.
- The submit endpoint checks the assignee long before it writes. The write lands on somebody else's claim exactly
  when that claim came after the check and still stands (`SubmitLandsElsewhere`), and from every reachable state
  with a checked submit on a task without open blockers, five statements bring this about (`SubmitOverAnothersClaim`).
- A conflict note need not be true: clients choose kind and text of the notes they post (`app/api/schemas.py:44-46`,
  `app/api/agent.py:88-97`), so an account can post a claim's note without a claim (`ForgedNote`,
  `ForgeriesAreStored`). All conflict notes on the board were true exactly when each posted one was
  (`ConflictNotesAreTrueExactlyWhen`), and those that claims write always are (`ClaimNotesAreTrue`).
- The three readings of "blocked" (the ready list, the board page, the claim) differ on blockers that name no task
  or a task of another goal; `BlockedReadingsAgree` says by how much.
- A worker's loop need not finish a goal: it leaves open exactly the largest stuck set, which is empty exactly when
  all open tasks wait in the backlog and their dependencies can be ranked (`DrainGoal`).
- One bad job must not kill its worker (`app/worker/queue.py:45`): true of ordinary exceptions. A processor that
  lets a cancellation through ends its worker, and that is the only way to lose one before `stop` (`QueueIsConserved`).
- Slugs compose except when the fallback word no longer fits (`SlugsCompose`), and the workspace test refuses
  everything but the root itself when the workspace is the root (`StringTestMeansPrefix`).

## Assumptions

- A statement is atomic and the database clock does not run backwards. Several rows come back in an arbitrary
  order (`IsOrder`) unless the query sorts them.
- No route sets `done`: it is an action of the environment. No route sets `in_progress` by hand either; the
  lease bound needs that (`AllRouted`), since a task started by hand has no claim time and no sweep returns it
  (`HandStartedIsNeverSwept`).
- `str.upper` is modelled over ASCII; `str.lower`, `os.path.realpath` and the token hash are parameters, of which
  only what a theorem states about them is used.
- The recursion limit lets 50 nodes execute and fails a run that is not over by then; a node's result overwrites
  the keys it names.

## Model

| member | source | states |
|---|---|---|
| TaskKeys.UpperFixed | app/store/board.py:359-361 | looking a stored key up in any case finds it: upper-casing twice is upper-casing once |
| TaskKeys.UpperIgnoresCase | app/store/board.py:359-361 | two spellings of a key are looked up as one exactly when they differ only in the case of letters |
| TaskKeys.DecimalReadsBack | app/store/board.py:346 | the text of a task number, read as a decimal, is that number, without leading zeros |
| TaskKeys.IntTextReadsBack | app/graph/builder.py:80 | the text of the cap, read back, is the cap, negative ones after a minus sign |
| TaskKeys.DecimalInjective | app/store/board.py:346 | different task numbers have different decimal texts |
| TaskKeys.LastDash | app/store/board.py:346 | the last dash of a task key is where its project key ends, whatever dashes and digits the project key holds |
| TaskKeys.TaskKeyInjective | app/store/board.py:346 | project key and number can be recovered from a task key, so task keys of different projects never coincide |
| TaskKeys.TaskKeyUpper | app/store/board.py:272-273 | a key made from a stored project key is upper-case already |
| BoardModel.RunEvolves | app/store/board.py:322-511 | over any schedule rows are never removed, their identity, files and blockers never change, notes and history only grow, finished calls stay finished |
| BoardModel.OthersKeepTasks | app/store/board.py:322-577 | only six kinds of statement write the task table |
| BoardRows.StatementExplained | app/store/board.py:346-493 | every statement does to every row exactly what it is there for, column by column (insert, claim, sweep, status, submit), and leaves every other row whole |
| BoardRows.SweepWrites | app/store/board.py:486-493 | a sweep returns each in-progress claim older than the TTL, changing only status, assignee and claim time, and keeps every other row whole |
| BoardRows.NotesExplained | app/store/board.py:433-443 | each statement adds just the note it is there for, if any: to which task, by whom, saying what |
| BoardRows.RestExplained | app/store/board.py:264-345 | time, projects, counters and goals change by their own statements alone and just as those say |
| BoardRows.RowIsItsHistory | app/store/board.py:322-493 | over every schedule a task exists exactly if it was inserted, and each column of its row is what the writes to it say: the status the last one, the assignee claims and returns, the claim time claims and sweeps, branch and pull request submits |
| BoardHistory.ClaimsSeparated | app/store/board.py:422-431 | in a history where claims are made only of unheld tasks, a return lies between two claims of one task |
| BoardHistory.ClaimCount | app/store/board.py:422-431 | in such a history claims outnumber returns by at most one, and only while somebody holds the task |
| BoardInvariants.NewNumberUnused | app/store/board.py:340-346 | the next number of a project belongs to no existing row |
| BoardInvariants.KeysNext | app/store/board.py:340-356 | every statement keeps keys unique and each number held by one row or one pending insert |
| BoardInvariants.KeysRun | app/store/board.py:340-356 | the same over every schedule from an empty board |
| BoardInvariants.StoredKeysUpper | app/store/board.py:359-361 | every stored task key is found by lookup under its own spelling |
| BoardInvariants.InsertAlwaysSucceeds | app/store/board.py:339-357 | however creations interleave, no insert meets an existing key; each adds exactly one backlog row, which lookup finds |
| BoardInvariants.HolderNext | app/store/board.py:422-493 | every statement keeps the assignee column equal to the account of the latest unreturned claim |
| BoardInvariants.HolderRun | app/store/board.py:422-493 | the same over every schedule |
| BoardInvariants.ClaimsAreExclusive | app/store/board.py:422-493 | over every schedule two claims of a task are separated by a return, claims are at most returns plus one, the assignee made the latest claim, a backlog task has none |
| BoardInvariants.HistoryIsFaithful | app/store/board.py:422-493 | the history gains a claim exactly when the compare-and-set takes a backlog row, and a return exactly when a row enters the backlog |
| BoardInvariants.LeaseNext | app/store/board.py:422-493 | every routed statement keeps the claim time of an in-progress row equal to its latest claim's, even after manual releases left a stale time behind |
| BoardInvariants.LeaseRun | app/store/board.py:422-493 | the same over every schedule |
| BoardInvariants.LeaseBound | app/store/board.py:476-494 | when a sweep completed at most `gap` ago, nothing is in progress longer than TTL plus `gap` after its latest claim; no sweep ever returned a claim younger than its TTL |
| BoardConflicts.ConflictNext | app/store/board.py:432-444 | every statement keeps: a claim past its update is in the history with its row, and a call past its overlap read reports genuine overlaps and has written exactly the notes it counts |
| BoardConflicts.ConflictRun | app/store/board.py:432-444 | the same over every schedule |
| BoardConflicts.ReadThenNoted | app/store/board.py:432-444 | a task read as overlapping is noted on both sides when the claim returns, whatever runs in between |
| BoardConflicts.ConflictsAreNoted | app/store/board.py:432-444 | over every schedule any other active task sharing a file at the overlap read is named on the claimed task, and names it, when the claim returns |
| BoardConflicts.StaysActive | app/store/board.py:447-493 | only a sweep or a status change of that task takes a task out of the active statuses |
| BoardConflicts.ReadsNext | app/store/board.py:432-443 | every statement keeps: each report under way goes back to a moment when all named tasks were active, and each conflict note to such a moment or to a client that posted it |
| BoardConflicts.RacingClaimsAreNoted | app/store/board.py:422-444 | of two claims racing on tasks that share a file, the one that reads its overlaps after the other's update leaves notes naming both on both, if no sweep and no status change of the other's task comes between |
| BoardConflicts.ConflictNotesAreTrue | app/store/board.py:433-443 | over every schedule in which no client posts a note in the words of a claim, every conflict note was true: its author had claimed the task and, at one moment, the tasks it names were other active tasks sharing a file; they still are other tasks sharing a file |
| BoardConflicts.ClaimNotesAreTrue | app/store/board.py:433-443 | over every schedule the same of every conflict note that no client posted |
| BoardConflicts.ConflictNotesAreTrueExactlyWhen | app/store/board.py:506-511 | over every schedule all conflict notes on the board were true exactly when each one a client posted was |
| BoardConflicts.ForgeriesAreStored | app/api/agent.py:88-97 | on every reachable board an account can post, in the words of a claim, that it claimed a task it never claimed; the note is stored and was never true |
| BoardBlockers.ClaimedOnlyWhenUnblocked | app/store/board.py:412-431 | if no finished task is reopened and blockers exist at the check, every successful claim update happens with all blockers done |
| BoardBlockers.ReopenedBlockerIsMissed | app/store/board.py:412-431 | a checked claim still succeeds after one of its blockers is released |
| BoardBlockers.LateBlockerIsMissed | app/store/board.py:412-431 | a checked claim still succeeds after a blocker missing at the check is created |
| BoardBlockers.DoneAfter | app/store/board.py:447-474 | a task is done after any schedule exactly when the last status statement on it finished it, or there was none and it was done before |
| BoardBlockers.ClaimIsSafeExactlyWhen | app/store/board.py:412-431 | after any gap following a passed check, all blockers are done exactly when each was last finished in the gap, or untouched there and existing at the check |
| BoardBlockers.BlockedReadingsAgree | app/store/board.py:396-421 | ready implies shown unblocked implies claimable, and the exact condition on the blockers under which each converse holds |
| BoardBlockers.BackwardNext | app/store/board.py:347-356 | creating tasks whose blockers already exist keeps all dependencies pointing to earlier tasks |
| BoardBlockers.SomeTaskIsUnblocked | app/store/board.py:396-403 | in a goal with ranked dependencies and open tasks, some open task has every blocker done |
| BoardBlockers.NeverDeadlocked | app/store/board.py:322-403 | over every schedule that creates tasks after their blockers, an unfinished goal always has an unblocked open task |
| BoardDrain.OrderAvoidsStuck | app/store/board.py:396-403 | no order of finishing ready tasks ever reaches a task of a stuck set |
| BoardDrain.RankedMeansEmpty | app/store/board.py:396-403 | open tasks that all wait in the backlog and can be ranked contain no stuck set |
| BoardDrain.DrainEnd | docs/WORKER_PROMPT.md:37-53 | when nothing is ready any more, what is left open is the largest stuck set of the start |
| BoardSubmit.SubmitNext | app/api/agent.py:104-118 | every statement keeps: at its check, a pending submitter held the task or nobody did |
| BoardInvariants.SweptLeases | app/store/board.py:486-493 | in any state keeping the lease invariant, a sweep within `gap` bounds every lease by TTL plus `gap` |
| BoardSubmit.SubmitLandsElsewhere | app/api/agent.py:107-118 | over every schedule the submit's write meets another account's task exactly when that account's claim came after the check and still stands |
| BoardScenarios.SubmitOverAnothersClaim | app/api/agent.py:107-118 | from every reachable checked submit, after a release and a claim by another account the submit still lands, and on that claim exactly when the task had no open blockers |
| BoardScenarios.HandStartedIsNeverSwept | app/store/board.py:467-491 | a never-claimed task moved to in progress by hand stays there over any schedule that neither submits it nor changes its status, and no sweep returns it |
| BoardScenarios.ClaimedInFrontOfOpenBlocker | app/store/board.py:412-431 | from an empty board, a concrete schedule leaves a task in progress with its blocker in the backlog |
| BoardScenarios.ForgedNote | app/api/agent.py:88-97 | from an empty board, a concrete schedule stores a conflict note by an account that claimed nothing, which was never true |
| BoardStoreModel.BoardStore.constructor | app/store/board.py:139-147 | a new board is the empty board |
| BoardStoreModel.BoardStore.Perform | app/store/board.py:264-577 | every statement of every call is carried out in place on the tables as the protocol step it names, hand-posted notes of any kind and text included |
| BoardStoreModel.BoardStore.Interleave | app/store/board.py:580-590 | running any schedule on the tables gives the protocol's run and keeps the key, holder, conflict and submit invariants, and the lease invariant if the schedule is routed |
| BoardStoreModel.BoardStore.OverlapsOf | app/store/board.py:553-561 | lists exactly the other active tasks sharing a file, once each |
| BoardStoreModel.BoardStore.ClaimTask | app/store/board.py:406-445 | with anybody running between its statements a claim ends; a grant is in the history, the report lists exactly the overlaps at the moment of the read, and each is noted on both tasks; uninterrupted, it grants exactly the claimable tasks and changes that row alone |
| BoardStoreModel.BoardStore.CreateTask | app/store/board.py:322-357 | with anybody running between its statements it fails only on an unknown goal and otherwise adds a row under a new key that lookup finds, with the given priority and files and every blocker in the spelling of lookup, so a task named in any case holds it up while unfinished; uninterrupted the key is the project's with the next number and nothing else changes |
| BoardStoreModel.BoardStore.ReleaseStaleClaims | app/store/board.py:476-504 | returns exactly the claims older than the TTL in one update and notes each, with anybody running in between; uninterrupted, only their status, assignee and claim time change and every other row stays whole; a negative TTL or a failing update changes nothing, and a failure after it leaves the claims returned and the notes so far |
| BoardStoreModel.BoardStore.ListWork | app/store/board.py:382-404 | splits the goal's backlog, best first, by the tasks finished at the second read; a task listed ready and still in the backlog is ready |
| BoardStoreModel.BoardStore.SelectBacklog | app/store/board.py:390-395 | the backlog of a goal, sorted by falling priority and then by creation |
| BoardStoreModel.BoardStore.DrainGoal | docs/WORKER_PROMPT.md:37-53 | whatever state the goal is in, the list, claim, finish loop ends and leaves open exactly the largest set of tasks that are out of the backlog or wait for something unfinished that is missing, foreign or in the set; nothing is left exactly when all open tasks were in the backlog and can be ranked; the rest is untouched |
| BoardStoreModel.BoardStore.Sweeper | app/main.py:70-81 | the sweep loop, with others running between all statements and sweeps failing at any of them, keeps its latest completed update within one round of the failures since, hence no task in progress longer than the TTL and those rounds after its claim |
| BoardStoreModel.BoardStore.SubmitDiff | app/api/agent.py:100-120 | the outcome and the whole state after it in every case: unknown task, other assignee, missing project (never on a reachable board), patch refused with its note, unexpected error, and the delivered diff, which is always written, whoever holds the task by then |
| BoardPage.ClashingKeys | app/web/board.html:130-133 | the pair loop collects exactly the keys that occur in some clashing pair |
| BoardPage.ConflictSet | app/web/board.html:127-135 | the page marks exactly the tasks that, claimed, in progress or in review, share a file with another such task, which are the active tasks for which the store would report an overlap |
| Accounts.TableNext | app/store/board.py:150-261 | every operation keeps: a row holds the hash of the token its last accepted creation or rotation drew, and whether a revocation followed |
| Accounts.TokenAuthenticates | app/store/board.py:168-176 | over any sequence of operations a token authenticates an account exactly when the last accepted creation or rotation of that account drew it and no revocation of it followed |
| Accounts.TokensIdentify | app/store/board.py:168-176 | with draws that never repeat, no token authenticates two accounts |
| Accounts.AccountStore.Create | app/store/board.py:150-166 | the insert is the operation whose runs are characterised above; refused, and reported, exactly for an unknown role or a taken name; afterwards the token authenticates the new account |
| Accounts.AccountStore.Rotate | app/store/board.py:249-261 | the update is that operation; afterwards the new token and no other authenticates a known account; unknown accounts are reported |
| Accounts.AccountStore.RevokeOne | app/store/board.py:236-247 | the update is that operation; afterwards no token authenticates the account, and for others nothing changed; unknown accounts are reported |
| Accounts.AccountStore.AccountByToken | app/store/board.py:168-176 | finds an authenticated account exactly when there is one |
| Orchestration.RunInvStep | app/graph/builder.py:73-174 | every node execution keeps: iterations counts coder rounds, the passed flag says that the latest work was an approving review, and the cap's consequences |
| Orchestration.RunInvExec | app/graph/builder.py:73-174 | the same after any number of node executions, for every oracle, including a routing model that returns nothing |
| RunTrace.TraceStep | app/graph/builder.py:73-147 | every node execution keeps: the visits are what the replies call for, and the state is what the visits say |
| RunTrace.RunIsItsTrace | app/graph/builder.py:73-274 | for every oracle each visit is what the cap, the router, the fallback rule, the coder or the reviewer calls for after the visits before it, and plan, decision, reports, verdict, iterations, status, error, pull request, point reached and blame for a crash are read off the visits |
| Orchestration.ReadyPullRequests | app/graph/builder.py:240-258 | at most one pull request; it is ready for review exactly when human approval is off and the latest coder or reviewer work was a review whose last verdict approved |
| Orchestration.IterationCap | app/graph/builder.py:73-108 | for every oracle coder rounds stay within the cap, the coder is entered only below it, the capping round is never reviewed, and the run then finalizes with at most a draft |
| Orchestration.LeftDecreases | app/graph/builder.py:160-174 | the measure on remaining rounds and reviews falls at every node execution |
| Orchestration.RunsAreBounded | app/graph/builder.py:73-174 | with at most r reviews in a row a run is over after 2M(r+1)+2 node executions |
| Orchestration.FallbackStep | app/agents/orchestrator.py:54-63 | under the fallback rule every node execution uses up the measure, if no review rejects silently |
| Orchestration.FallbackRunsAreBounded | app/agents/orchestrator.py:54-63 | then a run is over after 4M node executions |
| Orchestration.FallbackFitsRecursionLimit | app/worker/runner.py:97-102 | then, for up to 12 rounds, the run is over after 48 node executions, within the recursion limit of 50 |
| Orchestration.RejectedRunsUseTheBound | app/agents/orchestrator.py:54-63 | the bound is met exactly: with every review an explained rejection the run is at finalize after 4M-1 executions |
| Orchestration.RejectedRunsEndInADraft | app/graph/builder.py:244-258 | and is over after one more, having opened at most a draft |
| Orchestration.RunsEndExactlyWhenReviewsAreBounded | app/graph/builder.py:73-82 | a run ends without the recursion limit exactly when the reviews in a row are bounded |
| Orchestration.OneRound | app/graph/builder.py:73-129 | an orchestrator and a worker execution lead to the next between-rounds state or end the run, exactly as their replies say |
| Orchestration.RunsEndExactlyWhenRepliesStop | app/worker/runner.py:97-102 | after 2m node executions a run is over exactly when the replies of one of its first m rounds do not let it go on; m = 25 decides which runs meet the recursion limit |
| Orchestration.RunsEndExactlyWhen | app/graph/builder.py:73-174 | for every oracle a run ends by itself exactly when, read off the replies alone, the router asks to finish or gives nothing, the worker it asks for raises, or the coder rounds asked for reach the cap |
| Orchestration.DecidedRunsEndExactlyWhen | app/graph/builder.py:73-174 | for a router that always decides, the same with the coder rounds counted from its decisions |
| Orchestration.OnlyReviewsNeverEnd | app/graph/builder.py:73-82 | a router that asks only for reviews never lets the run end, whatever the cap |
| Orchestration.SilentRejectionsNeverEnd | app/agents/orchestrator.py:57-63 | nor does the fallback rule when reviews reject without a summary and two rounds are allowed |
| RunRegistry.VerdictHolder.constructor | app/agents/reviewer.py:21-26 | a fresh holder carries no verdict |
| RunRegistry.VerdictHolder.SubmitReview | app/agents/reviewer.py:37-51 | a review call replaces the verdict |
| RunRegistry.ReviewNode | app/graph/builder.py:110-129 | a review's outcome depends on its own calls alone, of which the last counts |
| RunRegistry.RunStore.Create | app/store/runs.py:64-87 | registers a run with its identity column by column, or restarts just status and branch of a known one, and touches no other row |
| RunRegistry.RunStore.Update | app/store/runs.py:89-97 | overlays the updatable columns of one known run; its six identity columns, columns not given and other rows stay |
| RunRegistry.KeysStay | app/graph/builder.py:73-147 | a node execution removes no key from the state |
| RunRegistry.OverlayTwice | app/store/runs.py:89-97 | a partial update covered by a later one leaves no trace |
| RunRegistry.MirrorIsLastState | app/worker/runner.py:105-109 | mirroring all streamed states in turn equals mirroring the last one alone |
| RunRegistry.RegistryShowsState | app/worker/runner.py:137-152 | at every point of a run each column of the row shows the latest state (status, phase, iterations, review outcome, pull request, and texts whole up to 8000 characters, else their first 8000 with the mark); a state with nothing to say leaves its column, and identity and branch stay |
| RunRegistry.Stream | app/worker/runner.py:104-109 | the streaming loop stops when the run is over or at the limit, with the row showing the last state |
| RunRegistry.TerminalStatus | app/worker/runner.py:111-121 | at whatever point a run ends, raises or is cut off: its row is aborted, with the recorded reason, exactly when its last routing was to abort; needs_human exactly when that was to finalize and there were no commits; completed, with the pull request, exactly when one was opened; failed, with the message cut to 8000 characters, exactly when the run did not end by itself; all other columns show the last state |
| RunRegistry.ProcessJob | app/worker/runner.py:48-121 | a row starting as registered, under the branch made of issue number and title, ends with the terminal status stated above after at most 50 node executions, or failed if preparation failed; other rows are untouched |
| JobQueueModel.ConservedNext | app/worker/queue.py:34-54 | every event keeps each job in one place, the starting order, and the unfinished count |
| JobQueueModel.AccountedNext | app/worker/queue.py:38-48 | every event keeps the account of workers: alive, or lost to an interrupted job or a cancellation |
| JobQueueModel.QueueIsConserved | app/worker/queue.py:20-54 | over every schedule no job is lost or duplicated, jobs start in order, no more are in flight than workers were started; without outside cancellations exactly as many workers are lost as jobs let a cancellation through, so ordinary failures lose none |
| JobQueueModel.AtMostLimitInFlight | app/worker/queue.py:24-31 | over every schedule that starts the queue once, at most max(1, limit) jobs are in flight |
| JobQueueModel.JobQueue.constructor | app/worker/queue.py:21-25 | an empty queue without workers, its concurrency at least one |
| JobQueueModel.JobQueue.Start | app/worker/queue.py:27-32 | spawns max(1, concurrency) waiting workers; a second start adds as many and forgets the first |
| JobQueueModel.JobQueue.Enqueue | app/worker/queue.py:34-36 | the put is the queue protocol's |
| JobQueueModel.JobQueue.Take | app/worker/queue.py:38-42 | a waiting worker receives the oldest job |
| JobQueueModel.JobQueue.Complete | app/worker/queue.py:41-48 | a job ends and is counted; its worker waits again after a return or an ordinary exception, and exits after a cancellation |
| JobQueueModel.JobQueue.Interrupt | app/worker/queue.py:38-48 | a cancellation ends a waiting worker at once and a busy one with its job, which is counted |
| JobQueueModel.JobQueue.StopAll | app/worker/queue.py:50-54 | cancels the workers of the latest start in order; if that was the only start nothing is left in flight and only queued jobs stay unfinished |
| WorkspacePaths.NormPathIdempotent | app/tools/workspace.py:23 | normalising an absolute path twice is normalising it once |
| WorkspacePaths.ReadBack | app/tools/workspace.py:23 | a path written from normal components reads back as them |
| WorkspacePaths.StringTestMeansPrefix | app/tools/workspace.py:25-27 | the string test means that the components extend the workspace's, so sibling names sharing a prefix are refused |
| WorkspacePaths.NothingEscapes | app/tools/workspace.py:16-29 | with any symbolic links a path is accepted exactly when the file it resolves to lies in the workspace, as the place it names: the workspace less what the path climbs above its start, then its own names read from the end |
| WorkspacePaths.AcceptedExactlyWhen | app/tools/workspace.py:21-29 | without symbolic links a path is accepted exactly if its own names begin with the workspace components it climbed over |
| WorkspacePaths.BackAndForth | app/tools/workspace.py:23 | going into a directory and back is going nowhere, whatever symbolic links there are |
| WorkspacePaths.FoldIsBack | app/tools/workspace.py:23 | normalising from the front and reading from the end, each `..` paid by the name before it, agree |
| WorkspacePaths.TraversalIsRefused | tests/test_workspace.py:18-21 | `../../etc/passwd` is refused in every workspace but those whose last components are those names |
| WorkspacePaths.AbsoluteIsRelative | tests/test_workspace.py:24-34 | `/etc/passwd` is read below the workspace and `.` is the workspace |
| WorkspacePaths.ModestPathsAreAccepted | app/tools/workspace.py:22-29 | without symbolic links a path that never climbs above its start is accepted, as workspace followed by its own names read from the end; leading slashes make no difference |
| Slugs.SlugIsCanonical | app/worker/runner.py:30-32 | a slug is words of a-z and 0-9 with single inner dashes, never empty, within the cap where the fallback fits |
| Slugs.SlugKeeps | app/worker/runner.py:30-32 | a slug is the runs of letters and digits of the lower-cased text, hyphenated: all of it if it fits, else cut to the length less a hyphen at the cut, and `task` if that is nothing |
| Slugs.CutTwice | app/services/submit.py:25 | cutting a slug twice is cutting it once at the shorter length |
| Slugs.SlugsCompose | app/services/submit.py:23-25 | slugging a slug at a shorter length is slugging the text at it, exactly except where the fallback word is cut |
| Slugs.BranchSlugsAgree | app/worker/runner.py:30-32 | the 36- and 40-character slugs of a title agree, and each is its own slug |

## Left out

- The effects of git, GitHub, Slack and the sandbox: they appear as success or failure of an oracle.
- Prompts, the model factory and the inner agents: arbitrary oracles.
- HTTP and MCP routing, schemas, roles and memberships, webhook signatures, configuration, logging, retries: one-branch decisions or library calls.
- The activity feed, `updated_at`, titles, descriptions, labels, acceptance texts and goal notes: columns that no modelled decision reads.
- Accounts.AccountStore.Create: leaves out the columns kind and scope, which no lookup reads.
- BoardStoreModel.BoardStore.DrainGoal: one worker, uninterrupted, on a board whose keys are spelled as stored; finishing stands for the submit, the review and the environment's `done`.
- BoardStoreModel.BoardStore.InsertGoal: takes the project's id; the separate read of the project by its key is not a step, projects never being removed.
- BoardStoreModel.BoardStore.InsertNote: finds the task and adds the note in one step, tasks never being removed.
- RunRegistry.ProcessJob: a failing registry write and the cancellation of the worker are not modelled; either can leave a row at running.
- JobQueueModel.JobQueue.StopAll: cancellations reach the workers one after the other, and a processor does not swallow one.
- WorkspacePaths.NothingEscapes: the file system does not change between the check and the use of the path.
- Checkpoint resumption: a run starts from its initial state.
- Deleting accounts, projects or tasks: no code path of the board does.
