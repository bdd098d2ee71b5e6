# EdgeCoder coordinator: a verified model

This project models the stateful components of EdgeCoder's swarm coordinator in Dafny 4.11
and proves what they guarantee over whole runs: scheduling, escrow, append-only chains,
replay caches, sliding windows, a session state machine, and the encodings and arithmetic
they rest on. `dafny verify dfyconfig.toml` checks everything.

Each component has the same shape. A state and its steps are values and functions (or a
step relation where the source makes a choice); the source's objects are classes whose
methods are proved to take exactly those steps; and the theorems are about every run of
steps. A run theorem compares the component with something independent of its code: a full
history that is never pruned, a graph property, a conservation law, an inverse, or an
optimum over all reals. What a queue, a session or a record holds is also told a second time,
from the operations alone (`QueueFollowsHistory`, `TasksFollowHistory`, `SessionsMove`), and
texts are read back by a reader of their own (`StringifyReads`, `TextNamesFields`).

| file | component |
|---|---|
| SubtaskGraph, SubtaskRelease | dependency cycles, hold and release, deadlock freedom, the drawing of ids |
| SubtaskSharing | one tracker under interleaved submissions |
| SwarmQueue | fair-share claims, conservation of subtasks, k-bounded fairness |
| RobotQueue | escrow, settlement, sweeping of earnings |
| Json, OrderingChain | record serialisation, the signed hash chain and its verifier |
| WeightedMedian, Sorting | the consensus median |
| NonceVerifier, RateLimiter, MeshProtocol | bounded memories against an unbounded log |
| SlidingWindow, BehaviorTracker, AutoBlacklister | pruned event windows and strikes |
| Handshake | session phases, the per-agent index and cap, late cloud replies |
| ReleaseIntegrity | the directory-tree hash |
| StreamingPull | newline-delimited JSON read from chunks |
| Issuance, DnsLabel | rounding and allocation, host labels |
| Prelude | sums, counts and sequences used by the others |

## Conventions

- `Date.now()` is a parameter of each step, in whole milliseconds; run theorems assume that
  it never goes back where they need that, and say so.
- `randomUUID()` is a parameter that was not used before; `Math.sqrt` is a parameter.
- SHA-256 is a parameter: any function on strings, with results of 64 characters in
  ReleaseIntegrity. No collision-freeness is assumed of it in general; where a theorem
  concludes from equal digests, it says which finite set of hashed texts must not collide.
  Signing and verifying are a parameter pair that match.
- A JavaScript `Map` or `Set` is a sequence in insertion order where order matters, and a
  map or set otherwise. An object changed in place inside a list is a value replaced in a
  field.
- JavaScript numbers are reals, or integers where the source counts, times or holds sats.
  `toFixed(6)` is defined exactly (nearest, ties to the larger absolute value, no rounding
  from 1e21 on).
- The falsy cases are modelled where the source tests truthiness: an empty agent id does not
  claim a task, a claim time of 0 never goes stale, a claim delay of 0 is no delay, an empty
  model name matches nothing, an empty message id is never dropped from the seen cache.
- A synchronous stretch of a handler is one step; `verifyNonce`, which awaits the store
  between lookup and insertion, is two.
- A report of a finished subtask may name any id: `/result` (src/swarm/coordinator.ts:1598-1608
  and 2150) does not check that it was enqueued, or exists.

Where a promise does not hold for every input, the exact condition is proved:

- A held subtask is pending exactly until each of its dependencies has been reported. Every
  run that completes what it enqueues, whatever else it reports, drains a submission if and
  only if held subtasks depend only on subtasks of the same submission. Circular submissions
  are covered: the coordinator enqueues the ids on a cycle at once, and holds the rest.
- On the shared tracker, once everything enqueued has completed, nothing is held if and only
  if nothing held is ready, everybody waits for ids that were submitted or reported, and the
  waits of all submissions together have no cycle that no early report (of an id that was not
  enqueued) breaks. Each condition is needed, and runs show what happens without it: `hold`
  does not look at the completed outputs, so a subtask whose dependencies completed before it
  was submitted waits for the next report, whatever that reports; an id that nobody submits
  keeps its dependents; and two submissions can wait for each other, because
  `detectCircularDeps` looks at one submission at a time.
- If nobody waits for an id that is submitted later, the condition on cycles holds by itself.
  Ids as the coordinator draws them are of this kind.
- A comment in src/swarm/coordinator.ts (line 1932) says that ids are assigned so that
  `dependsOn` references resolve. The code draws them after `dependsOn` is fixed and does not
  rewrite it, and the model follows the code: no drawn id is circular, a subtask with
  dependencies waits for ids outside its submission and is not released by reports of its own
  submission's subtasks, and a submission drains if and only if none of its subtasks has
  dependencies.
- Fair share over every run: with at most k claims at a time, a project is ahead of another by
  at most k and the number of steps that served it around fair share, which are claims from a
  pool without the other project (src/swarm/queue.ts:102-106) and completions of tasks that
  are not claimed (src/swarm/queue.ts:133-142, called without a look at the claim in
  src/swarm/coordinator.ts:2142-2143). So it is k-bounded if every claim is made from a pool
  that holds a task of the other project and every completion is of a claimed task, and k is
  attained. Without either condition there is no bound, even with one claim at a time: for
  every n some run finishes n tasks of one project and none of another, because claims match
  models while the other project could have been claimed, or because results come in after
  their tasks were requeued.
- The fee split returns the whole amount if and only if `amount * (feeBps - 10000) < 10000`;
  the books hold for all amounts and fee rates.
- Marking an agent swept moves what was paid if and only if the agent earned nothing between
  the payout list and the mark; otherwise it moves the new rewards as well. For all amounts
  paid and settled meanwhile there is a run from the empty queue that does so.
- Whatever limits the calls of `verifyNonce` choose from, in runs where no lookup of a nonce
  falls between an accepted lookup and its insertion a (nonce, timestamp) pair is accepted at
  most once if and only if, for any two choices, the time to live of the first is at least the
  sum of both skews (or a skew is negative, so that nothing is accepted). For fixed limits the
  time to live must be at least twice the skew. Under such limits, with one timestamp for each
  nonce, a pair is accepted twice if and only if some lookup does fall in between: any number
  of calls that look up before the first of them inserts are all accepted.
- Sessions stay listed under their agent if and only if a session that is stored again keeps
  its agent; the server's own calls do.
- The seen cache keeps to its 5000 ids if and only if no empty id has become the oldest one.
  An empty id can be received (src/swarm/coordinator.ts:2888 asks for any string), and then
  the cache grows without bound: for every n, n messages leave n ids in it.

## Model

| member | source | states |
|---|---|---|
| SubtaskGraph.ReachesSelf | src/swarm/subtask-deps.ts:53-73 | the stack-based search answers true exactly when a walk of one or more dependency edges leads from the start back to itself; it terminates because unvisited ids or the stack shrink |
| SubtaskGraph.DetectCircularDeps | src/swarm/subtask-deps.ts:34-76 | the result is exactly the ids on a dependency cycle or listing themselves, for any input, repeated ids included (the last occurrence gives the dependencies) |
| SubtaskGraph.ClosedSetBlocks | src/swarm/subtask-deps.ts:55-69 | a visited set closed under dependencies that misses the start separates the start from itself: completeness of the search |
| SubtaskGraph.DistinctIdsGiveCycles | src/swarm/subtask-deps.ts:30-33 | for distinct ids the answer is precisely cycle membership |
| SubtaskGraph.EveryoneWaitsMeansCycle | src/swarm/subtask-deps.ts:30-33 | in a non-empty set where every member depends on a member, one is on a cycle |
| SubtaskRelease.SubtaskDepTracker.BuildDependencyContext | src/swarm/subtask-deps.ts:82-92 | the context text lists the completed dependencies in order, numbered by position, or is empty |
| SubtaskRelease.MetContextIsComplete | src/swarm/subtask-deps.ts:107-114 | at release every dependency contributes exactly its own line |
| SubtaskRelease.SubtaskDepTracker.ReleaseMet | src/swarm/subtask-deps.ts:105-120 | deleting while walking leaves exactly the unmet entries, in order, and hands on exactly the met ones, enriched, in order |
| SubtaskRelease.SubtaskDepTracker.RecordCompletionAndRelease | src/swarm/subtask-deps.ts:98-121 | the output is stored first, then the met entries leave the pending map |
| SubtaskRelease.SubtaskDepTracker.Hold | src/swarm/subtask-deps.ts:126-128 | an existing key keeps its place and takes the new entry; a new key goes last |
| SubtaskRelease.Schedule | src/swarm/coordinator.ts:1946-1976 | circular ids are exactly those on a cycle; subtasks with dependencies that are not circular are held, all others created at once, in order |
| SubtaskRelease.HeldExactly | src/swarm/coordinator.ts:1963-1970 | the held entries are the subtasks that name dependencies and are not circular, as submitted, in order, with the claim delay |
| SubtaskRelease.CreatedExactly | src/swarm/coordinator.ts:1971-1976 | the created subtasks are all others, as submitted, in order |
| SubtaskRelease.ScheduleDrafts | src/swarm/coordinator.ts:1906-1976 | from the decomposition on, with ids drawn afterwards: exactly the drafts with dependencies are held, the others created at once |
| SubtaskRelease.NothingCircular | src/swarm/coordinator.ts:1932-1946 | ids drawn after the dependencies were fixed are never circular |
| SubtaskRelease.RunInvariant | src/swarm/subtask-deps.ts:98-121 | over every run of reports, of any ids: pending and enqueued ids together are the submission, nothing pending is ready, nothing circular is pending |
| SubtaskRelease.ReleasedExactlyOnce | src/swarm/subtask-deps.ts:98-121 | after every run of reports, of any ids, each submitted id is pending or enqueued exactly once, and a held one is enqueued only after all its dependencies were reported |
| SubtaskRelease.NoDeadlock | src/swarm/subtask-deps.ts:98-128 | for dependencies inside the submission, whenever something is held some enqueued subtask is still to be completed, whatever was reported, cycles in the submission or not |
| SubtaskRelease.FinishRun | src/swarm/subtask-deps.ts:98-121 | from every reachable state some run that reports only enqueued subtasks completes everything it enqueues |
| SubtaskRelease.HeldExactlyUntilReported | src/swarm/subtask-deps.ts:105-118 | after every run of reports, of any ids, a held subtask is pending if and only if some dependency, inside the submission or not, has not been reported |
| SubtaskRelease.DrainsExactlyWhenClosed | src/swarm/subtask-deps.ts:34-128 | every run that completes all it enqueues, whatever else it reports, ends with nothing held, if and only if held subtasks depend only on the submission |
| SubtaskRelease.ReleasedWithContext | src/swarm/subtask-deps.ts:105-118 | over every run of reports, each item handed on belongs to a held subtask whose last missing dependency was just reported; it keeps id, task and claim delay, and its input is the submitted one behind one numbered line for each dependency, in order, with the output last reported for it |
| SubtaskRelease.DispatchedAreReleased | src/swarm/subtask-deps.ts:104-120 | the log of enqueued ids grows by exactly the items handed on, in order |
| SubtaskRelease.DraftsWithDependenciesStayHeld | src/swarm/coordinator.ts:1932-1970 | with drawn ids, a draft with dependencies is held exactly until each of them is reported, and reports of its own submission never release it |
| SubtaskRelease.DrawnDrainsExactly | src/swarm/coordinator.ts:1932-1976 | a submission with drawn ids drains if and only if none of its drafts has dependencies |
| SubtaskSharing.SharedRunInvariant | src/swarm/coordinator.ts:1946-2154 | under every interleaving of submissions and reports of any ids: each submitted id is pending or enqueued exactly once with the dependencies of its submission, an enqueued one is circular or has its dependencies reported, and a reported id was enqueued or is an early report |
| SubtaskSharing.StuckMeansCycle | src/swarm/subtask-deps.ts:98-128 | with nothing running, nothing held ready and all waits for known ids, whatever is held waits for a cycle of waits |
| SubtaskSharing.SharedHeldUntilReported | src/swarm/subtask-deps.ts:105-118 | in every run a subtask that is not circular is pending as long as one of its dependencies, submitted or not, has not been reported, and exactly so long when nothing held is ready |
| SubtaskSharing.SharedDrainsExactly | src/swarm/coordinator.ts:1946-2154 | on the shared tracker, for every interleaving and any reports, once all enqueued subtasks completed: nothing is held if and only if nothing held is ready, everybody waits for submitted or reported ids, and the waits of all submissions have no cycle unbroken by early reports |
| SubtaskSharing.CycleNeverEnqueued | src/swarm/subtask-deps.ts:98-121 | whoever is on a cycle of waits, within a submission or across, that no early report breaks is never enqueued |
| SubtaskSharing.ReportedRunsDrainExactly | src/swarm/subtask-deps.ts:98-121 | a run that ends with a report drains if and only if everybody waits for submitted or reported ids and no unbroken cycle of waits is left |
| SubtaskSharing.TimelyIsAcyclic | src/swarm/subtask-deps.ts:34-76 | if nobody waits for later ids, checking one submission at a time leaves no cycle of waits anywhere |
| SubtaskSharing.TimelyRunsDrainExactly | src/swarm/coordinator.ts:1946-2154 | if nobody waits for later ids: nothing is held if and only if nothing held is ready and everybody waits for submitted or reported ids |
| SubtaskSharing.ClosedSubmissionsDrain | src/swarm/subtask-deps.ts:34-128 | submissions that depend only on themselves drain whatever the interleaving and whatever else is reported, if no id is reported before it is submitted |
| SubtaskSharing.DrawnIdsAreTimely | src/swarm/coordinator.ts:1932-1943 | as ids are drawn, nobody waits for a later id, and whoever waits for a submitted id waits for an earlier submission |
| SubtaskSharing.DrawnRunsDrainExactly | src/swarm/coordinator.ts:1932-2154 | with ids as the coordinator draws them: nothing is held if and only if nothing held is ready and everybody waits for submitted or reported ids |
| SubtaskSharing.CrossCycleStays | src/swarm/subtask-deps.ts:34-76 | two submissions that wait for each other stay held, with nothing ready and all ids submitted |
| SubtaskSharing.UnknownStays | src/swarm/subtask-deps.ts:105-118 | a submission that waits for an id nobody submits stays held, with nothing ready and no cycle |
| SubtaskSharing.LateDependentWaits | src/swarm/subtask-deps.ts:126-128 | after every run that completed a subtask, a new one that depends on it alone is held although it is ready |
| SubtaskSharing.LateDependentStays | src/swarm/subtask-deps.ts:126-128 | a run from the idle tracker: a subtask completes, its dependent is submitted afterwards and stays held, with all ids submitted and no cycle |
| SubtaskSharing.AnyReportReleasesReady | src/swarm/subtask-deps.ts:105-120 | a subtask that is ready but held goes out with the next report, whatever it reports |
| SwarmQueue.BestOf | src/swarm/queue.ts:109-123 | the scan returns the earliest pool element that no other beats in (completed count ascending, priority descending) |
| SwarmQueue.PoolFor | src/swarm/queue.ts:97-106 | the pool is the free tasks that ask for the agent's model, or all free ones if none does; free means claimed by nobody with a name and past the earliest claim time; empty only if nothing is free |
| SwarmQueue.ChoiceIsUnique | src/swarm/queue.ts:109-123 | the claimed task is determined by the queue, the model and the time |
| SwarmQueue.Queue.EnqueueSubtask | src/swarm/queue.ts:73-83 | a known id is ignored; otherwise the subtask is appended unclaimed with its claim delay |
| SwarmQueue.Queue.MarkRemoteClaimed | src/swarm/queue.ts:86-93 | exactly an unclaimed task with the id is removed |
| SwarmQueue.Queue.ClaimTask | src/swarm/queue.ts:95-131 | the best pool element is marked as claimed and counted for the agent; nothing else changes |
| SwarmQueue.Queue.CompleteTask | src/swarm/queue.ts:133-142 | the result is recorded; a queued task leaves and its project's count rises by one |
| SwarmQueue.Queue.RequeueTask | src/swarm/queue.ts:150-156 | the claim of the task is cleared |
| SwarmQueue.Queue.RequeueStaleTasks | src/swarm/queue.ts:158-169 | exactly the stale claims are cleared, and counted |
| SwarmQueue.HandsOutOnlyClaimable | src/swarm/queue.ts:95-131 | in every run only free tasks of the pool are handed out, the best there, and they are claimed afterwards |
| SwarmQueue.RunConserves | src/swarm/queue.ts:73-142 | in every run ids stay unique, and the accepted subtasks are exactly those queued, taken remotely and finished |
| SwarmQueue.RunCounts | src/swarm/queue.ts:133-142 | each project's completed count is the number of its finished subtasks |
| SwarmQueue.RunRecords | src/swarm/queue.ts:125-134 | claim counts are the tasks handed to each agent, and the results are those passed in, in order |
| SwarmQueue.QueueFollowsHistory | src/swarm/queue.ts:73-169 | in every run the queue holds exactly the subtasks that operations and events say are queued, each with the claim, claim time and earliest claim time they give it |
| SwarmQueue.ClaimsFollowHistory | src/swarm/queue.ts:95-131 | from operations and events alone: a claim hands out only a queued task that is free, and hands out nothing only if every queued task is claimed or within its delay |
| SwarmQueue.EventsFollowHistory | src/swarm/queue.ts:73-142 | from operations and events alone: a subtask is accepted unless its id is queued, a peer takes only what nobody has claimed, and whatever is queued can be finished |
| SwarmQueue.DelayIsKept | src/swarm/queue.ts:79-100 | a task is not handed out before the time of its last acceptance plus the claim delay it was enqueued with |
| SwarmQueue.HandsOutFairly | src/swarm/queue.ts:108-123 | from operations and events alone: no free task of the pool belongs to a project with fewer finished tasks, or with as many and a higher priority |
| SwarmQueue.LoadOfClaim | src/swarm/queue.ts:95-131 | a claim from a pool that holds a task of q raises the load only of a project that is not ahead of q; any other claim raises it by at most one |
| SwarmQueue.LoadOfQuietStep | src/swarm/queue.ts:73-169 | no other step raises a project's completed plus running tasks, except that completing an unclaimed task raises them by one |
| SwarmQueue.FairnessAccount | src/swarm/queue.ts:73-169 | for every run with at most k claims at a time: a project is ahead of another by at most k plus the number of steps that served it from a pool without the other or completed an unclaimed task of it |
| SwarmQueue.KBoundedFairness | src/swarm/queue.ts:73-169 | with at most k claims at a time, if every claim is made from a pool that holds a task of q and every completion is of a claimed task, no project's completed and running tasks exceed the completed tasks of q by more than k, across requeues and remote claims |
| SwarmQueue.FairnessBoundAttained | src/swarm/queue.ts:95-131 | the bound cannot be lowered: for every k a run that meets both conditions reaches a difference of exactly k |
| SwarmQueue.ModelPoolStarves | src/swarm/queue.ts:102-106 | without the condition on claims the difference is unbounded: one task at a time, prompt completions, q always claimable, n tasks of p finished and none of q |
| SwarmQueue.LateResultsStarve | src/swarm/queue.ts:133-169 | without the condition on completions the difference is unbounded: one task at a time, q in the pool of every claim, every finished task handed out before, n tasks of p finished and none of q |
| RobotQueue.SplitIsExact | src/swarm/coordinator-utils.ts:88-92 | fee and net make up the amount if and only if amount * (feeBps - 10000) < 10000 |
| RobotQueue.SplitIsFloor | src/swarm/coordinator-utils.ts:88-92 | the fee is amount * feeBps / 10000 rounded down, and the reward is the rest but at least 0 |
| RobotQueue.Queue.RegisterAgent | src/swarm/robot-queue.ts:25-44 | an address is required; registering again keeps the counts |
| RobotQueue.Queue.Heartbeat | src/swarm/robot-queue.ts:50-53 | only the last-seen time of a known agent changes |
| RobotQueue.Queue.CreateTask | src/swarm/robot-queue.ts:55-86 | a task awaiting funding is appended with the split amounts |
| RobotQueue.Queue.MarkFunded | src/swarm/robot-queue.ts:92-98 | the error of the first failing check with nothing changed, or the funded task |
| RobotQueue.Queue.ClaimTask | src/swarm/robot-queue.ts:100-113 | refused unless funded, registered and capable of every requirement, in that order |
| RobotQueue.Queue.SubmitProof | src/swarm/robot-queue.ts:127-136 | only the claiming agent moves the task to proof_submitted |
| RobotQueue.Queue.SettleTask | src/swarm/robot-queue.ts:138-156 | one accrued entry for the claiming agent with the task's reward, and one more success |
| RobotQueue.Queue.DisputeTask | src/swarm/robot-queue.ts:158-165 | only a submitted proof can be disputed |
| RobotQueue.Queue.ExpireStale | src/swarm/robot-queue.ts:167-181 | exactly the timed-out claims expire, each is counted and charged to its agent |
| RobotQueue.Queue.ExpireOne | src/swarm/robot-queue.ts:170-179 | one position of the sweep |
| RobotQueue.TotalsByAgent | src/swarm/robot-queue.ts:188-192 | per agent the exact accrued total, listed once in order of first appearance |
| RobotQueue.Queue.PendingSweepPayouts | src/swarm/robot-queue.ts:187-201 | one payout for each registered agent with accrued entries that reach the minimum, for exactly its accrued total |
| RobotQueue.Queue.MarkSwept | src/swarm/robot-queue.ts:203-210 | exactly the accrued entries of the agent become swept |
| RobotQueue.RefusedOrMoved | src/swarm/robot-queue.ts:92-165 | an operation on a task is refused and changes nothing, or moves it one step; settled, disputed and expired tasks are refused everything |
| RobotQueue.RunKeepsBooks | src/swarm/robot-queue.ts:25-210 | every operation, in any order, keeps the books of every task and every agent |
| RobotQueue.SatsConserved | src/swarm/robot-queue.ts:25-210 | in every run from the empty queue, for all amounts and fee rates: the fee is the rate's share of the escrow rounded down, the reward is the rest but at least 0, reward + fee = escrow if and only if escrow * (feeBps - 10000) < 10000, exactly one earnings entry for each settled task and none for others, accrued + swept = settled rewards for every agent, success and failure counts = settled and expired tasks |
| RobotQueue.AgentsFollowHistory | src/swarm/robot-queue.ts:25-53 | in every run an agent's record is what it last registered with, and when it was last heard of |
| RobotQueue.TasksFollowHistory | src/swarm/robot-queue.ts:55-181 | in every run the queue holds exactly the tasks created, each as the operations say: amounts, funding, a claim by an agent whose last registration has every capability asked for, proof, settlement, dispute, and expiry of claims older than the timeout |
| RobotQueue.EarningsFollowHistory | src/swarm/robot-queue.ts:138-210 | in every run the earnings are one entry for each settlement, in order, swept by the first mark of its agent after it |
| RobotQueue.RefusalsExactly | src/swarm/robot-queue.ts:92-165 | each reason of a refusal, in terms of the task and the agent alone |
| RobotQueue.MarkSweptMoves | src/swarm/robot-queue.ts:203-210 | sweeping moves all an agent has accrued and nothing of anyone else |
| RobotQueue.SweepMovesWhatWasPaid | src/swarm/robot-queue.ts:187-210 | the amount moved is the amount paid plus what was settled in between; equal exactly when that is zero |
| RobotQueue.SettledMeanwhile | src/swarm/robot-queue.ts:138-210 | in every reachable state, settling a waiting proof between the payout list and the mark makes the mark move its reward as well |
| RobotQueue.SweepOvertaken | src/swarm/robot-queue.ts:25-210 | for all amounts there is a run from the empty queue in which the agent is due one amount and the mark moves that and a second one |
| Json.QuotedReads | src/ledger/record.ts:23-23 | a quoted string and what follows it can be read back, with the escapes of section 7 of RFC 8259 |
| Json.EscapesAreCanonical | src/ledger/record.ts:23-23 | a character is escaped only if it must be, by its short escape if it has one, otherwise by four lower-case hexadecimal digits |
| Json.DecimalIsCanonical | src/ledger/record.ts:23-23 | integers are written with digits only and without leading zeros |
| Json.StringifyReads | src/ledger/record.ts:23-23 | the round trip: an independent reader gets back every member of every object of strings and integers |
| Json.StringifyInjective | src/ledger/record.ts:23-23 | different objects of strings and integers are written as different texts |
| OrderingChain.HashDeterminesPayload | src/ledger/record.ts:10-24 | equal hashes mean equal hashed fields, absent ones included, unless the two texts collide |
| OrderingChain.TextNamesFields | src/ledger/record.ts:10-24 | the hashed text, read back: the eleven keys in the order of the source, each with the value of the field of that name, and no key for an absent field |
| OrderingChain.VerifyOrderingChain | src/ledger/verify.ts:8-46 | accepts exactly the chains without a fault, and otherwise reports the first fault of the first faulty record |
| OrderingChain.FaultsExactly | src/ledger/verify.ts:13-41 | each reason of a refusal means the first failing one of: next number, hash of the predecessor or GENESIS, hash of the fields, signature |
| OrderingChain.AcceptedExactly | src/ledger/verify.ts:8-46 | accepted are exactly the chains in which every record has the next number, continues the one before, carries the hash of its fields and a signature that verifies |
| OrderingChain.SameHashSameHistory | src/ledger/verify.ts:8-46 | records with one hash in two accepted chains stand at the same position and share their whole hashed history, if no two texts of these chains collide |
| OrderingChain.SameLastHashSameChain | src/ledger/verify.ts:8-46 | accepted chains with the same last hash have equal length and agree on every hashed field everywhere, if no two of their texts collide |
| OrderingChain.IdAndSignatureAreFree | src/ledger/verify.ts:22-41 | the record id is not protected, and any verifying signature will do |
| OrderingChain.Chain.Append | src/ledger/chain.ts:16-44 | the new record carries the fields of the event, the next number, the previous hash or GENESIS, the hash of its text and its signature |
| OrderingChain.Chain.LatestProof | src/ledger/chain.ts:46-62 | the proof names the last record, and there is none for an empty chain |
| OrderingChain.Chain.Snapshot | src/ledger/chain.ts:64-66 | a copy of all records |
| OrderingChain.BuiltChainsAreAccepted | src/ledger/chain.ts:16-44 | every chain built by appends, and every prefix of it, is accepted under the matching key |
| WeightedMedian.ComputeWeightedMedian | src/swarm/coordinator-utils.ts:66-77 | 0 for no entries; otherwise the lower weighted median, or the middle value if no weight is positive; the last return is never reached |
| WeightedMedian.MedianMinimisesDeviation | src/swarm/coordinator-utils.ts:66-77 | the result minimises the weighted absolute deviation over all reals |
| WeightedMedian.MedianIsOrderIndependent | src/swarm/coordinator-utils.ts:66-77 | permuted entries give the same result |
| WeightedMedian.MajorityBoundsMedian | src/swarm/coordinator-utils.ts:66-77 | entries holding more than half the weight keep the result within their own range |
| Sorting.SortSorts | src/swarm/coordinator-utils.ts:68-68 | sorting yields an ordered permutation |
| NonceVerifier.BeginVerify | src/security/nonce-verifier.ts:29-38 | up to the await of the lookup: skew is checked first, then replay; the store is not changed |
| NonceVerifier.FinishVerify | src/security/nonce-verifier.ts:41-42 | after the await: the nonce is stored with the expiry counted from the beginning of the call |
| NonceVerifier.VerifyNonce | src/security/nonce-verifier.ts:25-43 | a call that nothing interrupts: skew is checked first, then replay; only an accepted nonce is stored, with its expiry |
| NonceVerifier.InMemoryNonceStore.Prune | src/security/nonce-verifier.ts:60-67 | exactly the entries that expired before now are deleted |
| NonceVerifier.SecondAcceptanceIsLate | src/security/nonce-verifier.ts:25-67 | without overlapping calls, a nonce is accepted again only after the expiry that its first call gave it has passed |
| NonceVerifier.SecondIsUnprotected | src/security/nonce-verifier.ts:25-67 | without overlapping calls, two calls that accept a pair twice have a first ttl below the sum of their skews |
| NonceVerifier.ReplaySafeExactly | src/security/nonce-verifier.ts:25-67 | for every set of limits the calls may choose from: no run without overlapping calls accepts a (nonce, timestamp) pair twice, if and only if for all choices a and b a skew is negative or ttl of a >= skew of a + skew of b |
| NonceVerifier.FixedLimitsSafeExactly | src/swarm/coordinator.ts:534-540 | a caller with fixed limits is safe if and only if the skew is negative or ttl, 300000 by default, >= 2 * skew |
| NonceVerifier.LookupExact | src/security/nonce-verifier.ts:29-42 | for any interleaving of lookups, insertions and prunes, under limits that protect and one timestamp for a nonce: a call within its skew is accepted if and only if no accepted call of the nonce has inserted it before |
| NonceVerifier.TwiceExactlyWhenOverlapping | src/security/nonce-verifier.ts:37-41 | under the same conditions a run accepts a pair twice if and only if a lookup of it falls between an accepted lookup and its insertion |
| NonceVerifier.OverlappingAllAccepted | src/security/nonce-verifier.ts:37-41 | for every n, n calls that look up one nonce before any of them inserts it are all accepted |
| RateLimiter.AgentRateLimiter.Check | src/security/agent-rate-limiter.ts:17-38 | expired timestamps are evicted from the front, then the request is admitted if there is room |
| RateLimiter.AgentRateLimiter.Reset | src/security/agent-rate-limiter.ts:40-42 | the agent's window is forgotten |
| RateLimiter.StoredRefinesLog | src/security/agent-rate-limiter.ts:17-42 | the stored list stands for the log of all acceptances since the last reset, at every cutoff to come |
| RateLimiter.StoredAfterCheck | src/security/agent-rate-limiter.ts:17-38 | after a check the stored list is the earlier acceptances from the cutoff on and the request if admitted; unless the window is negative, exactly the accepted timestamps from the cutoff on |
| RateLimiter.RefusedExactlyWhenFull | src/security/agent-rate-limiter.ts:32-37 | a request is refused exactly when the maximum was already accepted in the window that ends now |
| RateLimiter.NoWindowOverflows | src/security/agent-rate-limiter.ts:17-38 | no closed interval of the window's length anywhere in a run holds more than the maximum |
| MeshProtocol.Protocol.ValidateMessage | src/mesh/protocol.ts:32-58 | duplicate, expired and unsigned messages are refused in that order; an accepted id is remembered |
| MeshProtocol.AcceptsExactly | src/mesh/protocol.ts:32-58 | in every run accepted are exactly the signed messages within issuedAtMs + ttlMs whose id is not in the cache |
| MeshProtocol.AcceptedByLog | src/mesh/protocol.ts:32-58 | for non-empty ids: accepted exactly if signed, in time and not among the last 5000 accepted ids |
| MeshProtocol.CacheIsSuffixOfLog | src/mesh/protocol.ts:52-56 | for all ids the cache is the log of accepted ids without its forgotten part |
| MeshProtocol.CacheIsLastIds | src/mesh/protocol.ts:52-56 | for non-empty ids the cache is the last min(n, 5000) accepted ids |
| MeshProtocol.CacheBoundedExactly | src/mesh/protocol.ts:53-56 | the cache is within its limit exactly as long as no empty id is due to be dropped |
| MeshProtocol.EmptyIdPinsCache | src/mesh/protocol.ts:52-56 | for every n some run of n valid messages with different ids, the empty one first, leaves all n in the cache |
| MeshProtocol.RepeatsAreFarApart | src/mesh/protocol.ts:32-58 | two acceptances of one id are separated by at least 5000 others |
| SlidingWindow.SinceTwice | src/security/behavior-tracker.ts:102-105 | pruning early does not change what a later cutoff leaves |
| SlidingWindow.SinceExactly | src/security/behavior-tracker.ts:102-105 | pruning keeps exactly the events at or after the cutoff, in order |
| BehaviorTracker.LongestIdenticalRun | src/security/behavior-tracker.ts:174-186 | the length of the longest block of at least two equal consecutive hashes, or 0 |
| BehaviorTracker.MaxHeartbeatGap | src/security/behavior-tracker.ts:214-222 | the largest gap between neighbouring heartbeats, or 0 |
| BehaviorTracker.MinDuration | src/security/behavior-tracker.ts:199-199 | the shortest duration, or 0 |
| BehaviorTracker.Ring | src/security/behavior-tracker.ts:188-189 | the hashes of the last 20 tasks in order, or of all if there are fewer |
| BehaviorTracker.StatsFor | src/security/behavior-tracker.ts:168-257 | counts, rates, averages, deviation, shortest duration, longest identical run, heartbeat gap and window of the given lists |
| BehaviorTracker.StatsMean | src/security/behavior-tracker.ts:168-201 | a rate or average times the number of tasks is the count or sum it stands for, the deviation is the root of the mean squared difference, with the source's defaults without tasks |
| BehaviorTracker.HeartbeatsInOrder | src/security/behavior-tracker.ts:213-216 | the gap is taken over the heartbeats in the order of their times |
| BehaviorTracker.AgentBehaviorTracker.RecordEvent | src/security/behavior-tracker.ts:111-155 | the list of the event's kind is pruned and extended; requeues are counted and the concurrent claims set |
| BehaviorTracker.AgentBehaviorTracker.GetStats | src/security/behavior-tracker.ts:157-257 | every list is pruned and every statistic is that of the pruned lists; null for an unknown agent |
| BehaviorTracker.PruningLosesNothing | src/security/behavior-tracker.ts:102-166 | what the statistics look at is what the operations recorded for the agent, kind by kind, restricted to the window; requeues are all counted and the last concurrent claim count is kept |
| AutoBlacklister.Primary | src/security/auto-blacklister.ts:80-86 | the first of the most severe anomalies gives the reason code |
| AutoBlacklister.Blacklister.ProcessAnomalies | src/security/auto-blacklister.ts:41-100 | nothing for no anomalies, instant action on a critical one, otherwise strikes and action at the threshold, with reason code, reason text, evidence hash and events |
| AutoBlacklister.Blacklister.GetStrikeCount | src/security/auto-blacklister.ts:73-78 | the number of stored strikes in the window |
| AutoBlacklister.ActsExactly | src/security/auto-blacklister.ts:41-71 | acts exactly on a critical anomaly or when in-window strikes since the last strike-triggered action reach the threshold, counted in the full log |
| AutoBlacklister.ActionCarries | src/security/auto-blacklister.ts:41-100 | an action carries the anomalies of the call if one is critical, otherwise the in-window strikes of the full log and the new ones, and names the first of the worst with its code, all rule ids, its description and the hash |
| AutoBlacklister.StrikeCountExact | src/security/auto-blacklister.ts:73-78 | the reported strike count is that of the full log |
| AutoBlacklister.StoredBelowThreshold | src/security/auto-blacklister.ts:60-68 | stored strikes stay below a positive threshold |
| Handshake.SessionStore.Put | src/handshake/server.ts:77-85 | the session is stored and added to its agent's index; the index stays the one computed from the sessions if and only if a known session keeps its agent |
| Handshake.SessionStore.Delete | src/handshake/server.ts:87-97 | the session is gone and the index stays right, empty sets removed |
| Handshake.SessionStore.ActiveCountForAgent | src/handshake/server.ts:99-110 | counting through the index equals a scan of all sessions |
| Handshake.HandshakeServer.PostReview | src/handshake/server.ts:270-292 | refused at the cap of unfinished sessions, otherwise a new session in phase handshake |
| Handshake.HandshakeServer.PostNegotiate | src/handshake/server.ts:323-370 | the four answers in the order of the checks; acceptance starts the cloud model once |
| Handshake.HandshakeServer.ExpireSessions | src/handshake/server.ts:445-464 | exactly the unfinished sessions idle for too long expire |
| Handshake.HandshakeServer.FinishExecution | src/handshake/server.ts:475-511 | a reply or an error counts only while the session is executing |
| Handshake.RunKeeps | src/handshake/server.ts:255-511 | every step, in any order and with replies at any time, keeps the session invariants |
| Handshake.ReachableStates | src/handshake/server.ts:255-511 | in every reachable state: the cap holds, each session is started at most once, a response is stored exactly in phase result, a failure reason exactly in failed and expired |
| Handshake.ReviewAdmitsExactly | src/handshake/server.ts:270-292 | in every run a review is admitted if and only if its agent has fewer unfinished sessions than the cap |
| Handshake.SessionsMove | src/handshake/server.ts:255-511 | in every run a session begins with its review, is answered only by its owner, ended only by the cloud model or a sweep, deleted only by a deletion, and the cloud model is started by exactly the accepted negotiations |
| Handshake.SweepExpiresExactly | src/handshake/server.ts:445-464 | from the operations alone: right after a sweep an unfinished session is expired if and only if the last review or accepted negotiation that moved it is longer ago than the timeout |
| Handshake.ExpiredOnlyBySweep | src/handshake/server.ts:445-464 | whatever is expired was unfinished and idle for longer than the timeout at some sweep |
| Handshake.TerminalIsForever | src/handshake/server.ts:445-511 | result, failed and expired sessions are never changed again, however late the cloud model answers |
| ReleaseIntegrity.CollectFiles | src/security/release-integrity.ts:41-53 | the recursion lists the paths of all files in listing order and skips what is neither file nor directory |
| ReleaseIntegrity.CollectedIsHeld | src/security/release-integrity.ts:41-53 | every collected path names a file of the tree |
| ReleaseIntegrity.HeldIsCollected | src/security/release-integrity.ts:41-53 | every file of the tree is collected under its path |
| ReleaseIntegrity.CollectedOnce | src/security/release-integrity.ts:41-53 | no path is collected twice |
| ReleaseIntegrity.StreamDecodes | src/security/release-integrity.ts:30-36 | the hashed stream is uniquely decodable, newlines in paths included: equal streams list the same paths with the same content digests |
| ReleaseIntegrity.StreamDeterminesRecords | src/security/release-integrity.ts:30-36 | equal streams come from the same paths and contents, if no two of these contents collide |
| ReleaseIntegrity.SortOrderIsTotal | src/security/release-integrity.ts:28-28 | comparing strings by UTF-16 code units, as sort does, is a total order |
| ReleaseIntegrity.ComputeDistHash | src/security/release-integrity.ts:26-39 | the hash is that of the sorted files' lines, each file read back under its own path |
| ReleaseIntegrity.HashExact | src/security/release-integrity.ts:26-53 | trees with the same paths and contents have the same hash; trees with the same hash hold the same paths and contents, or two different strings hashed for them have one digest |
| ReleaseIntegrity.TreeHashExactly | src/security/release-integrity.ts:26-53 | the hash is the digest of one line for each file of the tree, each once, in the order of the paths: path with slashes, a zero character, content digest, line feed |
| ReleaseIntegrity.ListingOrderIrrelevant | src/security/release-integrity.ts:22-25 | the order in which directories list their entries, at any level, does not matter |
| StreamingPull.PullTracker.StartPull | src/model/pull-tracker.ts:21-30 | a fresh record with no progress |
| StreamingPull.PullTracker.UpdateProgress | src/model/pull-tracker.ts:32-38 | status, amounts and the nearest whole percentage of a running pull; nothing else changes |
| StreamingPull.PullTracker.CompletePull | src/model/pull-tracker.ts:40-42 | no pull is running any more |
| StreamingPull.PullTracker.FailPull | src/model/pull-tracker.ts:44-49 | a running pull is marked as failed |
| StreamingPull.SplitContinues | src/model/swap.ts:130-132 | splitting a continued text is splitting the continued tail |
| StreamingPull.SplitIsExact | src/model/swap.ts:130-132 | the pieces put together are the text, and the buffer is what follows the last newline |
| StreamingPull.ReadComplete | src/model/swap.ts:134-157 | the lines are folded into the tracker up to the first error line |
| StreamingPull.LinesShow | src/model/swap.ts:134-157 | as long as no line reports an error all lines are read and the record shows the last line with a status |
| StreamingPull.PullExactly | src/model/swap.ts:117-163 | lines are read up to the first error line; the record then shows that error, or the interruption, behind the amounts of the last status, and is cleared when the stream ends well |
| StreamingPull.ReadChunks | src/model/swap.ts:121-159 | for every way of cutting a text into chunks the lines of the whole text are read up to the first error line, and the tracker follows |
| StreamingPull.ProcessStreamingPull | src/model/swap.ts:117-163 | for every way of cutting a text into chunks the tracker, if there is one, and the lines read are those of the whole text |
| Issuance.ToFixed6Near | src/economy/issuance.ts:29-29 | rounding moves a number by at most half a millionth and fixes six-decimal numbers |
| Issuance.ToFixed6Exactly | src/economy/issuance.ts:29-29 | below 1e21 the nearest six-decimal number, on a tie the one with the larger absolute value; above, the number itself |
| Issuance.ToFixed6Monotone | src/economy/issuance.ts:29-29 | rounding preserves order |
| Issuance.LoadIndexInRange | src/economy/issuance.ts:25-30 | the load index is between 0.2 and 6 |
| Issuance.LoadIndexIsScarcity | src/economy/issuance.ts:25-30 | the load index is demand over capacity, each at least 1, kept between 0.2 and 6, up to half a millionth |
| Issuance.LoadIndexMonotone | src/economy/issuance.ts:25-30 | the load index grows with demand and falls with capacity |
| Issuance.SmoothedIsBetween | src/economy/issuance.ts:32-36 | the smoothed index moves from the previous towards the current one by the factor, and stays between six-decimal ones |
| Issuance.IndexStaysInRange | src/economy/issuance.ts:25-36 | over every run of compute-then-smooth rounds, each with its own factor, the index stays between 0.2 and 6 |
| Issuance.PoolStaysInLimits | src/economy/issuance.ts:38-41 | the daily pool stays within six-decimal limits |
| Issuance.PoolFollowsLoad | src/economy/issuance.ts:38-41 | the pool is the base raised by the slope for each unit of load above 1, kept within the limits, up to half a millionth |
| Issuance.IssuedSumsToPool | src/economy/issuance.ts:43-61 | the issued tokens sum to a 24th of the pool up to half a millionth for each contributor; nothing is issued without weight or pool |
| Issuance.ContributorsExactly | src/economy/issuance.ts:50-51 | exactly the shares with a positive contribution get tokens, in order |
| Issuance.IssuedMonotone | src/economy/issuance.ts:43-61 | in the returned list, one entry for each contributor in order with its contribution and share to six and nine decimals, nobody gets a negative amount and a larger contribution never gets fewer tokens |
| DnsLabel.SanitizeIsValid | src/portal/dns-manager.ts:80-89 | the result is a host label: 1 to 63 of a-z, 0-9 and hyphen, no hyphen at either end, no double hyphen |
| DnsLabel.SanitizeExactly | src/portal/dns-manager.ts:80-89 | the result is the runs of letters and digits of the lower-cased id, joined by hyphens, cut to 63 characters, without a hyphen at the end, or "node" |
| DnsLabel.FixedPointsAreLabels | src/portal/dns-manager.ts:80-89 | exactly the valid labels are left unchanged |
| DnsLabel.SanitizeIdempotent | src/portal/dns-manager.ts:80-89 | sanitizing twice is sanitizing once |
| DnsLabel.FallbackExactly | src/portal/dns-manager.ts:88-88 | "node" stands in exactly when the lower-cased id has no letter or digit |

## Left out

- Json.StringifyReads: integers are written in decimal; numbers from 1e21 on, fractions and lone surrogates are not modelled, because record fields do not carry them.
- StreamingPull.ProcessStreamingPull: chunks are decoded text; decoding of bytes is not modelled.
- AutoBlacklister.Blacklister.ProcessAnomalies: the evidence hash is a function of the anomalies that is given, not computed.
- Handshake.HandshakeServer.PostReview: authentication, body hashing and schema checks come before the step and change no session.
- Database writes, the PostgreSQL and SQLite stores and the portal store: their meaning lives in the database engine.
- HTTP plumbing, the control plane, inference service, routes, dashboards, desktop, iOS and editor code: no state of the kinds above.
- The worker runner, mesh delivery and peers: network loops whose handlers span awaits.
- Registration and heartbeats of swarm agents, queue status and agent claim lookups, available-task and earnings lists: they only read or overwrite one field.
- The quorum ledger, the audit verifier and the blacklist audit: the same chain shape as the ordering chain.
- Bitcoin and Lightning clients, model routing, executors, escalation, power policy and anomaly rules: remote calls or flat branch tables.
