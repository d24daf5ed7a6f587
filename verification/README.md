# archLoop Hub: a verified model

archLoop runs coding agents on tasks, merges what they produce, and keeps the user's checkout in
step. This project models the parts of it where many actors meet — the batch-merge scheduler, the
landing of one candidate, the checkout outbox, worktree leases, the batch planner, the prompt
pipeline — and a few small state machines, and proves what they guarantee. `dafny verify
dfyconfig.toml` checks all of it.

| files | component |
|---|---|
| `DependencyOrder`, `Graph`, `BatchMerge`, `BatchWalk` | the order of a merge batch and the walk that ships it |
| `RepairLedger`, `Landing`, `LandingSession`, `LandingAnswers` | merge, verify, repair, rebuild, land and close one task |
| `CommitGraph`, `CheckoutProjection`, `CheckoutOutbox`, `CheckoutAnswers` | replaying landed candidates onto host branches |
| `LeaseProtocol`, `LeaseStore` | worktree lease files, interleaved call by call, and run to completion |
| `PlannerCandidates`, `BatchPlanner`, `BatchFreshness` | choosing a batch from an untrusted plan |
| `PromptPatterns`, `PromptArguments`, `PromptPreprocessor`, `PromptPipeline` | prompt templates |
| `IdleTimer`, `TextDeltaBuffer`, `EnvFile` | idle timeout, stream buffer, env file codec |
| `Common`, `Text`, `TaskBoard` | shared vocabulary |

## How to read it

Code that changes state is a class or a method with loops, and is proved equal to a function over
values; the theorems are lemmas about those functions, over every input, run or interleaving.
Agents, git, processes and the user are oracles: functions indexed by a step counter, so a statement
for every `Env` covers everything they can do. In `CheckoutProjection` the user may move branches and
the machine may crash between any two steps; in `LeaseProtocol` every file-system call of every
activity is a step of its own.

## Where the code gives less, or something else, than it seems to

- A candidate that a repair changed lands although the verifier saw another commit, if the
  integration takes no snapshots. Exactly the integrations that snapshot, or never repair, land only
  verified candidates (`Landing.LandsVerifiedIffFaithful`). The merger the Hub ships does snapshot.
- The per-fingerprint repair budget never binds; the per-source one does
  (`RepairLedger.FingerprintNeverBinds`).
- A succeeded outbox item was contained in its branch when the Hub looked, but a user who rewinds the
  branch before the mark is written makes the mark false. It is true in every run exactly if users
  only move forward (`CheckoutProjection.ContainedAtMarkIffForward`).
- Two acquisitions of one worktree lease can both hold it, with both owners alive: recovery checks
  first and removes later, and a lease without a worktree directory is up for grabs. Undisturbed
  living owners exclude each other exactly if, at the start, the directory exists and no dead owner's
  lease is left (`LeaseProtocol.ExcludesIffNothingToRecover`).
- A rebuild after target drift starts from the task's predecessor again, not from the new target. If
  the target rests elsewhere, all rebuilds are in vain (`Landing.SmoothTaskLandsIffOnTarget`).
- A plan that selects and wrongly defers the same task selects it twice, unless the room is used up
  before (`BatchPlanner.DistinctIffPicksAreCrowdedOut`); the freshness check catches it.
- A shell block that substitution leaves empty is not run (`PromptPipeline.RunsTheBlocksIffWhole`).
- An env variable named `__proto__` is printed but cannot be read back; that is part of the exact
  condition of `EnvFile.RoundTripIffAllFit`. Empty keys do survive.
- Planner and merge phase read blockers differently: the merge phase keeps array strings untrimmed and
  ignores records, the planner trims strings and reads records; and the merge phase accepts a string
  in place of an array, which the planner passes over. When they agree is
  `PlannerCandidates.SameMetadataBlockersIff`.
- `TextDeltaBuffer` keeps a handle to a timer that has fired; it is harmless, since clearing it does nothing.

## Model

| member | source | states |
|---|---|---|
| `DependencyOrder.OrderTasksByDependencies` | src/hubBatchMerge.ts:1390-1412 | the splice loop yields the greedy order and a permutation of its input |
| `DependencyOrder.OrderIsGreedy` | src/hubBatchMerge.ts:1395-1410 | every element is, seen from the input, the first open task whose selected blockers are all placed, or the first open task if there is none |
| `DependencyOrder.OrderIsLeastTopological` | src/hubBatchMerge.ts:1390-1412 | if any arrangement respects the blockers, the result does, and it is the lexicographically least one by input position |
| `DependencyOrder.TopologicalInputUnchanged` | src/hubBatchMerge.ts:1390-1412 | an input that already respects its blockers is returned as it is |
| `DependencyOrder.OrderTopologicalIffAcyclic` | src/hubBatchMerge.ts:1390-1412 | the order respects all blockers among the tasks iff they form no cycle |
| `TaskBoard.BlockersOfFirstUsable` | src/hubBatchMerge.ts:1371-1388 | a task's blockers are, in order, the non-blank strings of the first metadata key with an array, or its one trimmed string, and none if there is no such key |
| `TaskBoard.EverySpellingIsRead` | src/hubBatchMerge.ts:1371-1388 | each of the three metadata keys is read when no key before it can be used |
| `BatchMerge.RunBatchMerge` | src/hubBatchMerge.ts:2636-2908 | the walk with its skips, quiet-wait holds, host-contribution exit and status computes the specified batch |
| `BatchMerge.BatchSound` | src/hubBatchMerge.ts:2784-2895 | on every path one result per task in walk order; a merged task's blockers were completed or merged earlier; each merger call builds on the last merged candidate; nothing is called after a quiet wait and all later tasks are blocked behind it |
| `BatchWalk.WalkAnswersEveryTask` | src/hubBatchMerge.ts:2784-2895 | for any tickets, resumptions and merger, the answer for every task: skipped iff a blocker is neither completed on the board nor merged earlier; else pending, without a call, iff its own first ticket is quiet or a quiet ticket precedes it and the first quiet ticket resumes as waiting (quiet wait for the head itself, blocked behind the head for others); else the merger's own report, from a call on the last merged candidate; the calls are exactly those, in order |
| `BatchWalk.PendingContributionHoldsAll` | src/hubBatchMerge.ts:2745-2782 | a pending host contribution leaves every task pending with its reason and calls nothing |
| `BatchWalk.StatusOfResults` | src/hubBatchMerge.ts:1787-1804 | pending iff there are results and all are, done iff all are merged (or none are there), else partially failed |
| `BatchMerge.HoldAll` | src/hubBatchMerge.ts:2745-2782 | a pending host contribution gives every task a pending result with its reason |
| `BatchMerge.MergedIsLeastFixedPoint` | src/hubBatchMerge.ts:2784-2895 | for any blocker graph, the merged tasks are the least fixed point of "the oracle succeeds and every blocker is completed or merged" |
| `BatchMerge.NoOrderMergesMore` | src/hubBatchMerge.ts:2784-2895 | no other processing order, and no queue that holds tasks back, merges a task this order does not |
| `BatchMerge.CyclesNeverMerge` | src/hubBatchMerge.ts:2692-2697 | under any oracle and order, no task on or downstream of a cycle of open blockers merges |
| `RepairLedger.FingerprintNeverBinds` | src/hubLandingRepair.ts:185-203 | what is left for a fingerprint is always what is left for its source commit |
| `Landing.OnlyVerifiedCandidateLands` | src/hubBatchMerge.ts:1583-1692 | in every run of a snapshotting integration, what lands is what the verifier saw last and passed, and a shipped task reports exactly that candidate |
| `Landing.LandsVerifiedIffFaithful` | src/hubBatchMerge.ts:1515-1537 | that safety holds in all runs iff the integration snapshots repaired candidates or never repairs |
| `Landing.UnsnapshottedRepairLands` | src/hubBatchMerge.ts:1665-1669 | a concrete run in which an unverified candidate lands without a snapshot |
| `Landing.VerifyBudget` | src/hubBatchMerge.ts:1622-1684 | one candidate generation: repairs within the remaining budget of two, verifier calls at most one more than repairs |
| `Landing.LandBudget` | src/hubBatchMerge.ts:2121-2331 | drift rebuilds stay within what is left of the limit, and each pays for at most one more verifier call |
| `Landing.TaskIsBounded` | src/hubBatchMerge.ts:2433-2634 | per source commit, repairs and conflict-resolver calls of a whole task stay within their ledgers' budgets; at most three rebuilds; verifier calls at most one plus repairs plus rebuilds |
| `Landing.OffTargetTaskNeverShips` | src/hubLandingCoordinator.ts:557-567 | whatever agents, git and the queue do, a task whose target stays away from its predecessor never ships, however often it is rebuilt |
| `Landing.SmoothTaskLandsIffOnTarget` | src/hubBatchMerge.ts:3386-3421 | with clean merges, passing verification and a resting target, a task lands iff it has no predecessor or that is the target; otherwise it spends all rebuilds it has left (all three after resuming from a quiet wait) on the same base and ends in quiet wait |
| `LandingAnswers.CreateAnswers` | src/hubBatchMerge.ts:3104-3274 | a candidate is made iff the merge was clean, or conflicted and some resolver call within the budget succeeded; which commits it is made of; and otherwise which failure is reported and whether it may pass later |
| `LandingAnswers.VerifyAnswers` | src/hubBatchMerge.ts:1583-1692 | verification passes iff the last verifier call did; it fails only with the repair budget spent or repairs not offered |
| `LandingAnswers.VerifyRepairs` | src/hubBatchMerge.ts:1622-1684 | every repair is of the candidate's source, answers a failed verdict, and is followed by a verifier call iff it succeeded |
| `LandingAnswers.VerifyRecords` | src/hubBatchMerge.ts:1622-1669 | the verification ledger is the log: every repair is recorded once, in order, under the candidate it was of, and nothing else is |
| `LandingAnswers.ResolveRecords` | src/hubBatchMerge.ts:3162-3259 | every resolver call is recorded once under the merge input it was for, and nothing else is |
| `LandingAnswers.RebuildAnswers` | src/hubBatchMerge.ts:1985-2075 | a rebuild fails iff its merge did or the last verdict on the new candidate was a failure; which report each of them gives, as the failed merge's own or as the landing's; without a rebuild function it leaves the task pending; it never lands anything |
| `LandingAnswers.LandAnswers` | src/hubBatchMerge.ts:2121-2331 | a landing ends landed iff the last attempt did, on the candidate that was active then; otherwise the report for that attempt's refusal, queue position, drift count or failed rebuild |
| `LandingAnswers.FinalizeAnswers` | src/hubBatchMerge.ts:2077-2120 | a ticket still in quiet wait leaves the task pending before any attempt; otherwise the answers of landing hold |
| `LandingAnswers.TaskAnswers` | src/hubBatchMerge.ts:2334-2634 | a task whose log gains a landing reports pending delivery iff publication is pending at its closing step, else merged iff the closure succeeds, else a failed closure; a task whose log gains none reports none of these, but how its merge, verification or landing ended |
| `LandingSession.Session.ResolveMergeConflicts` | src/hubBatchMerge.ts:3162-3259 | the conflict loop records before it calls, and stops on success or an empty budget |
| `LandingSession.Session.CreateLandingCandidate` | src/hubBatchMerge.ts:3104-3274 | clean merge, resolved conflict and every failure of creating a candidate, always based on the predecessor if there is one and on the current target otherwise |
| `LandingSession.Session.SnapshotCandidate` | src/hubBatchMerge.ts:3441-3447 | moves the merger's current candidate to HEAD and hands over its identity |
| `LandingSession.Session.VerifyCandidate` | src/hubBatchMerge.ts:1583-1692 | the verify-and-repair loop over mutable session state is the specified one, and the caller's copy of the identity never falls behind |
| `LandingSession.Session.RebuildCandidate` | src/hubBatchMerge.ts:1985-2075 | rebuild after drift: merge, adopt, verify, or one of its failures; without a rebuild function the drift leaves the task pending |
| `LandingSession.Session.LandCandidate` | src/hubBatchMerge.ts:2121-2331 | the landing loop with every rejection, quiet wait and drift branch |
| `LandingSession.Session.FinalizeCandidate` | src/hubBatchMerge.ts:2077-2120 | quiet tickets are resumed with a fresh drift counter or keep waiting |
| `LandingSession.Session.ProcessTask` | src/hubBatchMerge.ts:2433-2634 | the whole task, from merge to close |
| `CommitGraph.AncestorTrans` | src/hubCheckoutProjection.ts:553-564 | ancestry is transitive |
| `CheckoutProjection.HistoryGood` | src/hubCheckoutProjection.ts:649-787 | in every interleaving of syncs, enqueues, user moves and crashes, the Hub moves branches only to descendants, and marks an item succeeded only right after it saw or made the branch contain it |
| `CheckoutProjection.ContainedAtMarkIffForward` | src/hubCheckoutProjection.ts:684-726 | every item is contained in its branch at the moment it is marked, in every run, iff users move branches only forward |
| `CheckoutProjection.RewindBreaksMark` | src/hubCheckoutProjection.ts:728-748 | a concrete run for any rewinding move, in which a mark is false |
| `CheckoutProjection.NeverBackToPending` | src/hubCheckoutProjection.ts:377-380 | from any point of a history on, no item disappears and no succeeded item is ever rewritten, re-enqueued or not |
| `CheckoutProjection.DeltasCount` | src/hubCheckoutProjection.ts:851-868 | a sync's deltas hold a success for an item exactly once if the sync brought it about, and never otherwise |
| `CheckoutProjection.DeltasInOrder` | src/hubCheckoutProjection.ts:851-868 | the deltas are, in order and once each, exactly the attempts that are still pending or had not succeeded before |
| `CheckoutProjection.SucceedsOnce` | src/hubCheckoutProjection.ts:806-885 | over any history with crashes each item is reported succeeded at most once; without crashes exactly once if it became succeeded |
| `CheckoutProjection.PassesReach` | src/hubCheckoutProjection.ts:806-831 | in a quiet environment any number of crashed passes stays on the path of the crash-free one, and no item claims more than its branch contains |
| `CheckoutProjection.TwoPassesConverge` | src/hubCheckoutProjection.ts:684-831 | after any number of crashed passes, two complete ones reach the crash-free branches and a fixed point, and an item is succeeded iff its branch contains its candidate |
| `CheckoutAnswers.StepAnswers` | src/hubCheckoutProjection.ts:684-788 | the status that every step of a pass leaves unless it was killed, in terms of what user, owners and git command did: contained, diverged, several or unsafe owners, moved, refused, or failed and looked at again |
| `CheckoutOutbox.Outbox.EnqueueProjection` | src/hubCheckoutProjection.ts:367-401 | an id that is there comes back unchanged, a new one is appended as pending, with its task and the commit its branch was at (or the candidate if there was no branch) |
| `CheckoutOutbox.Outbox.AttemptCas` | src/hubCheckoutProjection.ts:649-664 | the ref moves only from the expected commit; the command may also fail after moving it |
| `CheckoutOutbox.Outbox.AttemptFastForward` | src/hubCheckoutProjection.ts:666-682 | fast-forward, already up to date, refused, or failed after moving the branch |
| `CheckoutOutbox.Outbox.AdvanceHostBranch` | src/hubCheckoutProjection.ts:684-726 | success, or re-reading the branch after a failure and deciding by what it shows |
| `CheckoutOutbox.Outbox.ProjectOneItem` | src/hubCheckoutProjection.ts:728-788 | every branch of projecting one item |
| `CheckoutOutbox.Outbox.ProjectOutbox` | src/hubCheckoutProjection.ts:806-831 | a finished pass reports each listed item once as it left it, and pending and succeeded counts add up to the number of items |
| `CheckoutOutbox.Outbox.SyncProjections` | src/hubCheckoutProjection.ts:870-885 | unless it was killed, a sync reports, in outbox order and once each, exactly the items that are still pending or had not succeeded before it; a killed sync reports none |
| `CheckoutOutbox.CountsSum` | src/hubCheckoutProjection.ts:816-821 | the two counts partition the attempts |
| `LeaseProtocol.CreationsMatchRemovals` | src/WorktreeLease.ts:377-441 | in every interleaving, exclusive creations plus an initial file equal effective removals plus a final file |
| `LeaseProtocol.CreationsAreSeparated` | src/WorktreeLease.ts:411-428 | between two successful creations the first one's lease was removed |
| `LeaseProtocol.AcquisitionsAreExclusive` | src/WorktreeLease.ts:563-605 | two acquisitions both succeed only if the earlier lease was removed before the later was created, each after one or two attempts |
| `LeaseProtocol.AtMostTwoAttempts` | src/WorktreeLease.ts:580-596 | no acquisition tries to create the file more than twice |
| `LeaseProtocol.RemovalsExplained` | src/WorktreeLease.ts:461-492 | every removed lease was released, or removed by an activity that had found no directory, or by one that had read a lease and then found its owner dead; if that was another lease, somebody had removed that one in between |
| `LeaseProtocol.LiveLeaseCanBeLost` | src/WorktreeLease.ts:485-491 | from any path with a dead owner's lease, an undisturbed run in which two living owners both acquire |
| `LeaseProtocol.MissingDirectoryIsNoHindrance` | src/WorktreeLease.ts:479-483 | from any path without its worktree directory, likewise |
| `LeaseProtocol.ExcludesIffNothingToRecover` | src/WorktreeLease.ts:461-605 | no interleaving of acquisitions, retries and prunes by living processes, undisturbed, lets two acquire iff at the start the worktree directory exists and no readable lease has a dead owner |
| `LeaseProtocol.AloneTakesIffFree` | src/WorktreeLease.ts:461-751 | undisturbed, every activity ends within seven calls: a release always takes the lease away, an orphan prune iff the directory is missing, acquisition, retry and prune iff the lease is free; an acquisition then holds its own; otherwise the file is left alone, and only prunes do not report it as active or malformed |
| `LeaseProtocol.LostRaceStartsOver` | src/WorktreeLease.ts:580-596 | an acquisition that loses the creation race leaves the file alone; the first time it starts over and ends as if it had only begun, whatever happened meanwhile, the second time it gives up |
| `LeaseProtocol.RefusalIsFinal` | src/WorktreeLease.ts:346-492 | in every interleaving, an activity that has a call refused changes nothing by it and has failed from then on, unless it was the look at the directory, a probe, or the read of a prune loop |
| `LeaseProtocol.RunWrittenLast` | src/WorktreeLease.ts:411-428 | in every interleaving a created lease stays unreadable until its acquisition has succeeded, and then names its branch and process |
| `LeaseStore.Locks.RecoverStaleLease` | src/WorktreeLease.ts:461-492 | absent, orphaned, malformed, active and dead leases, each with its effect |
| `LeaseStore.RecoveryIsUndisturbedRetry` | src/WorktreeLease.ts:461-523 | recovery run to completion leaves the file that the undisturbed stepwise retry leaves, touches no other, and answers absent, cleared, active or malformed as that one ends |
| `LeaseStore.SameLockFileIff` | src/worktreeLeaseStore.ts:42-43 | two branches share a lock file iff they differ in slashes and dashes only |
| `LeaseStore.Locks.AcquireLease` | src/WorktreeLease.ts:563-605 | run alone it succeeds iff the lock is missing, orphaned, or the branch's own with a dead owner; otherwise it reports active or malformed and changes nothing |
| `LeaseStore.AcquisitionIsFree` | src/WorktreeLease.ts:563-605 | it succeeds in just the states in which the undisturbed stepwise acquisition does |
| `LeaseStore.Locks.PruneOrphanLeases` | src/WorktreeLease.ts:676-698 | removes exactly the leases without a worktree directory |
| `LeaseStore.Locks.PruneStaleLeases` | src/WorktreeLease.ts:704-751 | removes exactly the orphan leases and the name-consistent ones of dead owners, although entries are recovered through the branch they name |
| `LeaseStore.StepRemoves` | src/WorktreeLease.ts:476-491 | with recovery atomic, any step that takes a lease away is its release, or the lease is orphaned or its owner dead |
| `LeaseStore.LiveLeaseIsKept` | src/WorktreeLease.ts:469-492 | with recovery atomic, no order of steps by anybody takes or rewrites a lease whose owner lives and whose directory exists, except its release |
| `PlannerCandidates.BuildTaskIndexes` | src/hubBatchPlannerCandidates.ts:232-246 | by id the last task wins, by remote reference the first |
| `PlannerCandidates.ResolvesToNamed` | src/hubBatchPlannerCandidates.ts:248-257 | a reference with the remote prefix resolves to the first task that carries it, any other to the last task with that id, and to nothing iff there is none |
| `PlannerCandidates.ResolveDeclaredBlockers` | src/hubBatchPlannerCandidates.ts:259-304 | the loop fills the resolved, open and unknown lists as specified, duplicates dropped where the code drops them |
| `PlannerCandidates.ResolutionMeans` | src/hubBatchPlannerCandidates.ts:259-304 | resolved blockers are, in declared order and with repetitions, those that name a task, with its id and status; unknown those that name none; open those whose task is not completed; without a board all are unknown |
| `PlannerCandidates.ClearIffSettled` | src/hubBatchPlannerCandidates.ts:279-304 | no open and no unknown blocker iff every declared one names a completed task |
| `PlannerCandidates.DeclaredFromSomeSource` | src/hubBatchPlannerCandidates.ts:306-351 | the tracker goes before metadata and metadata before the description; there are no blockers iff all three name none, and the blocker source says which |
| `PlannerCandidates.SameBlockersIffReadAlike` | src/hubBatchPlannerCandidates.ts:60-86 | off one array, planner and merge phase read the same blockers iff every entry is a trimmed string (or names nothing) |
| `PlannerCandidates.SameMetadataBlockersIff` | src/hubBatchPlannerCandidates.ts:88-99 | off a task's metadata they do iff the first key the merge phase can use is such an array, or a string that the planner finds alone under a later key, or there is no such key |
| `PlannerCandidates.StringBlockersEscapeThePlanner` | src/hubBatchMerge.ts:1382-1384 | metadata with one string-valued blocker, read by the merge phase and not by the planner |
| `BatchPlanner.ValidatePlannerOutput` | src/hubBatchPlanner.ts:297-319 | accepts exactly the plans with distinct eligible ids within the limit, and otherwise names the first fault |
| `BatchPlanner.CollectBlockersOfPicks` | src/hubBatchPlanner.ts:365-375 | the loop collects exactly the tasks that picks' blockers resolve to |
| `BatchPlanner.ResolvePlannedSelection` | src/hubBatchPlanner.ts:394-458 | the override loop and the capacity cut compute the specified selection |
| `BatchPlanner.OverridesIffRefuted` | src/hubBatchPlanner.ts:377-392 | a deferral is overridden iff it claims a blocker, every blocker the task declares names a completed task, and no pick declares a blocker that names the task |
| `BatchPlanner.PlannedSelectionSound` | src/hubBatchPlanner.ts:394-458 | picks in order, then the first wrongly deferred tasks in candidate order, within the limit; a wrongly deferred task is added, or deferred for lack of room in a full batch; right deferrals stay; a diagnosis iff some deferral was wrong |
| `BatchPlanner.DeferredInOrder` | src/hubBatchPlanner.ts:394-458 | the deferrals, one by one: the right ones where the plan has them, then each wrongly deferred task that was not added, once, where the plan first has it |
| `BatchPlanner.DistinctIffPicksAreCrowdedOut` | src/hubBatchPlanner.ts:434-445 | no task is selected twice iff every id both picked and wrongly deferred has enough wrongly deferred candidates ahead of it to use up the room |
| `BatchPlanner.PickedAndDeferredTwice` | src/hubBatchPlanner.ts:434-445 | a plan that makes the selection name a task twice |
| `BatchFreshness.PlanPlannedBatch` | src/hubBatchPlanner.ts:502-579 | every planner failure falls back, with its own reason, to the first eligible task, deferring exactly what the planner had deferred except that task, and then all other eligible tasks, in order; whatever is selected is eligible and within the limit |
| `BatchFreshness.LimitedPartitions` | src/hubBatchPlanner.ts:228-243 | the limited batch selects the first eligible tasks up to the limit and defers the others in order, never both |
| `BatchFreshness.ValidateFreshness` | src/hubBatchPlanner.ts:643-694 | collects in order of discovery, once each, exactly the reasons that apply, and none iff the ids are distinct, few enough and all eligible now |
| `BatchFreshness.ReasonsApply` | src/hubBatchPlanner.ts:643-694 | each reason is there iff the ids and the board bear it out: a repetition, too many ids, an id without a task, or one whose task is claimed, or unclaimed and not ready |
| `BatchFreshness.ResolveFreshSelection` | src/hubBatchPlanner.ts:707-764 | for any ids and any board: distinct, eligible, within the given or the default limit; the given ids in order iff all are fresh, else the first eligible task with the reasons, all others deferred |
| `PromptPatterns.PlaceholderStands` | src/PromptArgumentSubstitution.ts:24 | a placeholder holds no block delimiter and is the same whatever follows it |
| `PromptPatterns.PlaceholderForm` | src/PromptArgumentSubstitution.ts:24 | two braces, an ASCII identifier with any white space around it, two braces: that is a placeholder for the identifier |
| `PromptPatterns.PlaceholderParts` | src/PromptArgumentSubstitution.ts:24 | every placeholder has that form |
| `PromptPatterns.BlockIs` | src/PromptArgumentSubstitution.ts:6 | opener, non-empty command without backtick, backtick: that is the block found |
| `PromptArguments.SubstitutePromptArgs` | src/PromptArgumentSubstitution.ts:87-147 | fails on the first referenced key without a value, else substitutes into the stripped and marked template |
| `PromptArguments.PlaceholderBecomesValue` | src/PromptArgumentSubstitution.ts:141-143 | a placeholder for a key becomes the key's value, with the markers in it and nothing else left out, whatever follows |
| `PromptArguments.TextStays` | src/PromptArgumentSubstitution.ts:141-143 | text without placeholders comes back unchanged |
| `PromptArguments.SubstSplits` | src/PromptArgumentSubstitution.ts:141-143 | substitution does not reach across a block delimiter |
| `PromptArguments.MarkKeepsPlaceholder` | src/PromptArgumentSubstitution.ts:95-97 | marking moves, makes and destroys no placeholder |
| `PromptPipeline.MarkOnlyMarks` | src/PromptArgumentSubstitution.ts:95-97 | marking puts a marker into every shell block and changes nothing else: the marked blocks are the template's, and stripping gives the template back |
| `PromptArguments.SubstAssembles` | src/PromptArgumentSubstitution.ts:92-143 | mark-then-substitute equals one reading of the template, piece by piece, with the same referenced keys |
| `PromptPreprocessor.StripConcat` | src/PromptPreprocessor.ts:130 | stripping removes markers and nothing else, piece by piece |
| `PromptPreprocessor.PreprocessPrompt` | src/PromptPreprocessor.ts:61-134 | splicing from the last match at saved offsets equals left-to-right expansion; it fails iff some command fails |
| `PromptPreprocessor.OutputsAreTrimmed` | src/PromptPreprocessor.ts:97 | what is spliced in for a command is its output without the white space at its end |
| `PromptPreprocessor.SpliceOne` | src/PromptPreprocessor.ts:120-129 | one splice of the descending loop keeps the offsets before it valid |
| `PromptPipeline.RunsTheBlocksIffWhole` | src/PromptArgumentSubstitution.ts:92-147 | the commands run are the template's blocks substituted, in order, iff substitution empties no block and puts no backtick into one |
| `PromptPipeline.RunsAllButEmptyBlocks` | src/PromptPreprocessor.ts:22-25 | without backticks in blocks, exactly the blocks that became empty are not run |
| `PromptPipeline.PhasesCommute` | src/PromptPreprocessor.ts:61-134 | with non-empty, backtick-free values both phases together fill values and outputs into the template and run each block once |
| `PromptPipeline.NoForgedCommands` | src/PromptPreprocessor.ts:14-25 | for any template and any values, no more commands run than the template has blocks |
| `IdleTimer.Watch.ResetIdleTimer` | src/Orchestrator.ts:119-136 | both timers restart from now and the counter from zero |
| `IdleTimer.Watch.TimeoutCallback` | src/Orchestrator.ts:121-133 | an active child restarts the timers, otherwise the run times out |
| `IdleTimer.Watch.WarningCallback` | src/Orchestrator.ts:108-116 | an active child resets the numbering, otherwise the next number is reported |
| `IdleTimer.Watch.Advance` | src/Orchestrator.ts:105-172 | one event of a timed trace: a line of output, the next due timer, or the end |
| `IdleTimer.RunGood` | src/Orchestrator.ts:105-167 | over every timed trace the timeout fires exactly a full timeout after the last reset and with no active child; warnings are numbered consecutively; between resets at most as many as intervals fit in the timeout |
| `IdleTimer.LineRestarts` | src/Orchestrator.ts:166-167 | a line of output to a live run makes the timeout due a full timeout later and the warning a full interval later, and starts the numbering over |
| `IdleTimer.SilencePrecedes` | src/Orchestrator.ts:105-167 | over every timed trace, when the timeout fires every line of output is at least a full timeout old and no child is active; without children the last line is exactly that old; warning number n comes at least n intervals after every line |
| `IdleTimer.OverLogsNothing` | src/Orchestrator.ts:236-245 | once the run has ended or timed out nothing is reported any more |
| `IdleTimer.SilenceTimesOut` | src/Orchestrator.ts:119-133 | from any point of a run, silence without children does end in a timeout, exactly one timeout after the last reset |
| `TextDeltaBuffer.Buffer.WriteText` | src/TextDeltaBuffer.ts:27-40 | appends, cancels the pending timer, and flushes or arms a new one |
| `TextDeltaBuffer.Buffer.DebounceElapsed` | src/TextDeltaBuffer.ts:37-39 | a fired timer flushes and leaves the handle stale |
| `TextDeltaBuffer.RunGood` | src/TextDeltaBuffer.ts:18-73 | after any sequence of operations: chunks and buffer are what was written; no chunk is empty or 80 or more longer than the write that ended it; a chunk was ended by a write iff it completes a line, a sentence or eighty characters; a non-empty buffer completes none of these and has exactly one pending timer |
| `TextDeltaBuffer.DisposeDeliversAll` | src/TextDeltaBuffer.ts:48-51 | a final dispose delivers everything written, in order, and leaves no timer |
| `EnvFile.ParseEnvFile` | src/envFile.ts:1-37 | the line loop computes the specified map |
| `EnvFile.LastLineWins` | src/envFile.ts:4-34 | a variable has the value of the last line that sets it, and a key that no line sets is absent |
| `EnvFile.SpacedEntry` | src/envFile.ts:5-15 | white space around a line, its key and its value does not count |
| `EnvFile.QuotesComeOff` | src/envFile.ts:16-33 | a single-quoted value is read as what is between the quotes, a double-quoted one with its escapes undone |
| `EnvFile.SerializeEnvFile` | src/envFile.ts:39-51 | header, separator line and one entry per key, in any given key order |
| `EnvFile.PrintedShape` | src/envFile.ts:39-51 | the file is the header, an empty line unless it ends in one, and a line key=value per key, each with a newline |
| `EnvFile.LinesOutweigh` | src/envFile.ts:5-35 | the variables lines set never outweigh the lines, and if they weigh as much, every key and value fits in a line |
| `EnvFile.AnyValueCanBeQuoted` | src/envFile.ts:15-33 | any value at all has a one-line double-quoted form that is read back as that value |
| `EnvFile.RoundTripIffAllFit` | src/envFile.ts:1-51 | for every map, key order and comment header, parsing the printed file gives the map back iff all keys and values fit |

## Assumptions

- The merger's verifier does not move HEAD, snapshots and rebuilds keep the source commit, and the
  landing coordinator lands the candidate it is given.
- Repair fingerprints and outbox ids are injective in what they hash; outbox items are listed in
  enqueue order.
- Task ids on a board are distinct where a lemma says so.
- `git merge --ff-only` is atomic, and the owning worktree keeps its branch checked out from
  inspection to merge.
- Timers fire at exactly their due time.

## Left out

- Mergers without an integration, and the legacy result mapping around them.
- More than one Hub projecting the same outbox at a time; enqueueing during a pass.
- Timestamps, messages, progress events, publication attempts and the inside of the landing queue and coordinator.
- Waiting for required publication is one oracle answer before closing.
- `createHeldWorktreeLease`: a handle that remembers what to release; acquisition and release are modelled without it.
- Lease contents beyond branch and pid; I/O failures other than a refused call in `LeaseProtocol`, and all of them in `LeaseStore`.
- LeaseStore.LiveLeaseIsKept: recovery and creation are atomic there; what interleaving breaks is `LeaseProtocol.LiveLeaseCanBeLost`.
- Planner candidates' display fields, the parser of described blockers, the tracker query and the parsing of planner output: inputs of the model.
- A limited batch with a negative limit; the command line admits one to ten.
- Prompt warnings about unused arguments, the listing of missing keys, command timeouts as such and which of several failing commands is reported.
- PromptArguments.SubstitutePromptArgs: what keys resolve to through plain-object inheritance is part of its argument map.
- The abort signal and what happens after the idle timeout has fired; iteration and session handling of the orchestrator.
- The sort order of env keys: the round trip is proved for every order.
- Masking of env values, sandbox lifecycles, worktree creation, agents, user interface.
