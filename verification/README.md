# Branchwork server: a verified model of its protocols

Branchwork's server runs coding agents over a plan of tasks, merges their branches, waits for CI and decides what to run
next. This project models the parts of the server whose correctness is not visible in any single function, and proves what
they promise for every input, every answer of the outside world and every interleaving.

| module | models | form |
|---|---|---|
| `FlatGraph`, `Lines`, `Kahn`, `DagPlan`, `SubPlanGraph`, `SubPlans`, `PhasePlan`, `PhaseOrder`, `ConvertedNodes`, `FifoPhases` | the DAG engine of `dag.rs` and the scheduler of `dag_scheduler.rs`: Kahn's algorithm, flattening of nested sub-plans, ready sets, runs over nested sub-plans, conversion of phase plans | methods with loops over maps and queues; readiness as functions |
| `AutoModeLoop`, `AutoMode` | the auto-mode loop of `auto_mode.rs` over the rows it keeps: deferral, drain, flush, gate, merge, CI verdict, recovery agents | class `Loop`, each handler proved equal to a specification function of `AutoMode` |
| `Batches`, `PlanScopes`, `Decisions`, `NoLimbo`, `Recovery`, `Completions`, `Boundary`, `CadenceRuns`, `CadenceSteps`, `Cadence`, `Stranded` | what is proved about those specification functions, over single calls and whole runs | lemmas |
| `TwoHandlers`, `AloneSteps`, `OneHandler`, `TwoBoundaries` | two boundary handlers at once, over the branch reads, git commands and table writes of each merge | state machine over interleaved handlers |
| `CiWait` | the CI poll loop | method |
| `FixAttempts`, `FixAttemptBounds` | the read-compare-insert race on fix attempts | state machine over interleaved handlers |
| `PushLock` | the per-branch push lock with its time-to-live | classes, and a state machine over all runs |
| `TaskIds`, `GlobSpelling`, `Globs` | suffix routing of task ids, roll-up of fix attempts onto tasks, with SQLite's GLOB | functions, methods |
| `Artifacts`, `NodeGraph`, `WakeUp`, `WakeUpSchedules`, `WakeUpRuns`, `WakeUpRest`, `WakeUpProgress`, `WakeUpPlans` | cross-plan artifacts: the two tables, and the concurrent wake-up protocol over what the nodes of each plan wait for | class; state machine |
| `CiRecords`, `CiEvents`, `CiOutcomes`, `CiSteps`, `CiPasses`, `CiAlone` | CI rows: polling, both backfills, failure events; the same passes interleaved row by row, and put together again | class `Store`, specification functions, runs; state machine |
| `Csv`, `ShellQuote`, `Truncate` | the three codecs, against independent readers (RFC 4180 section 2, POSIX.1-2017 Shell Command Language sections 2.2.1 and 2.2.2, RFC 3629 section 3) | functions; methods with loops |
| `Text`, `Util` | sequences, decimal numerals, substring search | |

How the outside is modelled. Git, the gate's checks, CI, the clock and the fresh tokens are arbitrary values handed to each
call (`World`, `Outside`); every theorem holds for all of them unless it names a condition. Tables are maps and sequences; an
id is a position, so rows are in order of their start. A handler of the auto-mode loop is one atomic step; where the
interleaving matters (fix attempts, the wake-up protocol, the CI passes, the push lock, two boundaries at once) the steps are
modelled one by one.
Where a module has a class or a method, its postcondition ties it to a specification function, and the lemmas are about that
function.

What the proofs found. These are true of the code, and stated as theorems:

- A phase or plan lands as one batch exactly when, at every completion but the last, some other task of it is not yet recorded
  as done (`Cadence.BatchesExactly`). Runs with one agent at a time meet the condition (`Cadence.OneAtATimeBatches`). Two
  agents that report their own tasks before either completion is handled split the batch, with a CI trigger each
  (`Cadence.EarlyReportsSplitBatch`).
- The cap on recovery bounds attempt rows always, but agents only up to the cap times the processes that handle the task; so
  it bounds agents exactly when at most one process does, or it is zero (`FixAttemptBounds.CapBoundsAgentsExactly`).
- When an insert finds its attempt number taken, two agents share a row, which keeps the one stored last, and the completion of
  the other is dropped; otherwise every completion is found (`FixAttemptBounds.CompletionsFoundExactly`).
- A plan that consumes its own output can wait for ever on an input that is there. This happens exactly when an Init gate
  with such an input, and no hopeless one, and some End gate of its plan can both run without the Init gate being approved
  (`WakeUpRuns.NoLostWakeUpExactly`). A dependency in between does not prevent it: whoever reports the task in between as
  done lets the End gate run (`WakeUpRuns.TaskBetween`).
- An operator's approval of a gate is overwritten when the gate's own check, already under way, fails afterwards; this can
  happen to exactly the Init gates that can run and have no hopeless input (`WakeUpRuns.ApprovalCanBeOverwritten`).
- A pass that read a CI row before its verdict writes over that verdict (`CiPasses.VerdictIsFinalExactly`; with the one poller
  and the one backfill, `CiPasses.PollerOverwritesVerdict`). The backfill of missing rows leaves one row for a commit exactly
  when nobody adds one between its look and its insert (`CiPasses.FillIsFirstExactly`, `CiPasses.PushDuringFill`).
- Validation accepts plans that cannot finish. A validated plan can finish exactly when nobody waits for themselves once
  sub-plans wait for their children and children for what their sub-plan depends on (`SubPlans.FinishesExactly`,
  `SubPlans.ValidatedButStuck`).
- There is no lock around the read of a branch, its merge and its deletion. Two boundary handlers that share a sibling both
  land it if and only if both count its commits before either merges it and both merge it before either deletes it
  (`TwoBoundaries.LandsInBothExactly`): nobody notices then, and both push (`TwoBoundaries.SharedSiblingUnnoticed`). In every
  other interleaving one of the two finds it gone and pauses the plan, although git refused nothing
  (`TwoBoundaries.BothLandExactly`). Without worktrees the first case cannot occur (`TwoBoundaries.OnlyWithWorktrees`).
- A CI row without a commit id stays open for ever (`CiRecords.NoCommitStaysOpen`).
- With duplicate ids and no cycle, Kahn's check still reports a cycle, and names no node (`Kahn.ValidateFlatGraph`).
- Phase order survives conversion in every ready-driven run exactly when no phase is empty, or all are
  (`PhaseOrder.PhaseOrderExactly`); in the order that validation returns, exactly when no phase is empty, or all tasks are in
  the first phase and depend on nothing but init (`FifoPhases.FifoPhaseOrderExactly`).
- A batch in which two rows share a branch, such as a retry on the same branch, fails at the second one and pauses the plan,
  although git refused nothing (`Batches.BatchLandsExactly`, `Boundary.SharedBranchPauses`).
- A trigger whose gate fails, whose drain stops, or whose own merge does not land is left neither merged nor deferred
  (`Stranded.LeftExactly`). No later drain or flush lists it, until its own machine runs again and defers it
  (`Stranded.LeftStaysOut`, `Stranded.OnlyItsMachineDefers`).
- A task `t` and its recovery ids reach their handlers exactly when `t-` contains neither `-resolve-` nor `-gate-fix-`, and `t`
  neither contains `-fix-` nor ends in `-gate`; every other task id is misrouted (`TaskIds.RoutingExactly`).
- The gate-approval lookup also finds nodes below a node that is no sub-plan, which the validator never sees
  (`DagPlan.FindNodeAgreesWithFlattening`).
- A truncated text is longer than the cap when the cap is below the marker's length (`Truncate.CapIsHonouredExactly`).

## Model

Rows marked **Main** are the main results; the others are the parts they rest on.

| member | source | states |
|---|---|---|
| `Kahn.ValidateFlatGraph` | server-rs/src/dag.rs:279-340 | **Main.** Ok exactly when every dependency exists, ids are distinct and a rank function exists; the order is then a permutation with dependencies first, in which a node comes later only if it got ready no earlier, and nodes that got ready together stand in declaration order; a dangling report names the first dangling reference; a cycle report names exactly the greatest set in which everyone waits on a member, and it is empty exactly when there is no cycle |
| `Kahn.FindDangling` | server-rs/src/dag.rs:280-291 | finds the first reference to a missing id, if and only if there is one |
| `Kahn.BuildGraph` | server-rs/src/dag.rs:293-305 | in-degrees and adjacency count every dependency with multiplicity |
| `Kahn.InitialQueue` | server-rs/src/dag.rs:307-312 | the queue holds exactly the ids without open dependencies, in whatever order the map yields them |
| `Kahn.Relax` | server-rs/src/dag.rs:317-323 | no in-degree underflows; each drops by the number of edges from the ordered node, and exactly the ids reaching zero are enqueued |
| `Kahn.Order` | server-rs/src/dag.rs:314-324 | when the queue runs dry the ordered ids are closed under dependencies and what is left has positive in-degree |
| `Kahn.Outcome` | server-rs/src/dag.rs:326-337 | the leftovers are the greatest stuck set, and empty exactly for ranked graphs |
| `Kahn.AcyclicIffNoCycle` | server-rs/src/dag.rs:326-337 | a rank function exists exactly when no closed walk along dependencies does, so "contains a cycle" is the truth |
| `Kahn.StuckHasCycle` | server-rs/src/dag.rs:326-337 | every non-empty stuck set contains an actual cycle |
| `Kahn.TopoOrderGivesRank` | server-rs/src/dag.rs:279-340 | any dependency-respecting order of the ids is a witness of acyclicity |
| `Kahn.FifoFrom` | server-rs/src/dag.rs:307-312 | for every closed acyclic graph and every order of the nodes without dependencies, some such order of all nodes starts with it |
| `Kahn.FifoDetermined` | server-rs/src/dag.rs:307-324 | and only one: two such orders are equal if they agree on the nodes without dependencies, so the hash map decides nothing else |
| `DagPlan.FlattenNodes` | server-rs/src/dag.rs:240-276 | produces the entry of every node at every sub-plan level, with siblings scoped and foreign names left as written |
| `DagPlan.VisitsByLevel` | server-rs/src/dag.rs:240-276 | a flattened entry stems from a node of this level or from inside one of its sub-plans, and nothing else |
| `DagPlan.ValidateDag` | server-rs/src/dag.rs:233-237 | **Main.** validation of a plan is validation of its flattened graph, with the order its queue yields, and the first dangling reference or the greatest stuck set reported likewise |
| `DagPlan.ReadyRefinesFlatGraph` | server-rs/src/dag.rs:510-553 | **Main.** over all nesting levels the ready functions return exactly the actionable nodes not done whose scoped dependencies are done |
| `DagPlan.SomeNodeIsReady` | server-rs/src/dag.rs:510-553 | **Main.** in a validated plan whose unfinished nodes are all actionable, some node is ready until everything is done |
| `DagPlan.RunIsDependencyClosed` | server-rs/src/dag.rs:510-553 | every ready-driven run repeats no node, respects dependencies, and is no longer than the plan |
| `DagPlan.ReadyRunsAreTopologicalOrders` | server-rs/src/dag.rs:510-553 | **Main.** the complete ready-driven runs are exactly the topological orders, and every incomplete one can go on |
| `SubPlanGraph.ProgressMeaning` | server-rs/src/dag_scheduler.rs:348-469 | over all nesting levels the scheduler can start or complete exactly the nodes none of whose needs is open: own dependencies and those of the sub-plans around, or the children |
| `SubPlans.StopsExactly` | server-rs/src/dag_scheduler.rs:348-620 | **Main.** a run of a validated plan cannot go on exactly when what is left is the greatest set of nodes waiting on one another |
| `SubPlans.FinishesExactly` | server-rs/src/dag_scheduler.rs:497-585 | **Main.** a validated plan can finish if and only if the graph of who waits for whom, sub-plans for their children and children for what is around, has no cycle; then every run that cannot go on has finished |
| `SubPlans.ValidatedButStuck` | server-rs/src/dag.rs:233-237 | validation accepts a plan that cannot finish: a child that waits for a node which waits for the sub-plan |
| `DagPlan.FindNodeAgreesWithFlattening` | server-rs/src/dag.rs:483-500 | looking up a scoped id succeeds exactly for the ids of the flattening and of nodes hidden below a node that is no sub-plan; without a hidden one it finds the first node that flattening gives that id |
| `DagPlan.CollectInitGateIds` | server-rs/src/artifacts.rs:215-232 | appends exactly the scoped ids of the plan's Init gates, in flattening order |
| `PhasePlan.ParsedPlanToDag` | server-rs/src/dag.rs:348-467 | the loop over phases builds the converted node list |
| `PhasePlan.ConvertPhase` | server-rs/src/dag.rs:377-422 | one phase: explicit dependencies win, otherwise the previous phase's tasks, otherwise init |
| `PhaseOrder.WellFormedPlanValidates` | server-rs/src/dag.rs:348-467 | **Main.** distinct numbers and dependencies on init or earlier tasks: declaration order is a topological order, so the plan validates |
| `PhaseOrder.InitIsOnlySource` | server-rs/src/dag.rs:384-401 | without empty phases, init is the only node without dependencies |
| `PhaseOrder.InitIsFirst` | server-rs/src/dag.rs:352-401 | and so comes first in every order of a ready-driven run |
| `PhaseOrder.EndIsLast` | server-rs/src/dag.rs:424-452 | end comes last in every order of a ready-driven run |
| `PhaseOrder.PhasesStayInOrder` | server-rs/src/dag.rs:384-394 | every order of a ready-driven run lists the phases one after the other |
| `PhaseOrder.OrphanedTaskGoesFirst` | server-rs/src/dag.rs:387-394 | a task after an empty phase loses its dependencies: some ready-driven run starts with it, before init |
| `PhaseOrder.EndGoesEarly` | server-rs/src/dag.rs:425-430 | with an empty last phase, some ready-driven run passes end before every task |
| `PhaseOrder.PhaseOrderExactly` | server-rs/src/dag.rs:348-467 | **Main.** every ready-driven run keeps init, phases and end in order if and only if no phase is empty or all are |
| `FifoPhases.FifoPhaseOrderExactly` | server-rs/src/dag.rs:307-324 | **Main.** every order that validation can return keeps init, phases and end in order if and only if no phase is empty, or all tasks are in the first phase and depend on nothing but init |
| `FifoPhases.SameOrderEveryTime` | server-rs/src/dag.rs:307-324 | without empty phases validation returns the same order whatever the hash map does |
| `AutoModeLoop.Loop.Run` | server-rs/src/auto_mode.rs:2053-2336 | **Main.** the state machine turns the rows into those of its specification, with exactly one ending, CI awaited exactly when the batch landed, and nothing changed for a plan that is off or paused |
| `AutoModeLoop.Loop.ListDeferred` | server-rs/src/auto_mode.rs:1776-1807 | last-write-wins map and removal by declaration order give declaration order, one row per task, its most recent one, no task missed |
| `AutoModeLoop.Loop.MergeBranchOf` | server-rs/src/api/agents.rs:778-1069 | landing, conflict hand-off and failure of one merge, and all it writes |
| `AutoModeLoop.Loop.TryResolver` | server-rs/src/api/agents.rs:1092-1180 | a resolver only for a task's own branch, within the cap, while auto-mode is on; attempt recorded, both rows held |
| `AutoModeLoop.Loop.RunMergeStep` | server-rs/src/auto_mode.rs:1392-1529 | merged and no longer deferred, paused with the matching reason, or left to the resolver |
| `AutoModeLoop.Loop.MergeList` | server-rs/src/auto_mode.rs:1836-1854 | the loop over the list stops at the first row that does not land |
| `AutoModeLoop.Loop.DrainDeferred` | server-rs/src/auto_mode.rs:1817-1855 | the drain succeeds exactly when its whole list landed |
| `AutoModeLoop.Loop.FlushDeferred` | server-rs/src/auto_mode.rs:1957-2024 | **Main.** returns exactly the landed prefix and whether it stopped; one push exactly when the whole non-empty list landed |
| `AutoModeLoop.Loop.GateFailedFor` | server-rs/src/auto_mode.rs:2114-2265 | a gate fix on the same branch within its cap and with a recipe, otherwise a pause |
| `AutoModeLoop.Loop.SpawnFix` | server-rs/src/auto_mode.rs:3215-3327 | the next CI fix with its own branch and attempt row, or a pause |
| `AutoModeLoop.Loop.OnVerdict` | server-rs/src/auto_mode.rs:2312-2335 | what each CI outcome leads to |
| `AutoModeLoop.Loop.ResolverDone` | server-rs/src/auto_mode.rs:463-588 | closes the attempt, then re-runs the machine for the task's own agent |
| `AutoModeLoop.Loop.RerunTask` | server-rs/src/auto_mode.rs:386-432 | the machine runs for the most recent agent of the task itself, if any |
| `AutoModeLoop.Loop.FixDone` | server-rs/src/auto_mode.rs:2877-3050 | a finished fix: merge, wait, close the attempt, complete the task or go on |
| `AutoModeLoop.Loop.AgentCompleted` | server-rs/src/auto_mode.rs:295-361 | **Main.** off or paused plans ignore completions; otherwise each kind of agent reaches its handler, and no deferred row is forgotten |
| `Batches.ListIsExact` | server-rs/src/auto_mode.rs:1733-1807 | the drain list: declaration order, one row per task, its most recent drainable one, no task missed |
| `Batches.BatchLandsPrefix` | server-rs/src/auto_mode.rs:1836-1854 | for all merge outcomes a batch lands a prefix of its list, each branch once and in order, then is done or stopped by a pause or a resolver; what stops it says why |
| `Batches.BatchPushes` | server-rs/src/auto_mode.rs:1836-1838 | a drain never triggers CI; a batch that pushes its last merge triggers it once, exactly when it lands as a whole |
| `Batches.BatchLandsExactly` | server-rs/src/api/agents.rs:986-995 | **Main.** if git refuses nothing, a batch lands as a whole if and only if every row has a branch and no two share one |
| `Batches.FlushMeaning` | server-rs/src/auto_mode.rs:1957-2024 | **Main.** a flush lands a prefix of all deferred rows; one CI trigger for the whole trunk exactly when the whole non-empty list landed |
| `Batches.DeferredOnlyLandsOrResolves` | server-rs/src/auto_mode.rs:1421-1433 | **Main.** after any handler or flush, a row that is no longer deferred has landed or a resolver was started for its task |
| `NoLimbo.MachineNeverInLimbo` | server-rs/src/auto_mode.rs:2053-2336 | **Main.** off or paused: nothing changes; otherwise exactly one of deferred-and-advanced, merged-and-advanced, paused, recovery started, cancelled; CI is awaited exactly when the batch landed, trigger last |
| `NoLimbo.DrainThenTrigger` | server-rs/src/auto_mode.rs:2270-2298 | the trigger is merged only after all its siblings landed, and otherwise the plan pauses or a resolver starts |
| `Decisions.DueExactly` | server-rs/src/auto_mode.rs:625-698 | **Main.** the cadence gate lets a merge through exactly when the cadence is per task, or the plan loads, declares the task, and every other task of its first owning phase (per plan: of all phases) is completed or skipped |
| `Decisions.DeferredExactly` | server-rs/src/auto_mode.rs:1640-1709 | otherwise the machine marks its row deferred, its task completed and advances, and changes nothing else |
| `Decisions.DrainedExactly` | server-rs/src/auto_mode.rs:1733-1807 | **Main.** a boundary drains exactly the deferred rows with a branch, other than the trigger, that are the last such row of their task, for the tasks of the same phase or of the plan, and none under the task cadence |
| `Decisions.FlushedExactly` | server-rs/src/auto_mode.rs:1889-1950 | a flush covers those of every declared task |
| `Decisions.MergedInPlanOrder` | server-rs/src/auto_mode.rs:1733-1807 | a flush and a drain of the plan go phase by phase, and in each in declaration order |
| `Decisions.MergedInPhaseOrder` | server-rs/src/auto_mode.rs:1733-1807 | a drain of a phase goes in declaration order |
| `Decisions.GateFixReenters` | server-rs/src/auto_mode.rs:386-436 | a finished gate fix leaves what the machine leaves for the most recent work agent of its task, and nothing changes without one |
| `Decisions.ResolverReenters` | server-rs/src/auto_mode.rs:463-560 | **Main.** a finished resolver closes its attempt as resolved or not and leaves what the machine leaves for the most recent work agent of the attempt's task; nothing changes without an attempt or such an agent |
| `NoLimbo.EndingFitsCause` | server-rs/src/auto_mode.rs:2073-2335 | **Main.** which ending it is, from what a caller can see: no merge due, deferral; checks configured that fail or have no branch to run on, a gate fix or a pause, with nothing merged, pushed or awaited, and never otherwise; batch landed, as CI says; else the merge that stopped it, those before landed: failed without a branch of its own, and on a conflict a resolver, or a pause that says whether none could work or the cap was reached |
| `NoLimbo.FixNeverInLimbo` | server-rs/src/auto_mode.rs:2877-3050 | a finished fix closes its attempt and ends in exactly one of task completed, paused, next fix, cancelled; nothing changes when the plan is off or paused or no attempt is on record |
| `Stranded.LeftExactly` | server-rs/src/auto_mode.rs:2114-2299 | **Main.** when the machine leaves its trigger neither merged nor deferred, exactly: at the boundary, if the gate fails, or if the drain stops or the own merge does not land, unless a drained sibling landed the branch; the plan is then paused or a recovery agent started |
| `Stranded.OnlyItsMachineDefers` | server-rs/src/auto_mode.rs:2073-2102 | a row that is not deferred becomes so in a step exactly when that step runs the machine for this row short of a boundary |
| `Stranded.LeftStaysOut` | server-rs/src/auto_mode.rs:1733-1807 | **Main.** over every run of completions, flushes, starts, status writes and switches without such a step, a left trigger is in no list of any drain or flush |
| `Stranded.StoppedDrainStrandsTrigger` | server-rs/src/auto_mode.rs:2273-2281 | after a stopped drain the trigger is not deferred, not advanced, and in no list of any later state of such a run |
| `Recovery.HandlerJoins` | server-rs/src/auto_mode.rs:3224-3270 | every handler starts at most one agent, and only within the budget |
| `Recovery.JoiningCostsOne` | server-rs/src/agents/mod.rs:737-746 | CI fixes and resolvers share the cap, a gate fix has its own unit; each start uses up exactly one unit of its task |
| `Recovery.AgentsPlusBudgetIsConstant` | server-rs/src/auto_mode.rs:2762-2777 | **Main.** over every run, automatic agents of a task plus its remaining budget never change |
| `Recovery.AutomaticAgentsAreBounded` | server-rs/src/auto_mode.rs:1203-1234 | from a fresh plan no task ever gets more automatic agents than the cap plus one |
| `Completions.RunsKeepRegistered` | server-rs/src/auto_mode.rs:2801-2809 | over every run, each CI fix and each resolver has its attempt row, and each automatic agent a work agent of its task |
| `Completions.EveryCompletionEnds` | server-rs/src/auto_mode.rs:295-361 | **Main.** from a fresh plan, whatever ran before, a completion that finds the plan live never goes unnoticed: work agents, gate fixes and resolvers end in exactly one of the machine's endings for the task's own agent, CI fixes in exactly one of theirs, with the attempt closed |
| `Boundary.BoundaryExactly` | server-rs/src/auto_mode.rs:625-698 | a completion is at the boundary exactly when the scope's other tasks are completed or skipped |
| `Boundary.EveryPhaseIsAScope` | server-rs/src/auto_mode.rs:671-681 | with distinct task numbers every phase is a scope of the phase cadence |
| `Boundary.BoundaryLands` | server-rs/src/auto_mode.rs:2268-2335 | a boundary at which nothing fails lands its list and then the trigger, in order, clears exactly their branches and their deferral, pushes once and advances |
| `Boundary.TaskCadenceLands` | server-rs/src/auto_mode.rs:628-632 | under the task cadence a completion at which nothing fails lands exactly its own branch, pushes once, drains nobody and advances |
| `Boundary.SharedBranchPauses` | server-rs/src/api/agents.rs:986-995 | **Main.** with everything else going well, a boundary merges and advances if and only if all rows of its batch have branches of their own; otherwise it pauses |
| `Cadence.BatchesExactly` | server-rs/src/auto_mode.rs:2073-2102 | **Main.** over every run in which agents start, report and complete in any order: all finished tasks land as one batch, the others in declaration order and the last one last, each once, with one CI trigger and no row left waiting, if and only if at every completion but the last some other task of the scope is not yet recorded as done |
| `Cadence.DefersUntilLast` | server-rs/src/auto_mode.rs:1640-1709 | until then nothing lands and nothing is pushed, every finished worker waits, and every completion advances |
| `Cadence.OrderDoesNotMatter` | server-rs/src/auto_mode.rs:2268-2299 | **Main.** two such runs with the same workers and the same last completion leave the same trunk and pushes |
| `Cadence.OneAtATimeBatches` | server-rs/src/agents/mod.rs:2413-2436 | **Main.** the runs of the plan's own advance, in which an agent starts only while none is at work, and only on a task not recorded as done, meet the condition and so land as one batch, although the agents report their own tasks first |
| `Cadence.EarlyReportsSplitBatch` | server-rs/src/agents/mod.rs:2208-2230 | the input that misses it: two agents report their own tasks before either completion is handled, and each branch lands alone, with its own CI trigger |
| `CadenceRuns.DrainIsDeferred` | server-rs/src/auto_mode.rs:1733-1807 | a boundary lists exactly the workers deferred since the one before |
| `TwoBoundaries.LandsInBothExactly` | server-rs/src/api/agents.rs:784-817 | **Main.** two boundary handlers at once, access by access, whatever git answers: a branch counts as landed in both if and only if both read it and count its commits before either merges it, and both merge it before either deletes it |
| `TwoBoundaries.BothLandExactly` | server-rs/src/git_helpers.rs:202-216 | **Main.** in every interleaving, git refusing nothing of its own accord: both land their batches if and only if no batch has two rows of one branch or a row without, and every branch in both batches is done side by side in that sense; otherwise one stops and the plan pauses |
| `TwoBoundaries.StopsExactlyAt` | server-rs/src/api/agents.rs:986-995 | the same access by access: nobody stops if and only if every row still has its branch when it is read, commits ahead of trunk when they are counted, and an existing branch when it is merged |
| `OneHandler.HandlerIsMachine` | server-rs/src/auto_mode.rs:2268-2299 | **Main.** a handler that nobody interrupts leaves, access by access, what the state machine leaves in one step, whatever git answers |
| `TwoBoundaries.OnlyWithWorktrees` | server-rs/src/git_helpers.rs:243-252 | without worktrees no branch is ever done side by side, since the first merge deletes it |
| `TwoBoundaries.DisjointExactly` | server-rs/src/git_helpers.rs:243-252 | so there both land exactly when no two rows of the two batches share a branch |
| `TwoBoundaries.SharedSiblingUnnoticed` | server-rs/src/git_helpers.rs:186-295 | **Main.** with worktrees: two handlers that list the same deferred sibling have a run in which nobody pauses, the sibling counts as landed in both, trunk has it once, and both push |
| `TwoBoundaries.ThreeUnnoticed` | server-rs/src/auto_mode.rs:2270-2281 | that run from a concrete state |
| `TwoBoundaries.ThreeShareSibling` | server-rs/src/auto_mode.rs:625-698 | a state in which two completions are at the boundary and list the same sibling |
| `CiWait.WaitForCi` | server-rs/src/auto_mode.rs:2582-2641 | **Main.** ends with the first round that decides, before the timeout for a round more; every earlier round was uncancelled, unfinished and in time. Green exactly on completed success, red exactly on completed failure, cancelled or timed_out, stalled exactly on any other completed conclusion or past the deadline, cancelled exactly when cancelled before the look or in the sleep |
| `CiWait.GreenExactly` | server-rs/src/auto_mode.rs:2650-2669 | green is read only from a completed aggregate that concludes with success |
| `FixAttempts.AttemptsAreGaplessAndCapped` | server-rs/src/auto_mode.rs:2762-2777 | under every interleaving of count, compare and insert, a task's attempt numbers are exactly 1 to k with k at most the cap |
| `FixAttemptBounds.AgentsWithinCapTimesHandlers` | server-rs/src/auto_mode.rs:3224-3270 | **Main.** in every interleaving a task gets at most as many agents as the cap times the processes that handle it |
| `FixAttemptBounds.CapTimesHandlersIsAttained` | server-rs/src/auto_mode.rs:3224-3270 | that bound is attained for every cap and every number of processes |
| `FixAttemptBounds.CapBoundsAgentsExactly` | server-rs/src/auto_mode.rs:2762-2777 | **Main.** the cap bounds the agents of a task, and not only its attempt rows, if and only if at most one process handles the task or the cap is zero |
| `FixAttemptBounds.SequentialAgentsAreCapped` | server-rs/src/auto_mode.rs:3224-3270 | when the handlers of one task take turns, its agents never exceed the cap, whatever handlers of other tasks are under way |
| `FixAttemptBounds.HandlerAlone` | server-rs/src/auto_mode.rs:3224-3270 | with nobody in between, a handler of a CI fix or a resolver starts the next attempt's agent and records it exactly below the cap, and changes nothing at the cap |
| `FixAttemptBounds.CompletionsFoundExactly` | server-rs/src/auto_mode.rs:2801-2809 | **Main.** when all handlers are done, every agent's completion finds its attempt row if and only if no insert of an attempt found its number taken |
| `PushLock.LockTable.TryAcquire` | server-rs/src/db.rs:599-683 | granted exactly when the branch has no row within its time-to-live, else the holder's row is returned |
| `PushLock.LockTable.Release` | server-rs/src/db.rs:687-695 | deletes the row only for its own token |
| `PushLock.PushLockGuard.Forget` | server-rs/src/auto_mode.rs:174-177 | hands the token over; nothing is released |
| `PushLock.PushLockGuard.Release` | server-rs/src/auto_mode.rs:182-188 | releases at most once |
| `PushLock.PushLockGuard.Drop` | server-rs/src/auto_mode.rs:191-197 | releases unless forgotten |
| `PushLock.MutualExclusion` | server-rs/src/auto_mode.rs:118-128 | **Main.** at most one holder per branch is within its time-to-live, and the row is its own |
| `PushLock.LateDropIsHarmless` | server-rs/src/audit.rs:134-145 | an evicted holder's release, however late, removes nobody's row |
| `PushLock.GrantedExactlyWhenFree` | server-rs/src/db.rs:599-683 | **Main.** an acquire is granted exactly when nobody holds the branch within the time-to-live |
| `PushLock.WaitForPushLock` | server-rs/src/auto_mode.rs:229-264 | takes the first grant; gives up only after the timeout and never later than one poll after it |
| `TaskIds.ExtractOriginalTaskId` | server-rs/src/auto_mode.rs:367-371 | the text before the first gate-fix marker, if there is one |
| `TaskIds.RoutingExactly` | server-rs/src/auto_mode.rs:347-359 | **Main.** a task's own id and all its recovery ids reach their own handlers, and the base id is recovered, if and only if the base id is clean |
| `TaskIds.UncleanMisroutes` | server-rs/src/auto_mode.rs:347-349 | every other base id is misrouted: its own completion or its first CI fix's reaches a foreign handler |
| `TaskIds.RollsUpMeaning` | server-rs/src/ci.rs:1625-1633 | for a number without GLOB characters the pattern selects the task's own row and its fix attempts |
| `Globs.GlobExactly` | server-rs/src/ci.rs:1624-1633 | **Main.** SQLite's GLOB matches exactly the texts that fall into pieces as the pattern says: literals, any character, any text, and classes with ranges, a leading bracket, a trailing dash and negation |
| `Globs.EligibleExactly` | server-rs/src/ci.rs:1624-1633 | so a row counts for a task exactly when it is of the plan, not dismissed, and its id is the number or such a text followed by the fix marker |
| `TaskIds.SharedRowExactly` | server-rs/src/ci.rs:1625-1633 | when two tasks can share a row |
| `TaskIds.RollUpIsPartition` | server-rs/src/ci.rs:1606-1614 | **Main.** for tasks without fix markers and GLOB characters, a row rolls up onto at most one task |
| `TaskIds.AttemptRoundTrip` | server-rs/src/ci.rs:1679-1683 | parsing an attempt's id returns its number for exactly the 32-bit ones |
| `TaskIds.QueryLatest` | server-rs/src/ci.rs:1624-1650 | the highest-id undismissed row that the task's number or its GLOB pattern selects |
| `TaskIds.LatestPerTask` | server-rs/src/ci.rs:1615-1670 | **Main.** an entry for exactly the tasks with a row, describing the latest, with the attempt it came from |
| `Artifacts.Store.FirstUnsatisfiedInput` | server-rs/src/artifacts.rs:96-108 | none exactly when all inputs are satisfied, else the first missing one |
| `Artifacts.Store.RecordOutputArtifacts` | server-rs/src/artifacts.rs:144-172 | upserts every output and returns all names |
| `Artifacts.RecordingMeaning` | server-rs/src/artifacts.rs:144-172 | after recording, exactly the declared outputs and the old rows exist, with the right values |
| `Artifacts.RecordingIsIdempotent` | server-rs/src/artifacts.rs:136-150 | recording twice is recording once |
| `Artifacts.Store.FlipGates` | server-rs/src/artifacts.rs:262-275 | resets exactly the in-progress gates of the list |
| `Artifacts.Store.ResetPlan` | server-rs/src/artifacts.rs:247-282 | touches a plan only if all its inputs are satisfied, and then only its in-progress Init gates |
| `Artifacts.Store.ResetDependentInitGates` | server-rs/src/artifacts.rs:184-282 | **Main.** resets exactly the in-progress Init gates of other plans that depend on the producer and have all inputs; reports exactly those plans, however many files a plan has |
| `Artifacts.DependentPlans` | server-rs/src/artifacts.rs:184-212 | lists each plan that has an input from the producer once, never the producer itself |
| `WakeUp.RunsKeepInv` | server-rs/src/artifacts.rs:359-384 | every interleaving keeps: a gate left on inputs misses one or is announced |
| `WakeUpRuns.NoLostWakeUp` | server-rs/src/artifacts.rs:359-384 | in safe configurations no gate is left on satisfied inputs with nobody about to look |
| `WakeUpRuns.QuiescentGatesWaitForAReason` | server-rs/src/gates.rs:156-232 | **Main.** when all is quiet a gate in progress lacks an input, or has all and waits for approval, or was reported in progress by somebody |
| `WakeUpRuns.NoLostWakeUpExactly` | server-rs/src/artifacts.rs:184-282 | **Main.** with status reports on any nodes: every interleaving keeps every wake-up if and only if each Init gate has a hopeless input, or none of its own plan, or no End gate of its plan can run without its approval |
| `WakeUpRuns.UnsafeGateLosesWakeUp` | server-rs/src/dag.rs:510-523 | any other gate has a run that leaves it waiting for an input that is there |
| `WakeUpRuns.TaskBetween` | server-rs/src/api/plans.rs:3943-3967 | for an Init gate, a task and an End gate in a row: End can run without the gate being approved exactly when the task or the gate is reported as done without having run |
| `WakeUpRuns.StaysCompletedExactly` | server-rs/src/dag_scheduler.rs:64-97 | **Main.** in every reachable state a completed gate stays completed through every continuation without its retry or a report of its status, if and only if no executor of it that looked before there was an approval has all remaining inputs producible |
| `WakeUpRuns.ApprovalCanBeOverwritten` | server-rs/src/api/plans.rs:2213-2228 | **Main.** the approvals that a failing verdict can overwrite are those of exactly the Init gates that can run and have no hopeless input |
| `WakeUpProgress.OnlyConsumersReset` | server-rs/src/artifacts.rs:184-282 | in every interleaving a listener resets only gates of plans that declare an input from the plan that recorded, which is another one |
| `WakeUpProgress.FlipsExactly` | server-rs/src/artifacts.rs:245-282 | and there exactly the Init gates in progress |
| `WakeUpProgress.Settles` | server-rs/src/artifacts.rs:184-282 | in every run, from whatever state it has reached, some steps of the system alone, without operators, reports or starts, bring it to rest |
| `WakeUpProgress.WokenInTheEnd` | server-rs/src/artifacts.rs:184-282 | **Main.** in safe configurations a gate left on inputs that are all there, nobody at work on it, is reset that way: at rest it is pending |
| `WakeUpPlans.FinishingPlansRun` | server-rs/src/dag_scheduler.rs:356-469 | with what nodes wait for read off the node tree: in a validated plan that can finish every Init gate can run, and so can every End gate |
| `CiRecords.FinalExactlyWhenCompleted` | server-rs/src/ci.rs:395-414 | a normalised status is terminal exactly when the aggregate is completed |
| `CiRecords.ReadsExactly` | server-rs/src/ci.rs:395-410 | each status says which aggregates it is read from: failure exactly the four failing conclusions of a completed one, cancelled the four that call it off, unknown any other, running exactly in progress, pending any status but these two |
| `CiRecords.LiveOwner` | server-rs/src/ci.rs:776-799 | the most recently started live agent of the branch |
| `CiRecords.Store.RecordFailure` | server-rs/src/ci.rs:757-862 | inserts unless the pair is on file, and keeps pairs unique |
| `CiRecords.Store.Poll` | server-rs/src/ci.rs:439-627 | a pass over the snapshot moves the rows as specified and records the failures it sees |
| `CiRecords.Store.BackfillAggregates` | server-rs/src/ci.rs:954-1130 | looks every row with a commit up afresh, once per database |
| `CiRecords.Store.BackfillMissing` | server-rs/src/ci.rs:1187-1423 | works through the audited merges as specified |
| `CiRecords.PollMovesExactly` | server-rs/src/ci.rs:439-627 | when a poll moves a row: open, with a commit, and contradicted by a report, whose verdict, run and link it then carries, or too old without one, when it is given up |
| `CiRecords.EventsAtMostOnce` | server-rs/src/ci.rs:757-862 | over every run of polls, backfills, pushes and agent changes, one event per agent and run |
| `CiRecords.VerdictsAreFinal` | server-rs/src/ci.rs:439-627 | after the aggregate backfill, no run of passes ever changes a terminal row |
| `CiRecords.BackfillGainsExactly` | server-rs/src/ci.rs:1259-1350 | **Main.** however often the log repeats a merge, its commit gains one row if it had none and some lookup reports, else none |
| `CiRecords.BackfillIsIdempotent` | server-rs/src/ci.rs:1182-1187 | with the same answers a second pass changes nothing |
| `CiOutcomes.PollObservesExactly` | server-rs/src/ci.rs:552-606 | **Main.** an event for an agent and a run is on file after a poll exactly when it was before, or some open row with a commit, of a known project, got a completed report with one of the four failing conclusions and that run, and the agent is the last started of those at work on the row's branch |
| `CiEvents.PollEventsName` | server-rs/src/ci.rs:552-606 | and a new event names the plan, task and branch of such a row |
| `CiOutcomes.AggregatesRewriteExactly` | server-rs/src/ci.rs:954-1130 | the aggregate backfill writes its report's verdict, run and link to every row with a commit, open or not, and leaves the others alone |
| `CiOutcomes.AggregatesObserveExactly` | server-rs/src/ci.rs:954-1130 | its events are the old ones and those of the failures it is told of |
| `CiOutcomes.AggregatedOnce` | server-rs/src/ci.rs:1132-1150 | over every run of passes its flag is set exactly when it was before or the pass has run, and then another pass changes nothing |
| `CiEvents.AggregateEventsName` | server-rs/src/ci.rs:954-1130 | each naming the plan, task and branch of its row |
| `CiOutcomes.MissingRowsExactly` | server-rs/src/ci.rs:1259-1350 | every row the other backfill adds is for the first reported merge of a commit without a row, with its target branch and the verdict of the report |
| `CiOutcomes.MissingRowEntered` | server-rs/src/ci.rs:1259-1350 | and every such merge gets one |
| `CiOutcomes.MissingObserveExactly` | server-rs/src/ci.rs:1259-1423 | its events are the old ones and those of the failures among them |
| `CiEvents.MissingEventsName` | server-rs/src/ci.rs:1259-1423 | each naming the plan, task and target of its merge |
| `CiRecords.NoCommitStaysOpen` | server-rs/src/ci.rs:439-627 | a row without a commit is never touched, over every run: entered open, it stays open for ever |
| `CiAlone.PollAlone` | server-rs/src/ci.rs:439-627 | the row steps of a poll that nothing interrupts amount to the whole poll |
| `CiAlone.AggregatesAloneToTheEnd` | server-rs/src/ci.rs:954-1130 | and those of the aggregate backfill to the whole backfill, flag included |
| `CiAlone.FillAlone` | server-rs/src/ci.rs:1187-1423 | and the looks and inserts of the other backfill to the whole one |
| `CiPasses.EventsAtMostOnceInterleaved` | server-rs/src/ci.rs:757-862 | under every interleaving of passes and pushes, one event per agent and run |
| `CiPasses.VerdictIsFinalExactly` | server-rs/src/ci.rs:679-697 | **Main.** with the aggregate backfill done, a terminal row stays as it is in every interleaving if and only if no pass under way still has it to come and read it open, or re-reads verdicts |
| `CiPasses.PollerOverwritesVerdict` | server-rs/src/ci.rs:904-935 | one poller and the one aggregate backfill suffice: from an empty database, a run in which the poller writes over the verdict of the finished backfill |
| `CiPasses.RowsCounted` | server-rs/src/ci.rs:679-697 | every interleaving leaves as many rows of a commit as there were and were inserted |
| `CiPasses.FillIsFirstExactly` | server-rs/src/ci.rs:1259-1350 | **Main.** with any steps of others between its existence check and its insert, the backfill leaves exactly one row for the commit if and only if none of those steps adds one |
| `CiPasses.PushDuringFill` | server-rs/src/ci.rs:1259-1350 | from an empty database, a push in between leaves two |
| `Csv.ToCsv` | server-rs/src/audit.rs:518-536 | the parser reads back exactly the header and each entry's eight fields |
| `Csv.RunEscaped` | server-rs/src/audit.rs:538-544 | an escaped field, quoted or bare, reads back as itself |
| `Csv.RunText` | server-rs/src/audit.rs:518-544 | the reader state after the whole export |
| `Csv.ExportIsLossless` | server-rs/src/audit.rs:518-544 | **Main.** equal exports come from entries with equal fields |
| `ShellQuote.ShellSafeRoundTrip` | server-rs/src/credential_material.rs:430-433 | **Main.** the quoted text is one word equal to the original exactly when it has no NUL |
| `ShellQuote.SshCommandRoundTrip` | server-rs/src/credential_material.rs:269-283 | **Main.** the whole command splits into its fixed arguments with the path as one of them |
| `Truncate.FloorCharBoundary` | server-rs/src/auto_mode.rs:1157-1167 | the greatest boundary not above the index |
| `Truncate.CeilCharBoundary` | server-rs/src/auto_mode.rs:1169-1177 | the least boundary not below the index |
| `Truncate.CutAtBoundary` | server-rs/src/auto_mode.rs:1157-1177 | both halves of valid UTF-8 cut at a boundary are valid |
| `Truncate.TruncateOutput` | server-rs/src/auto_mode.rs:1134-1151 | short text unchanged; otherwise prefix, marker, disjoint suffix, valid UTF-8 |
| `Truncate.TruncationIsTight` | server-rs/src/auto_mode.rs:1134-1151 | **Main.** the result has between cap - 7 and cap bytes |
| `Truncate.CapIsHonouredExactly` | server-rs/src/auto_mode.rs:1134-1151 | **Main.** the cap is honoured if and only if nothing had to be cut or the marker alone fits; the result is valid UTF-8 in any case |

## Left out

- Git, `gh`, shells, processes, terminals, sockets and runner calls: each is an arbitrary answer or an atomic step.
- SQL text and SQLite errors: tables are maps and sequences, and writes whose errors the code ignores succeed.
- YAML, TOML and JSON parsing, prompt texts, log lines, broadcast payloads, audit rows, run links, workflow names and summaries.
- AutoMode: handlers are atomic, so changes by others during a merge or a CI wait are not modelled; a switched-off plan ends a wait through the cancelled answer.
- AutoMode: agent rows carry their base task and kind instead of a suffixed id; `TaskIds` proves when the two agree. LIKE wildcards and case folding in the count of gate fixes are not modelled.
- AutoMode: attempts number 1 to k per task is an invariant (`Recovery.Numbered`) of the loop; rows with the same start time are ordered by id.
- AutoMode: how a plan advances is not modelled beyond the call; the idle poller and the dirty-tree watcher are left out.
- Recovery.AgentsPlusBudgetIsConstant: handlers are atomic here; what racing handlers do to the cap is proved in `FixAttempts`.
- Recovery.AutomaticAgentsAreBounded: handlers are atomic here; with racing handlers the bound is `FixAttemptBounds.AgentsWithinCapTimesHandlers`.
- Completions.EveryCompletionEnds: handlers are atomic here; which completions are lost when handlers race is `FixAttemptBounds.CompletionsFoundExactly`.
- Cadence.BatchesExactly: covers one worker with a branch of its own per unfinished task, status writes that undo nothing, and successful gate, merges and CI; what a boundary does when one of these fails is `NoLimbo.EndingFitsCause`.
- Cadence.OneAtATimeBatches: the claim's two guards are premises on the run; choosing which ready task to claim is not modelled, and the agents that finish are those the run started.
- FixAttempts.AttemptsAreGaplessAndCapped: each read, insert, start and update is one step, and every insert succeeds.
- PushLock.LockTable.TryAcquire: the second read after a lost insert, which needs a writer outside the connection's lock, is not modelled; holder kind, pid and metadata are left out.
- PushLock.WaitForPushLock: time spent inside database calls is not counted.
- WakeUpRuns.NoLostWakeUp: every broadcast event is delivered; a lagging receiver that drops events is not modelled.
- WakeUpRuns.NoLostWakeUpExactly: which nodes get reported as done without having run is a parameter of each plan, and the status skipped counts as completed; plans do not change during a run.
- SubPlans.FinishesExactly: whatever starts completes in the end, and nobody else writes statuses; a gate that fails for ever is not modelled.
- TwoBoundaries.BothLandExactly: each of reading, counting, merging, clearing and deleting is one step, and deleting succeeds; two git commands at the same moment on one tree, which git may refuse, are an arbitrary answer of the merge. Gate, CI wait and resolvers' work around the merges are left out.
- TwoBoundaries.LandsInBothExactly: the same steps; a batch is listed once, when its handler begins.
- Stranded.LeftStaysOut: handlers are atomic here.
- TaskIds.RollsUpMeaning: task numbers with GLOB characters are excluded; what the pattern selects for them is `Globs.EligibleExactly`.
- Globs.GlobExactly: a class in which a dash stands elsewhere than in a range or at the end is excluded; one that is never closed matches nothing (`Globs.UnclosedMatchesNothing`).
- TaskIds.SharedRowExactly: task numbers with GLOB characters are excluded.
- TaskIds.RollUpIsPartition: task numbers with GLOB characters are excluded.
- CiRecords.VerdictsAreFinal: passes run one after the other here; `CiPasses.VerdictIsFinalExactly` is the interleaved form.
- CiRecords.BackfillGainsExactly: no row is pushed during the pass here; `CiPasses.FillIsFirstExactly` is the interleaved form.
- CiRecords: the 30-day window and the parsing of audit rows are applied before the list of merges is handed over.
- `hooks.rs`, `crypto.rs`, `config.rs`, `notifications.rs`, `persisted_settings.rs`, `project_scaffold.rs`, `file_watcher.rs`, `static_files.rs` and the web configuration: plumbing.
