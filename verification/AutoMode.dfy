/** The auto-mode loop of one plan, as a specification: cadence gate, gate before a merge, batch drain, CI verdict, and
    the recovery agents. Each handler is a function from the rows before to the rows after, given the answers of gate,
    git and CI (server-rs/src/auto_mode.rs, with the merge and its resolver hand-off of server-rs/src/api/agents.rs).
    AutoModeLoop has the handlers in the server's own form. */
module AutoMode {
  import opened Util
  import opened Text

  type Task = string
  type Branch = string

  /** An agents row's id is its position, so rows are in order of their start. */
  type AgentId = nat

  /** A task id is the task's own number, possibly with a recovery suffix (see TaskIds). */
  datatype Role = Work | GateFix(n: nat) | CiFix(n: nat) | Resolver(n: nat)

  datatype MergeStatus = NoStatus | Deferred | Held

  datatype Agent = Agent(task: Task, role: Role, branch: Option<Branch>, mergeStatus: MergeStatus)

  datatype TaskState = Completed | Skipped | Other

  datatype Cadence = PerTask | PerPhase | PerPlan

  datatype Reason =
    | GateFailed | MergeConflict | MergeFailed | ConflictUnresolved
    | CapReached | FixSpawnFailed | FixMergeFailed | CiStalled

  datatype AttemptOutcome = Green | Red | Stalled | Cancelled | MergeBroke | Resolved | Unresolved

  /** A task_fix_attempts row. */
  datatype Attempt = Attempt(task: Task, number: nat, agent: AgentId, outcome: Option<AttemptOutcome>)

  datatype State = State(
    enabled: bool,
    paused: Option<Reason>,
    agents: seq<Agent>,
    status: map<Task, TaskState>,
    attempts: seq<Attempt>,
    trunk: seq<Branch>,        // branches in the order they landed
    pushes: seq<nat>,          // per CI trigger, how much of the trunk it pushed
    awaited: seq<nat>,         // per wait for CI, the length of the trunk it waits for
    advances: seq<Task>)       // calls of try_auto_advance

  datatype GateAnswer = Pass | Fail

  /** What git makes of a merge; a runner may report a success without a commit id. */
  datatype MergeAnswer = Lands(sha: string) | Conflicts | Breaks

  datatype CiAnswer = CiGreen | CiNotConfigured | CiRed | CiStall | CiCancelled

  /** What one handler finds outside: the plan file if it loads, the configuration, and the answers of gate, git
      and CI. */
  datatype World = World(
    plan: Option<seq<seq<Task>>>,
    cadence: Cadence,
    cap: nat,
    hasChecks: bool,           // pre-merge checks are configured
    hasRecipe: bool,           // fixing is enabled and the failing check has a recipe
    resolvers: bool,           // worktrees are on and no runner does the merging
    gate: GateAnswer,
    merge: nat -> MergeAnswer, // by position in the handler's sequence of merges
    ci: CiAnswer,
    resolved: bool)

  predicate Enabled(s: State) {
    s.enabled && s.paused.None?
  }

  function Pause(s: State, reason: Reason): State {
    s.(paused := Some(reason))
  }

  function Advance(s: State, task: Task): State {
    s.(advances := s.advances + [task])
  }

  // ---------------------------------------------------------------- cadence

  function AllTasks(plan: seq<seq<Task>>): seq<Task> {
    if plan == [] then [] else plan[0] + AllTasks(plan[1..])
  }

  /** The first phase with the task. */
  function PhaseOf(plan: seq<seq<Task>>, task: Task): Option<seq<Task>> {
    if plan == [] then None else if task in plan[0] then Some(plan[0]) else PhaseOf(plan[1..], task)
  }

  predicate Done(status: map<Task, TaskState>, task: Task) {
    task in status && (status[task].Completed? || status[task].Skipped?)
  }

  predicate AllDone(status: map<Task, TaskState>, tasks: seq<Task>, completed: Task) {
    forall t :: t in tasks ==> t == completed || Done(status, t)
  }

  predicate ShouldMergeNow(s: State, w: World, completed: Task) {
    match w.cadence
    case PerTask => true
    case PerPhase =>
      w.plan.Some? && PhaseOf(w.plan.value, completed).Some?
      && AllDone(s.status, PhaseOf(w.plan.value, completed).value, completed)
    case PerPlan =>
      w.plan.Some? && completed in AllTasks(w.plan.value) && AllDone(s.status, AllTasks(w.plan.value), completed)
  }

  function Defer(s: State, id: AgentId): State
    requires id < |s.agents|
  {
    s.(agents := s.agents[id := s.agents[id].(mergeStatus := Deferred)],
      status := s.status[s.agents[id].task := Completed])
  }

  // ---------------------------------------------------------------- deferred rows in declaration order

  /** A row a drain may merge: deferred, its branch still there, and not the row that triggers the drain. */
  predicate Waiting(agent: Agent) {
    agent.mergeStatus.Deferred? && agent.role.Work? && agent.branch.Some?
  }

  predicate Drainable(agents: seq<Agent>, i: AgentId, task: Task, trigger: Option<AgentId>) {
    i < |agents| && Waiting(agents[i]) && agents[i].task == task && trigger != Some(i)
  }

  /** The most recent drainable row of a task among the first n. */
  function Latest(agents: seq<Agent>, n: nat, task: Task, trigger: Option<AgentId>): (r: Option<AgentId>)
    requires n <= |agents|
    ensures r.Some? ==> r.value < n && Drainable(agents, r.value, task, trigger)
                        && forall j :: r.value < j < n ==> !Drainable(agents, j, task, trigger)
    ensures r.None? ==> forall j :: 0 <= j < n ==> !Drainable(agents, j, task, trigger)
  {
    if n == 0 then None
    else if Drainable(agents, n - 1, task, trigger) then Some(n - 1)
    else Latest(agents, n - 1, task, trigger)
  }

  /** One row per task of the first n; a task number declared again is not listed again. */
  function Listed(agents: seq<Agent>, order: seq<Task>, n: nat, trigger: Option<AgentId>): (r: seq<AgentId>)
    requires n <= |order|
    ensures forall i :: 0 <= i < |r| ==> r[i] < |agents|
  {
    if n == 0 then []
    else
      var t := order[n - 1];
      Listed(agents, order, n - 1, trigger)
      + if t !in order[..n - 1] && Latest(agents, |agents|, t, trigger).Some?
        then [Latest(agents, |agents|, t, trigger).value] else []
  }

  function DrainScope(w: World, trigger: Task): seq<Task> {
    if w.cadence.PerTask? || w.plan.None? then []
    else if w.cadence.PerPlan? then AllTasks(w.plan.value)
    else match PhaseOf(w.plan.value, trigger) case None => [] case Some(phase) => phase
  }

  function DrainList(s: State, w: World, id: AgentId): seq<AgentId>
    requires id < |s.agents|
  {
    var scope := DrainScope(w, s.agents[id].task);
    Listed(s.agents, scope, |scope|, Some(id))
  }

  function FlushList(s: State, w: World): seq<AgentId> {
    var scope := if w.plan.None? then [] else AllTasks(w.plan.value);
    Listed(s.agents, scope, |scope|, None)
  }

  // ---------------------------------------------------------------- attempts

  function CountAttempts(attempts: seq<Attempt>, task: Task): nat {
    if attempts == [] then 0
    else CountAttempts(attempts[..|attempts| - 1], task) + if attempts[|attempts| - 1].task == task then 1 else 0
  }

  function AttemptRow(attempts: seq<Attempt>, task: Task, number: nat): (r: Option<nat>)
    ensures r.Some? ==> r.value < |attempts| && attempts[r.value].task == task && attempts[r.value].number == number
    ensures r.None? ==> forall i :: 0 <= i < |attempts| ==> attempts[i].task != task || attempts[i].number != number
  {
    if attempts == [] then None
    else if attempts[|attempts| - 1].task == task && attempts[|attempts| - 1].number == number then Some(|attempts| - 1)
    else AttemptRow(attempts[..|attempts| - 1], task, number)
  }

  /** Insert unless the key is taken, then store the agent. */
  function Record(attempts: seq<Attempt>, task: Task, number: nat, agent: AgentId): (r: seq<Attempt>)
    ensures |r| >= |attempts|
  {
    match AttemptRow(attempts, task, number)
    case None => attempts + [Attempt(task, number, agent, None)]
    case Some(i) => attempts[i := attempts[i].(agent := agent)]
  }

  function AttemptOf(attempts: seq<Attempt>, agent: AgentId): (r: Option<nat>)
    ensures r.Some? ==> r.value < |attempts| && attempts[r.value].agent == agent
  {
    if attempts == [] then None
    else if attempts[|attempts| - 1].agent == agent then Some(|attempts| - 1)
    else AttemptOf(attempts[..|attempts| - 1], agent)
  }

  function Close(s: State, i: nat, outcome: AttemptOutcome): State
    requires i < |s.attempts|
  {
    s.(attempts := s.attempts[i := s.attempts[i].(outcome := Some(outcome))])
  }

  /** The most recent agent that worked on the task itself. */
  function WorkAgent(agents: seq<Agent>, task: Task): (r: Option<AgentId>)
    ensures r.Some? ==> r.value < |agents| && agents[r.value].task == task && agents[r.value].role.Work?
                        && forall j :: r.value < j < |agents| ==> agents[j].task != task || !agents[j].role.Work?
    ensures r.None? ==> forall i :: 0 <= i < |agents| ==> agents[i].task != task || !agents[i].role.Work?
  {
    if agents == [] then None
    else if agents[|agents| - 1].task == task && agents[|agents| - 1].role.Work? then Some(|agents| - 1)
    else WorkAgent(agents[..|agents| - 1], task)
  }

  function GateFixes(agents: seq<Agent>, task: Task): nat {
    if agents == [] then 0
    else GateFixes(agents[..|agents| - 1], task)
         + if agents[|agents| - 1].task == task && agents[|agents| - 1].role.GateFix? then 1 else 0
  }

  const GateFixCap: nat := 1

  // ---------------------------------------------------------------- merging one branch

  datatype Disposition = NoResolver | Spawned | CapHit

  datatype MergeResult = Merged(sha: string) | Conflict(resolver: Disposition) | Broken

  datatype Merging = Merging(state: State, result: MergeResult)

  /** Every row with the branch stops advertising it. */
  function ClearBranch(agents: seq<Agent>, branch: Branch): (r: seq<Agent>)
    ensures |r| == |agents|
    ensures forall i :: 0 <= i < |r| ==>
              r[i] == if agents[i].branch == Some(branch) then agents[i].(branch := None) else agents[i]
  {
    seq(|agents|, i requires 0 <= i < |agents| =>
      if agents[i].branch == Some(branch) then agents[i].(branch := None) else agents[i])
  }

  function Land(s: State, branch: Branch, sha: string, triggerCi: bool): State {
    s.(agents := ClearBranch(s.agents, branch), trunk := s.trunk + [branch],
       pushes := if triggerCi && sha != "" then s.pushes + [|s.trunk| + 1] else s.pushes)
  }

  /** The next free attempt goes to a resolver in the conflicted worktree; the original agent is held for it. */
  function Resolve(s: State, w: World, id: AgentId): (r: Merging)
    requires id < |s.agents|
    ensures |r.state.attempts| >= |s.attempts| && |r.state.agents| >= |s.agents|
  {
    var task := s.agents[id].task;
    var count := CountAttempts(s.attempts, task);
    if !s.agents[id].role.Work? || !w.resolvers || !Enabled(s) then Merging(s, Conflict(NoResolver))
    else if count >= w.cap then Merging(s, Conflict(CapHit))
    else
      var resolver := Agent(task, Resolver(count + 1), None, Held);
      Merging(s.(agents := s.agents[id := s.agents[id].(mergeStatus := Held)] + [resolver],
                 attempts := Record(s.attempts, task, count + 1, |s.agents|)),
              Conflict(Spawned))
  }

  function MergeBranch(s: State, w: World, k: nat, id: AgentId, triggerCi: bool): (r: Merging)
    requires id < |s.agents|
    ensures |r.state.attempts| >= |s.attempts| && |r.state.agents| >= |s.agents|
  {
    match s.agents[id].branch
    case None => Merging(s, Broken)
    case Some(branch) =>
      match w.merge(k)
      case Breaks => Merging(s, Broken)
      case Conflicts => Resolve(s, w, id)
      case Lands(sha) => Merging(Land(s, branch, sha, triggerCi), Merged(sha))
  }

  datatype StepOutcome = StepMerged | StepPaused | StepResolving

  datatype Step = Step(state: State, outcome: StepOutcome)

  function Undefer(s: State, id: AgentId): State
    requires id < |s.agents|
  {
    if s.agents[id].mergeStatus.Deferred?
    then s.(agents := s.agents[id := s.agents[id].(mergeStatus := NoStatus)]) else s
  }

  function MergeStep(s: State, w: World, k: nat, id: AgentId, triggerCi: bool): Step
    requires id < |s.agents|
  {
    var m := MergeBranch(s, w, k, id, triggerCi);
    match m.result
    case Merged(_) => Step(Undefer(m.state, id), StepMerged)
    case Conflict(Spawned) => Step(m.state, StepResolving)
    case Conflict(CapHit) => Step(Pause(m.state, ConflictUnresolved), StepPaused)
    case Conflict(NoResolver) => Step(Pause(m.state, MergeConflict), StepPaused)
    case Broken => Step(Pause(m.state, MergeFailed), StepPaused)
  }

  predicate AllRows(s: State, list: seq<AgentId>) {
    forall i :: 0 <= i < |list| ==> list[i] < |s.agents|
  }

  datatype Batch = Batch(state: State, merged: nat, stopped: bool)

  /** The rows of the list from the k-th on, until one does not merge. With `pushLast` the last one triggers CI. */
  function MergeAll(s: State, w: World, list: seq<AgentId>, k: nat, pushLast: bool): (r: Batch)
    requires k <= |list| && AllRows(s, list)
    ensures |r.state.agents| >= |s.agents| && k <= r.merged <= |list|
    decreases |list| - k
  {
    if k == |list| then Batch(s, k, false)
    else
      var step := MergeStep(s, w, k, list[k], pushLast && k == |list| - 1);
      if step.outcome.StepMerged? then MergeAll(step.state, w, list, k + 1, pushLast) else Batch(step.state, k, true)
  }

  // ---------------------------------------------------------------- the state machine

  function RunGate(s: State, w: World, id: AgentId): GateAnswer
    requires id < |s.agents|
  {
    if !w.hasChecks then Pass else if s.agents[id].branch.None? then Fail else w.gate
  }

  /** One gate-fix agent per task, on the task's own branch; otherwise pause. */
  function OnGateFailed(s: State, w: World, id: AgentId): State
    requires id < |s.agents|
  {
    var a := s.agents[id];
    var count := GateFixes(s.agents, a.task);
    if w.hasRecipe && count < GateFixCap && a.branch.Some?
    then s.(agents := s.agents + [Agent(a.task, GateFix(count + 1), a.branch, NoStatus)])
    else Pause(s, GateFailed)
  }

  function FixBranch(task: Task, n: nat): Branch {
    task + "-fix-" + Decimal(n)
  }

  function SpawnFixWithCap(s: State, w: World, task: Task): State {
    var count := CountAttempts(s.attempts, task);
    if count >= w.cap then Pause(s, CapReached)
    else if WorkAgent(s.agents, task).None? then Pause(s, FixSpawnFailed)
    else s.(agents := s.agents + [Agent(task, CiFix(count + 1), Some(FixBranch(task, count + 1)), NoStatus)],
            attempts := Record(s.attempts, task, count + 1, |s.agents|))
  }

  function AwaitCi(s: State): State {
    s.(awaited := s.awaited + [|s.trunk|])
  }

  function OnCi(s: State, w: World, task: Task): State {
    match w.ci
    case CiGreen => Advance(s, task)
    case CiNotConfigured => Advance(s, task)
    case CiRed => SpawnFixWithCap(s, w, task)
    case CiStall => Pause(s, CiStalled)
    case CiCancelled => s
  }

  /** At the boundary: drain the deferred siblings without a push, then merge the trigger with one, then wait for
      CI. */
  function MergeBatch(s: State, w: World, id: AgentId): State
    requires id < |s.agents|
  {
    var list := DrainList(s, w, id);
    var batch := MergeAll(s, w, list, 0, false);
    if batch.stopped then batch.state
    else
      var step := MergeStep(batch.state, w, |list|, id, true);
      if step.outcome.StepMerged? then OnCi(AwaitCi(step.state), w, s.agents[id].task) else step.state
  }

  function RunStateMachine(s: State, w: World, id: AgentId): State
    requires id < |s.agents|
  {
    if !Enabled(s) then s
    else if !ShouldMergeNow(s, w, s.agents[id].task) then Advance(Defer(s, id), s.agents[id].task)
    else if RunGate(s, w, id).Fail? then OnGateFailed(s, w, id)
    else MergeBatch(s, w, id)
  }

  // ---------------------------------------------------------------- completion handlers

  /** The machine for the task's most recent work agent, if one survives. */
  function Rerun(s: State, w: World, task: Task): State {
    match WorkAgent(s.agents, task)
    case None => s
    case Some(id) => RunStateMachine(s, w, id)
  }

  function OnResolverDone(s: State, w: World, id: AgentId): State {
    match AttemptOf(s.attempts, id)
    case None => s
    case Some(i) =>
      var task := s.attempts[i].task;
      if WorkAgent(s.agents, task).None? then s
      else Rerun(Close(s, i, if w.resolved then Resolved else Unresolved), w, task)
  }

  function FixOutcome(ci: CiAnswer): AttemptOutcome {
    match ci
    case CiGreen => Green
    case CiNotConfigured => Green
    case CiRed => Red
    case CiStall => Stalled
    case CiCancelled => Cancelled
  }

  /** A fix lands on trunk by itself, with its own CI run. */
  function OnFixDone(s: State, w: World, id: AgentId): State
    requires id < |s.agents|
  {
    match AttemptOf(s.attempts, id)
    case None => s
    case Some(i) =>
      var task := s.attempts[i].task;
      var m := MergeBranch(s, w, 0, id, true);
      if !m.result.Merged? then Pause(Close(m.state, i, MergeBroke), FixMergeFailed)
      else
        var t := Close(AwaitCi(m.state), i, FixOutcome(w.ci));
        OnCi(if w.ci.CiGreen? || w.ci.CiNotConfigured? then t.(status := t.status[task := Completed]) else t, w, task)
  }

  function OnCompleted(s: State, w: World, id: AgentId): State
    requires id < |s.agents|
  {
    if !Enabled(s) then s
    else
      match s.agents[id].role
      case Resolver(_) => OnResolverDone(s, w, id)
      case GateFix(_) => Rerun(s, w, s.agents[id].task)
      case CiFix(_) => OnFixDone(s, w, id)
      case Work => RunStateMachine(s, w, id)
  }

  /** The operator's flush: every deferred row, the last one pushing. */
  function Flush(s: State, w: World): Batch {
    MergeAll(s, w, FlushList(s, w), 0, true)
  }
}
