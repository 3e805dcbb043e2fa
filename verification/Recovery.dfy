/** The recovery loops terminate: automatic agents are paid for from a fixed budget per task
    (server-rs/src/auto_mode.rs, and server-rs/src/agents/mod.rs for the resolver's cap check). */
module Recovery {
  import opened Util
  import opened AutoMode
  import opened Batches

  /** The agents the loop itself started for a task. */
  function AutoAgents(agents: seq<Agent>, task: Task): nat {
    if agents == [] then 0
    else AutoAgents(agents[..|agents| - 1], task)
         + if agents[|agents| - 1].task == task && !agents[|agents| - 1].role.Work? then 1 else 0
  }

  /** What is left: CI fixes and resolvers share the cap, and each task has one gate fix. */
  function Budget(s: State, task: Task, cap: nat): nat {
    var used, fixes := CountAttempts(s.attempts, task), GateFixes(s.agents, task);
    (if used < cap then cap - used else 0) + if fixes < GateFixCap then GateFixCap - fixes else 0
  }

  /** No attempt number of a task exceeds the number of its attempts, so the next one is free. */
  predicate Numbered(attempts: seq<Attempt>) {
    forall i :: 0 <= i < |attempts| ==> attempts[i].number <= CountAttempts(attempts, attempts[i].task)
  }

  // ---------------------------------------------------------------- rosters

  predicate SameAgents(a: seq<Agent>, b: seq<Agent>) {
    |a| == |b| && forall i :: 0 <= i < |a| ==> b[i].task == a[i].task && b[i].role == a[i].role
  }

  /** The same row, possibly closed since. */
  predicate SameAttempt(a: Attempt, b: Attempt) {
    b.task == a.task && b.number == a.number && b.agent == a.agent && (a.outcome.Some? ==> b.outcome.Some?)
  }

  predicate SameAttempts(a: seq<Attempt>, b: seq<Attempt>) {
    |a| == |b| && forall i :: 0 <= i < |a| ==> SameAttempt(a[i], b[i])
  }

  predicate SameRoster(s: State, t: State) {
    SameAgents(s.agents, t.agents) && SameAttempts(s.attempts, t.attempts)
  }

  /** Some agent worked on the task itself. */
  predicate HasWork(agents: seq<Agent>, task: Task) {
    WorkAgent(agents, task).Some?
  }

  /** One agent joined, within its budget, for a task somebody worked on; its attempt row, if it has one, names it. */
  predicate Joined(s: State, t: State, cap: nat) {
    && |t.agents| == |s.agents| + 1 && SameAgents(s.agents, t.agents[..|s.agents|])
    && HasWork(s.agents, t.agents[|s.agents|].task)
    && var a := t.agents[|s.agents|];
       match a.role
       case Work => false
       case GateFix(_) => GateFixes(s.agents, a.task) < GateFixCap && SameAttempts(s.attempts, t.attempts)
       case _ =>
         && CountAttempts(s.attempts, a.task) < cap
         && |t.attempts| == |s.attempts| + 1 && SameAttempts(s.attempts, t.attempts[..|s.attempts|])
         && t.attempts[|s.attempts|].task == a.task
         && t.attempts[|s.attempts|].number == CountAttempts(s.attempts, a.task) + 1
         && t.attempts[|s.attempts|].agent == |s.agents|
  }

  predicate AtMostOneJoins(s: State, t: State, cap: nat) {
    SameRoster(s, t) || Joined(s, t, cap)
  }

  lemma {:induction false} SameAgentsCount(a: seq<Agent>, b: seq<Agent>, task: Task)
    requires SameAgents(a, b)
    ensures AutoAgents(b, task) == AutoAgents(a, task) && GateFixes(b, task) == GateFixes(a, task)
  {
    if a != [] {
      SameAgentsCount(a[..|a| - 1], b[..|b| - 1], task);
    }
  }

  lemma {:induction false} SameAgentsWork(a: seq<Agent>, b: seq<Agent>, task: Task)
    requires SameAgents(a, b)
    ensures HasWork(b, task) <==> HasWork(a, task)
  {
    if a != [] {
      SameAgentsWork(a[..|a| - 1], b[..|b| - 1], task);
    }
  }

  lemma {:induction false} SameAttemptsCount(a: seq<Attempt>, b: seq<Attempt>, task: Task)
    requires SameAttempts(a, b)
    ensures CountAttempts(b, task) == CountAttempts(a, task)
  {
    if a != [] {
      SameAttemptsCount(a[..|a| - 1], b[..|b| - 1], task);
    }
  }

  lemma {:induction false} SameAttemptsNumbered(a: seq<Attempt>, b: seq<Attempt>)
    requires SameAttempts(a, b) && Numbered(a)
    ensures Numbered(b)
  {
    forall i | 0 <= i < |b| ensures b[i].number <= CountAttempts(b, b[i].task) {
      SameAttemptsCount(a, b, b[i].task);
      assert a[i].number <= CountAttempts(a, a[i].task);
    }
  }

  lemma {:induction false} OneMoreNumbered(a: seq<Attempt>, b: seq<Attempt>)
    requires |b| == |a| + 1 && SameAttempts(a, b[..|a|]) && Numbered(a)
    requires b[|a|].number == CountAttempts(a, b[|a|].task) + 1
    ensures Numbered(b)
  {
    forall i | 0 <= i < |b| ensures b[i].number <= CountAttempts(b, b[i].task) {
      SameAttemptsCount(a, b[..|a|], b[i].task);
      if i < |a| {
        assert a[i].number <= CountAttempts(a, a[i].task);
        assert b[..|a|][i] == b[i];
      }
    }
  }

  /** Every agent that joins is paid for by exactly one unit of its task's budget. */
  lemma {:induction false} JoiningCostsOne(s: State, t: State, cap: nat, c: nat, task: Task)
    requires AtMostOneJoins(s, t, c) && c <= cap
    ensures AutoAgents(t.agents, task) + Budget(t, task, cap) == AutoAgents(s.agents, task) + Budget(s, task, cap)
    ensures AutoAgents(t.agents, task) >= AutoAgents(s.agents, task)
    ensures Numbered(s.attempts) ==> Numbered(t.attempts)
  {
    if SameRoster(s, t) {
      SameAgentsCount(s.agents, t.agents, task);
      SameAttemptsCount(s.attempts, t.attempts, task);
      if Numbered(s.attempts) {
        SameAttemptsNumbered(s.attempts, t.attempts);
      }
    } else {
      SameAgentsCount(s.agents, t.agents[..|s.agents|], task);
      if t.agents[|s.agents|].role.GateFix? {
        SameAttemptsCount(s.attempts, t.attempts, task);
        if Numbered(s.attempts) {
          SameAttemptsNumbered(s.attempts, t.attempts);
        }
      } else {
        SameAttemptsCount(s.attempts, t.attempts[..|s.attempts|], task);
        if Numbered(s.attempts) {
          OneMoreNumbered(s.attempts, t.attempts);
        }
      }
    }
  }

  lemma {:induction false} RosterThen(s: State, t: State, u: State, cap: nat)
    requires SameRoster(s, t) && AtMostOneJoins(t, u, cap)
    ensures AtMostOneJoins(s, u, cap)
  {
    if !SameRoster(t, u) {
      var a := u.agents[|t.agents|];
      SameAgentsCount(s.agents, t.agents, a.task);
      SameAttemptsCount(s.attempts, t.attempts, a.task);
      SameAgentsWork(s.agents, t.agents, a.task);
      assert forall i :: 0 <= i < |s.agents| ==> u.agents[..|s.agents|][i] == u.agents[i];
      if !a.role.GateFix? {
        assert forall i :: 0 <= i < |s.attempts| ==> u.attempts[..|s.attempts|][i] == u.attempts[i];
      }
    }
  }

  // ---------------------------------------------------------------- the handlers

  lemma {:induction false} MergeJoins(s: State, w: World, k: nat, id: AgentId, push: bool)
    requires id < |s.agents| && Numbered(s.attempts)
    ensures AtMostOneJoins(s, MergeBranch(s, w, k, id, push).state, w.cap)
    ensures !MergeBranch(s, w, k, id, push).result.Conflict? ==> SameRoster(s, MergeBranch(s, w, k, id, push).state)
  {
    var m := MergeBranch(s, w, k, id, push);
    if m.result == Conflict(Spawned) {
      assert m.state.agents[..|s.agents|] == s.agents[id := s.agents[id].(mergeStatus := Held)];
      assert m.state.attempts[..|s.attempts|] == s.attempts;
    }
  }

  lemma {:induction false} StepJoins(s: State, w: World, k: nat, id: AgentId, push: bool)
    requires id < |s.agents| && Numbered(s.attempts)
    ensures AtMostOneJoins(s, MergeStep(s, w, k, id, push).state, w.cap)
    ensures MergeStep(s, w, k, id, push).outcome.StepMerged? ==> SameRoster(s, MergeStep(s, w, k, id, push).state)
  {
    MergeJoins(s, w, k, id, push);
  }

  lemma {:induction false} BatchJoins(s: State, w: World, list: seq<AgentId>, k: nat, pushLast: bool)
    requires k <= |list| && AllRows(s, list) && Numbered(s.attempts)
    ensures AtMostOneJoins(s, MergeAll(s, w, list, k, pushLast).state, w.cap)
    ensures !MergeAll(s, w, list, k, pushLast).stopped ==> SameRoster(s, MergeAll(s, w, list, k, pushLast).state)
    decreases |list| - k
  {
    if k < |list| {
      var push := pushLast && k == |list| - 1;
      var step := MergeStep(s, w, k, list[k], push);
      StepJoins(s, w, k, list[k], push);
      MergeOneMore(s, w, list, k, pushLast);
      if step.outcome.StepMerged? {
        SameAttemptsNumbered(s.attempts, step.state.attempts);
        BatchJoins(step.state, w, list, k + 1, pushLast);
        RosterThenBatch(s, step.state, MergeAll(step.state, w, list, k + 1, pushLast), w.cap);
      }
    }
  }

  lemma {:induction false} RosterThenBatch(s: State, mid: State, b: Batch, cap: nat)
    requires SameRoster(s, mid) && AtMostOneJoins(mid, b.state, cap) && (!b.stopped ==> SameRoster(mid, b.state))
    ensures AtMostOneJoins(s, b.state, cap) && (!b.stopped ==> SameRoster(s, b.state))
  {
    RosterThen(s, mid, b.state, cap);
  }

  lemma {:induction false} VerdictJoins(s: State, w: World, task: Task)
    requires Numbered(s.attempts)
    ensures AtMostOneJoins(s, OnCi(s, w, task), w.cap)
  {
    var t := OnCi(s, w, task);
    if |t.agents| > |s.agents| {
      assert t.agents[..|s.agents|] == s.agents && t.attempts[..|s.attempts|] == s.attempts;
    }
  }

  lemma {:induction false} GateJoins(s: State, w: World, id: AgentId)
    requires id < |s.agents| && s.agents[id].role.Work?
    ensures AtMostOneJoins(s, OnGateFailed(s, w, id), w.cap)
  {
    var t := OnGateFailed(s, w, id);
    if |t.agents| > |s.agents| {
      assert t.agents[..|s.agents|] == s.agents;
    }
  }

  lemma {:induction false} MergeBatchJoins(s: State, w: World, id: AgentId)
    requires id < |s.agents| && s.agents[id].role.Work? && Numbered(s.attempts)
    ensures AtMostOneJoins(s, MergeBatch(s, w, id), w.cap)
  {
    var list := DrainList(s, w, id);
    BatchJoins(s, w, list, 0, false);
    var b := MergeAll(s, w, list, 0, false);
    if !b.stopped {
      SameAttemptsNumbered(s.attempts, b.state.attempts);
      assert SameAgents(s.agents, b.state.agents);
      TriggerJoins(b.state, w, |list|, id, s.agents[id].task);
      RosterThen(s, b.state, MergeBatch(s, w, id), w.cap);
    }
  }

  lemma {:induction false} TriggerJoins(s: State, w: World, k: nat, id: AgentId, task: Task)
    requires id < |s.agents| && s.agents[id].role.Work? && Numbered(s.attempts)
    ensures var step := MergeStep(s, w, k, id, true);
            var after := if step.outcome.StepMerged? then OnCi(AwaitCi(step.state), w, task) else step.state;
            AtMostOneJoins(s, after, w.cap)
  {
    var step := MergeStep(s, w, k, id, true);
    StepJoins(s, w, k, id, true);
    if step.outcome.StepMerged? {
      SameAttemptsNumbered(s.attempts, step.state.attempts);
      VerdictJoins(AwaitCi(step.state), w, task);
      RosterThen(s, AwaitCi(step.state), OnCi(AwaitCi(step.state), w, task), w.cap);
    }
  }

  lemma {:induction false} MachineJoins(s: State, w: World, id: AgentId)
    requires id < |s.agents| && s.agents[id].role.Work? && Numbered(s.attempts)
    ensures AtMostOneJoins(s, RunStateMachine(s, w, id), w.cap)
  {
    MergeBatchJoins(s, w, id);
    GateJoins(s, w, id);
  }

  lemma {:induction false} RerunJoins(s: State, w: World, task: Task)
    requires Numbered(s.attempts)
    ensures AtMostOneJoins(s, Rerun(s, w, task), w.cap)
  {
    if WorkAgent(s.agents, task).Some? {
      MachineJoins(s, w, WorkAgent(s.agents, task).value);
    }
  }

  lemma {:induction false} FixDoneJoins(s: State, w: World, id: AgentId)
    requires id < |s.agents| && s.agents[id].role.CiFix? && Numbered(s.attempts)
    ensures AtMostOneJoins(s, OnFixDone(s, w, id), w.cap)
  {
    var i := AttemptOf(s.attempts, id);
    if i.Some? {
      var m := MergeBranch(s, w, 0, id, true);
      MergeJoins(s, w, 0, id, true);
      if m.result.Merged? {
        var t := Close(AwaitCi(m.state), i.value, FixOutcome(w.ci));
        var task := s.attempts[i.value].task;
        var u := if w.ci.CiGreen? || w.ci.CiNotConfigured? then t.(status := t.status[task := Completed]) else t;
        SameAttemptsNumbered(s.attempts, u.attempts);
        VerdictJoins(u, w, task);
        RosterThen(s, u, OnCi(u, w, task), w.cap);
      }
    }
  }

  /** Every completion handler and the flush start at most one agent, and only within the budget. */
  lemma {:induction false} HandlerJoins(s: State, w: World, id: AgentId)
    requires id < |s.agents| && Numbered(s.attempts)
    ensures AtMostOneJoins(s, OnCompleted(s, w, id), w.cap)
  {
    if Enabled(s) {
      match s.agents[id].role
      case Resolver(_) =>
        var i := AttemptOf(s.attempts, id);
        if i.Some? {
          var t := Close(s, i.value, if w.resolved then Resolved else Unresolved);
          SameAttemptsNumbered(s.attempts, t.attempts);
          RerunJoins(t, w, s.attempts[i.value].task);
          RosterThen(s, t, Rerun(t, w, s.attempts[i.value].task), w.cap);
        }
      case GateFix(_) => RerunJoins(s, w, s.agents[id].task);
      case CiFix(_) => FixDoneJoins(s, w, id);
      case Work => MachineJoins(s, w, id);
    }
  }

  // ---------------------------------------------------------------- whole runs

  /** Handlers, the operator, and work agents started by the operator or by an advance, in any order. */
  datatype Op =
    | Finish(id: AgentId, world: World)
    | FlushAll(world: World)
    | StartWork(task: Task, branch: Branch)
    | WriteStatus(task: Task, to: TaskState)
    | Switch(on: bool)
    | Resume

  function Do(s: State, op: Op): State {
    match op
    case Finish(id, w) => if id < |s.agents| then OnCompleted(s, w, id) else s
    case FlushAll(w) => Flush(s, w).state
    case StartWork(task, branch) => s.(agents := s.agents + [Agent(task, Work, Some(branch), NoStatus)])
    case WriteStatus(task, to) => s.(status := s.status[task := to])
    case Switch(on) => s.(enabled := on)
    case Resume => s.(paused := None)
  }

  function Run(s: State, ops: seq<Op>): State {
    if ops == [] then s else Do(Run(s, ops[..|ops| - 1]), ops[|ops| - 1])
  }

  /** The cap is a setting of the plan; it is never raised above the given one. */
  predicate CapKept(ops: seq<Op>, cap: nat) {
    forall i :: 0 <= i < |ops| ==>
      (ops[i].Finish? ==> ops[i].world.cap <= cap) && (ops[i].FlushAll? ==> ops[i].world.cap <= cap)
  }

  lemma {:induction false} StepConserves(s: State, op: Op, cap: nat, task: Task)
    requires Numbered(s.attempts)
    requires (op.Finish? ==> op.world.cap <= cap) && (op.FlushAll? ==> op.world.cap <= cap)
    ensures Numbered(Do(s, op).attempts)
    ensures AutoAgents(Do(s, op).agents, task) + Budget(Do(s, op), task, cap) ==
        AutoAgents(s.agents, task) + Budget(s, task, cap)
  {
    match op
    case Finish(id, w) =>
      if id < |s.agents| {
        HandlerJoins(s, w, id);
        JoiningCostsOne(s, OnCompleted(s, w, id), cap, w.cap, task);
      }
    case FlushAll(w) =>
      BatchJoins(s, w, FlushList(s, w), 0, true);
      JoiningCostsOne(s, Flush(s, w).state, cap, w.cap, task);
    case StartWork(t, branch) => assert (s.agents + [Agent(t, Work, Some(branch), NoStatus)])[..|s.agents|] == s.agents;
    case _ =>
  }

  /** Conservation: over every run, whatever the outside answers and the operator does, a task's automatic agents
      and its remaining budget add up to the same number. So from a fresh plan no task ever gets more than the cap
      and one. */
  lemma {:induction false} AgentsPlusBudgetIsConstant(s: State, ops: seq<Op>, cap: nat, task: Task)
    requires Numbered(s.attempts) && CapKept(ops, cap)
    ensures Numbered(Run(s, ops).attempts)
    ensures AutoAgents(Run(s, ops).agents, task) + Budget(Run(s, ops), task, cap)
            == AutoAgents(s.agents, task) + Budget(s, task, cap)
  {
    if ops != [] {
      AgentsPlusBudgetIsConstant(s, ops[..|ops| - 1], cap, task);
      StepConserves(Run(s, ops[..|ops| - 1]), ops[|ops| - 1], cap, task);
    }
  }

  lemma {:induction false} AutomaticAgentsAreBounded(s: State, ops: seq<Op>, cap: nat, task: Task)
    requires s.agents == [] && s.attempts == [] && CapKept(ops, cap)
    ensures AutoAgents(Run(s, ops).agents, task) <= cap + GateFixCap
    ensures AutoAgents(Run(s, ops).agents, task) == cap + GateFixCap <==> Budget(Run(s, ops), task, cap) == 0
  {
    AgentsPlusBudgetIsConstant(s, ops, cap, task);
  }
}
