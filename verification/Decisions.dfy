/** What the auto-mode loop decides by: when a merge is due, what is drained and flushed, when the gate refuses, and
    for whom a recovery re-enters (server-rs/src/auto_mode.rs). */
module Decisions {
  import opened Util
  import opened Text
  import opened AutoMode
  import opened Batches
  import opened PlanScopes

  // ---------------------------------------------------------------- when a merge is due

  /** A merge is due at once under the task cadence; otherwise when the task is declared and the other tasks of its
      phase, or of the plan, are finished. */
  ghost predicate Due(s: State, w: World, task: Task) {
    w.cadence.PerTask?
    || (w.plan.Some? && exists i :: FirstPhase(w.plan.value, i, task) && OthersFinished(s, w, i, task))
  }

  /** The cadence gate lets a merge through exactly when one is due. */
  lemma {:induction false} DueExactly(s: State, w: World, task: Task)
    ensures ShouldMergeNow(s, w, task) <==> Due(s, w, task)
  {
    if !w.cadence.PerTask? && w.plan.Some? {
      var plan := w.plan.value;
      var i := PhaseFound(plan, task);
      forall t ensures t in AllTasks(plan) <==> exists k :: 0 <= k < |plan| && t in plan[k] {
        Declared(plan, t);
      }
      if PhaseOf(plan, task).Some? {
        OnlyFirstPhase(plan, task, i);
        ScopeFinished(s, w, i, task);
      }
    }
  }

  /** Short of that the machine defers its row, records the task as completed and advances; nothing else changes. */
  lemma {:induction false} DeferredExactly(s: State, w: World, id: AgentId)
    requires id < |s.agents| && Enabled(s) && !Due(s, w, s.agents[id].task)
    ensures var a := s.agents[id];
            RunStateMachine(s, w, id) ==
            s.(agents := s.agents[id := Agent(a.task, a.role, a.branch, Deferred)],
               status := s.status[a.task := Completed], advances := s.advances + [a.task])
  {
    DueExactly(s, w, s.agents[id].task);
  }

  // ---------------------------------------------------------------- what a drain and a flush list

  /** Exactly the rows next in line of the tasks in scope, the trigger's own row aside. */
  lemma {:induction false} DrainedExactly(s: State, w: World, id: AgentId, i: AgentId)
    requires id < |s.agents|
    ensures i in DrainList(s, w, id) <==>
            i < |s.agents| && NextForTask(s.agents, i, Some(id)) && Drains(w, s.agents[id].task, s.agents[i].task)
  {
    var scope := DrainScope(w, s.agents[id].task);
    ListedExactly(s.agents, scope, Some(id), i);
    if i < |s.agents| {
      ScopeExactly(w, s.agents[id].task, s.agents[i].task);
    }
  }

  /** A flush covers every task of the plan. */
  lemma {:induction false} FlushedExactly(s: State, w: World, i: AgentId)
    ensures i in FlushList(s, w) <==>
            i < |s.agents| && NextForTask(s.agents, i, None)
            && w.plan.Some? && exists k :: 0 <= k < |w.plan.value| && s.agents[i].task in w.plan.value[k]
  {
    ListedExactly(s.agents, if w.plan.None? then [] else AllTasks(w.plan.value), None, i);
    if i < |s.agents| && w.plan.Some? {
      Declared(w.plan.value, s.agents[i].task);
    }
  }

  // ---------------------------------------------------------------- in which order

  /** A flush, and a drain of the whole plan, go through the plan in that order. */
  lemma {:induction false} MergedInPlanOrder(s: State, w: World, id: AgentId)
    requires id < |s.agents| && w.plan.Some?
    ensures InPlanOrder(w.plan.value, s.agents, FlushList(s, w))
    ensures w.cadence.PerPlan? ==> InPlanOrder(w.plan.value, s.agents, DrainList(s, w, id))
  {
    ListedInPlanOrder(w.plan.value, s.agents, None);
    ListedInPlanOrder(w.plan.value, s.agents, Some(id));
  }

  /** A drain of a phase goes through the phase. */
  lemma {:induction false} MergedInPhaseOrder(s: State, w: World, id: AgentId, i: nat)
    requires id < |s.agents| && w.plan.Some? && w.cadence.PerPhase?
    requires FirstPhase(w.plan.value, i, s.agents[id].task)
    ensures DeclarationOrder(s.agents, w.plan.value[i], DrainList(s, w, id))
  {
    var p := PhaseFound(w.plan.value, s.agents[id].task);
    OnlyFirstPhase(w.plan.value, s.agents[id].task, i);
    ListIsExact(s.agents, w.plan.value[i], Some(id));
  }

  // ---------------------------------------------------------------- when the gate refuses

  /** Checks are configured, and they fail, or the row has no branch to run them on. */
  predicate GateRefuses(s: State, w: World, id: AgentId)
    requires id < |s.agents|
  {
    w.hasChecks && (s.agents[id].branch.None? || w.gate.Fail?)
  }

  lemma {:induction false} RefusesExactly(s: State, w: World, id: AgentId)
    requires id < |s.agents|
    ensures RunGate(s, w, id).Fail? <==> GateRefuses(s, w, id)
  {
  }

  // ---------------------------------------------------------------- for whom a recovery re-enters

  /** A finished gate fix leaves what the machine for its task's most recent work agent leaves. */
  lemma {:induction false} GateFixReenters(s: State, w: World, id: AgentId, i: AgentId)
    requires id < |s.agents| && Enabled(s) && s.agents[id].role.GateFix?
    ensures LatestWork(s.agents, s.agents[id].task, i) ==> OnCompleted(s, w, id) == RunStateMachine(s, w, i)
    ensures (forall j :: !LatestWork(s.agents, s.agents[id].task, j)) ==> OnCompleted(s, w, id) == s
  {
    RerunExactly(s, w, s.agents[id].task, i);
  }

  /** A finished resolver closes its attempt, as resolved or not, and leaves what the machine for the most recent work
      agent of the attempt's task leaves then. Without an attempt, or without such an agent, nothing changes. */
  lemma {:induction false} ResolverReenters(s: State, w: World, id: AgentId, k: nat, i: AgentId)
    requires id < |s.agents| && Enabled(s) && s.agents[id].role.Resolver?
    ensures OnlyAttempt(s.attempts, id, k) && LatestWork(s.agents, s.attempts[k].task, i) ==>
              var a := s.attempts[k];
              var closed := Attempt(a.task, a.number, a.agent, Some(if w.resolved then Resolved else Unresolved));
              OnCompleted(s, w, id) == RunStateMachine(s.(attempts := s.attempts[k := closed]), w, i)
    ensures OnlyAttempt(s.attempts, id, k) && (forall j :: !LatestWork(s.agents, s.attempts[k].task, j)) ==>
              OnCompleted(s, w, id) == s
    ensures (forall l :: 0 <= l < |s.attempts| ==> s.attempts[l].agent != id) ==> OnCompleted(s, w, id) == s
  {
    if OnlyAttempt(s.attempts, id, k) {
      AttemptFound(s.attempts, id, k);
      var outcome := if w.resolved then Resolved else Unresolved;
      RerunExactly(Close(s, k, outcome), w, s.attempts[k].task, i);
      WorkAgentExactly(s.agents, s.attempts[k].task, i);
      if forall j :: !LatestWork(s.agents, s.attempts[k].task, j) {
        NoWorkAgent(s.agents, s.attempts[k].task);
      }
    } else if forall l :: 0 <= l < |s.attempts| ==> s.attempts[l].agent != id {
      NoAttempt(s.attempts, id);
    }
  }

  /** And a finished work agent what the machine for itself leaves. */
  lemma {:induction false} WorkRunsItself(s: State, w: World, id: AgentId)
    requires id < |s.agents| && s.agents[id].role.Work?
    ensures OnCompleted(s, w, id) == RunStateMachine(s, w, id)
  {
  }

  /** No two fixes of a task share a branch. */
  lemma {:induction false} FixBranchesDiffer(task: Task, m: nat, n: nat)
    requires FixBranch(task, m) == FixBranch(task, n)
    ensures m == n
  {
    var front := task + "-fix-";
    assert FixBranch(task, m)[|front|..] == Decimal(m) && FixBranch(task, n)[|front|..] == Decimal(n);
    DecimalValue(m);
    DecimalValue(n);
  }
}
