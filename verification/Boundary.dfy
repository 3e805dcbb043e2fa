/** A cadence boundary: which completions reach it, and what it does when gate, git and CI all succeed
    (server-rs/src/auto_mode.rs, the cadence gate and the drain; server-rs/src/api/agents.rs, the cleared
    branches). */
module Boundary {
  import opened Util
  import opened AutoMode
  import opened Batches
  import opened NoLimbo
  import opened Decisions

  /** The tasks that share a boundary: the whole plan, or one phase. */
  predicate SharesBoundary(w: World, scope: seq<Task>) {
    && w.plan.Some?
    && match w.cadence
       case PerTask => false
       case PerPhase => forall t :: t in scope ==> PhaseOf(w.plan.value, t) == Some(scope)
       case PerPlan => scope == AllTasks(w.plan.value)
  }

  /** Gate and merges succeed, every merge reports its commit, CI is green or absent. */
  ghost predicate AllGoesWell(w: World) {
    && (w.hasChecks ==> w.gate.Pass?)
    && AllLand(w) && (forall k :: w.merge(k) != Lands(""))
    && (w.ci.CiGreen? || w.ci.CiNotConfigured?)
  }

  /** A boundary is reached exactly when the scope's other tasks are done. */
  lemma {:induction false} BoundaryExactly(s: State, w: World, scope: seq<Task>, t: Task)
    requires SharesBoundary(w, scope) && t in scope
    ensures Due(s, w, t) <==> AllDone(s.status, scope, t)
    ensures DrainScope(w, t) == scope
  {
    DueExactly(s, w, t);
  }

  // ---------------------------------------------------------------- the batch lands

  /** The rows after a boundary at which everything landed. */
  predicate RowAtEnd(a: Agent, b: Agent, drained: bool, landed: seq<Branch>) {
    && b.task == a.task && b.role == a.role
    && b.branch == (if a.branch.Some? && a.branch.value in landed then None else a.branch)
    && b.mergeStatus == (if drained then NoStatus else a.mergeStatus)
  }

  /** The drain of such a boundary. */
  lemma {:induction false} DrainLands(t: State, w: World, id: AgentId)
    requires id < |t.agents| && AllGoesWell(w) && OwnBranches(t.agents, WholeBatch(t, w, id))
    ensures var list := DrainList(t, w, id);
            var b := MergeAll(t, w, list, 0, false);
            && !b.stopped && LandedExactly(t, b.state, list) && b.state.pushes == t.pushes
              && b.state.agents[id].branch.Some?
  {
    var list := DrainList(t, w, id);
    PrefixOwn(t.agents, list, id);
    BatchLandsExactly(t, w, list, 0, false);
    BatchLandsPrefix(t, w, list, 0, false);
    BatchPushes(t, w, list, 0, false);
    assert list[0..|list|] == list;
    TriggerStillHasBranch(t, MergeAll(t, w, list, 0, false).state, list, id);
  }

  /** Its trigger. */
  lemma {:induction false} TriggerLands(t: State, mid: State, w: World, list: seq<AgentId>, id: AgentId)
    requires id < |t.agents| && AllGoesWell(w) && LandedExactly(t, mid, list) && mid.agents[id].branch.Some?
    requires !t.agents[id].mergeStatus.Deferred? && mid.pushes == t.pushes
    requires forall i :: 0 <= i < |list| ==> t.agents[list[i]].mergeStatus.Deferred?
    ensures var step, landed := MergeStep(mid, w, |list|, id, true), Branches(t.agents, list) +
        [BranchName(mid.agents[id])];
            && step.outcome.StepMerged? && OnlyMerging(t, step.state)
            && step.state.trunk == t.trunk + landed && step.state.pushes == t.pushes + [|step.state.trunk|]
            && RowsAtEnd(t.agents, step.state.agents, list, landed)
  {
    var b := BranchName(mid.agents[id]);
    MergedStep(mid, w, |list|, id, true);
    StepPushes(mid, w, |list|, id, true);
    var r := MergeStep(mid, w, |list|, id, true).state;
    Associate(t.trunk, Branches(t.agents, list), [b]);
    var landed := Branches(t.agents, list) + [b];
    forall j | 0 <= j < |t.agents| ensures RowAtEnd(t.agents[j], r.agents[j], j in list, landed) {
      assert RowLanded(t.agents[j], mid.agents[j], j in list, Branches(t.agents, list));
      assert RowLanded(mid.agents[j], r.agents[j], j in [id], [b]);
    }
  }

  ghost predicate RowsAtEnd(s: seq<Agent>, f: seq<Agent>, drained: seq<AgentId>, landed: seq<Branch>) {
    |f| == |s| && forall j :: 0 <= j < |s| ==> RowAtEnd(s[j], f[j], j in drained, landed)
  }

  /** When no merge fails and every row of the batch has its own branch, the boundary lands all of them, pushes
      once. */
  lemma {:induction false} BoundaryLands(t: State, w: World, id: AgentId)
    requires id < |t.agents| && Enabled(t) && AllGoesWell(w) && Due(t, w, t.agents[id].task)
    requires OwnBranches(t.agents, WholeBatch(t, w, id)) && !t.agents[id].mergeStatus.Deferred?
    requires forall i :: 0 <= i < |DrainList(t, w, id)| ==> t.agents[DrainList(t, w, id)[i]].mergeStatus.Deferred?
    ensures var r, list, landed := RunStateMachine(t, w, id), DrainList(t, w, id),
        Branches(t.agents, WholeBatch(t, w, id));
            && r.trunk == t.trunk + landed && r.pushes == t.pushes + [|r.trunk|]
            && r.advances == t.advances + [t.agents[id].task] && r.status == t.status && Enabled(r)
            && RowsAtEnd(t.agents, r.agents, list, landed)
  {
    var list := DrainList(t, w, id);
    assert WholeBatch(t, w, id)[|list|] == id;
    DueExactly(t, w, t.agents[id].task);
    assert RunGate(t, w, id).Pass?;
    DrainLands(t, w, id);
    var mid := MergeAll(t, w, list, 0, false).state;
    LandTriggerLast(t, mid, list, id);
    TriggerLands(t, mid, w, list, id);
  }

  lemma {:induction false} TriggerStillHasBranch(t: State, mid: State, list: seq<AgentId>, id: AgentId)
    requires LandedExactly(t, mid, list) && id < |t.agents| && OwnBranches(t.agents, list + [id])
    ensures mid.agents[id].branch.Some?
  {
    var all, landed := list + [id], Branches(t.agents, list);
    assert RowLanded(t.agents[id], mid.agents[id], id in list, landed);
    assert all[|list|] == id;
    forall i | 0 <= i < |list| ensures landed[i] != t.agents[id].branch.value {
      assert all[i] == list[i];
    }
  }

  /** Under the task cadence a completion merges its own branch at once, pushes it and drains nobody. */
  lemma {:induction false} TaskCadenceLands(s: State, w: World, id: AgentId)
    requires id < |s.agents| && Enabled(s) && AllGoesWell(w) && w.cadence.PerTask? && s.agents[id].branch.Some?
    ensures var t, b := RunStateMachine(s, w, id), s.agents[id].branch.value;
            && t.trunk == s.trunk + [b] && t.pushes == s.pushes + [|t.trunk|] && t.awaited == s.awaited + [|t.trunk|]
            && t.advances == s.advances + [s.agents[id].task] && t.status == s.status && Enabled(t)
            && RowsLanded(s.agents, t.agents, [id], [b])
  {
    DueExactly(s, w, s.agents[id].task);
    assert DrainList(s, w, id) == [];
    MergedStep(s, w, 0, id, true);
    StepPushes(s, w, 0, id, true);
  }

  // ---------------------------------------------------------------- phases as scopes

  lemma {:induction false} PhaseTasks(plan: seq<seq<Task>>, i: nat, t: Task)
    requires i < |plan| && t in plan[i]
    ensures t in AllTasks(plan)
  {
    if i > 0 {
      PhaseTasks(plan[1..], i - 1, t);
    }
  }

  lemma {:induction false} NoDupParts(a: seq<Task>, b: seq<Task>, t: Task)
    requires NoDup(a + b)
    ensures NoDup(b) && (t in b ==> t !in a)
  {
    var all := a + b;
    forall i, j | 0 <= i < j < |b| ensures b[i] != b[j] {
      assert all[|a| + i] == b[i] && all[|a| + j] == b[j];
    }
    if t in b {
      var k :| 0 <= k < |b| && b[k] == t;
      assert all[|a| + k] == t;
      forall i | 0 <= i < |a| ensures a[i] != t {
        assert all[i] == a[i];
      }
    }
  }

  lemma {:induction false} PhaseSharesBoundary(plan: seq<seq<Task>>, i: nat, t: Task)
    requires i < |plan| && NoDup(AllTasks(plan)) && t in plan[i]
    ensures PhaseOf(plan, t) == Some(plan[i])
  {
    if i > 0 {
      NoDupParts(plan[0], AllTasks(plan[1..]), t);
      PhaseTasks(plan[1..], i - 1, t);
      PhaseSharesBoundary(plan[1..], i - 1, t);
    }
  }

  /** With distinct task numbers, every phase is a scope of the phase cadence. */
  lemma {:induction false} EveryPhaseIsAScope(w: World, i: nat)
    requires w.plan.Some? && w.cadence.PerPhase? && i < |w.plan.value| && NoDup(AllTasks(w.plan.value))
    ensures SharesBoundary(w, w.plan.value[i])
  {
    var plan := w.plan.value;
    forall t | t in plan[i] ensures PhaseOf(plan, t) == Some(plan[i]) {
      PhaseSharesBoundary(plan, i, t);
    }
  }

  // ---------------------------------------------------------------- when one branch per task is not given

  /** Two rows of one batch that share a branch: the first to land clears the branch of the other, whose merge then
      fails. So with every merge landing, a boundary advances if and only if all rows of the batch have branches of
      their own. */
  lemma {:induction false} SharedBranchPauses(s: State, w: World, id: AgentId)
    requires id < |s.agents| && Enabled(s) && AllGoesWell(w) && Due(s, w, s.agents[id].task)
    requires w.hasChecks ==> s.agents[id].branch.Some?
    ensures var t := RunStateMachine(s, w, id);
            if OwnBranches(s.agents, WholeBatch(s, w, id)) then MergedAndAdvanced(s, t, w, id)
            else t.paused == Some(MergeFailed) && t.advances == s.advances
  {
    DueExactly(s, w, s.agents[id].task);
    if MergeAll(s, w, DrainList(s, w, id), 0, false).stopped {
      DrainStopsForBranch(s, w, id);
    } else {
      TriggerDecides(s, w, id);
    }
  }

  lemma {:induction false} DrainStopsForBranch(s: State, w: World, id: AgentId)
    requires id < |s.agents| && AllLand(w) && MergeAll(s, w, DrainList(s, w, id), 0, false).stopped
    ensures var t := MergeBatch(s, w, id);
            t.paused == Some(MergeFailed) && t.advances == s.advances && !OwnBranches(s.agents, WholeBatch(s, w, id))
  {
    var list := DrainList(s, w, id);
    StoppedForBranch(s, w, list, 0);
    BatchLandsExactly(s, w, list, 0, false);
    PrefixOwn(s.agents, list, id);
  }

  lemma {:induction false} TriggerDecides(s: State, w: World, id: AgentId)
    requires id < |s.agents| && Enabled(s) && AllGoesWell(w) && !MergeAll(s, w, DrainList(s, w, id), 0, false).stopped
    ensures var t := MergeBatch(s, w, id);
            if OwnBranches(s.agents, WholeBatch(s, w, id)) then MergedAndAdvanced(s, t, w, id)
            else t.paused == Some(MergeFailed) && t.advances == s.advances
  {
    var list := DrainList(s, w, id);
    BatchLandsPrefix(s, w, list, 0, false);
    assert list[0..|list|] == list;
    var mid := MergeAll(s, w, list, 0, false).state;
    MergedStep(mid, w, |list|, id, true);
    if mid.agents[id].branch.Some? {
      DrainThenTrigger(s, w, id);
    } else if OwnBranches(s.agents, list + [id]) {
      TriggerStillHasBranch(s, mid, list, id);
    }
  }

  lemma {:induction false} PrefixOwn(agents: seq<Agent>, list: seq<AgentId>, id: AgentId)
    ensures OwnBranches(agents, list + [id]) ==> OwnBranches(agents, list[0..])
  {
    if OwnBranches(agents, list + [id]) {
      assert forall i :: 0 <= i < |list| ==> (list + [id])[i] == list[i];
    }
  }

  lemma {:induction false} StoppedForBranch(s: State, w: World, list: seq<AgentId>, k: nat)
    requires k <= |list| && AllRows(s, list) && AllLand(w) && MergeAll(s, w, list, k, false).stopped
    ensures MergeAll(s, w, list, k, false).state.paused == Some(MergeFailed)
    ensures MergeAll(s, w, list, k, false).state.advances == s.advances
    decreases |list| - k
  {
    var step := MergeStep(s, w, k, list[k], false);
    MergedStep(s, w, k, list[k], false);
    if step.outcome.StepMerged? {
      StoppedForBranch(step.state, w, list, k + 1);
    }
  }
}
