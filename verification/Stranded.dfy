/** Rows that no drain will find again: left unmerged and not deferred (server-rs/src/auto_mode.rs). */
module Stranded {
  import opened Util
  import opened AutoMode
  import opened Batches
  import opened NoLimbo
  import opened Decisions
  import opened Recovery

  /** The machine has left the row neither merged nor deferred. */
  predicate Left(t: State, id: AgentId) {
    id < |t.agents| && t.agents[id].branch.Some? && !t.agents[id].mergeStatus.Deferred?
  }

  /** The branches of the drained siblings that landed. */
  function Drained(s: State, w: World, id: AgentId): seq<Branch>
    requires id < |s.agents|
  {
    var list := DrainList(s, w, id);
    Branches(s.agents, list[..MergeAll(s, w, list, 0, false).merged])
  }

  /** The merge of the trigger, after a drain that did not stop, does not land. */
  predicate OwnMergeFails(s: State, w: World, id: AgentId)
    requires id < |s.agents|
  {
    var list := DrainList(s, w, id);
    var b := MergeAll(s, w, list, 0, false);
    !b.stopped && !MergeStep(b.state, w, |list|, id, true).outcome.StepMerged?
  }

  /** When a trigger is left, exactly: at the boundary, if the gate fails, or the drain stops before anything landed its
      branch, or its own merge does not land although its branch is still there. It is then for a recovery agent of its
      own task to come back to it; if none was started, the plan is paused, or a resolver is at work for another. */
  lemma {:induction false} LeftExactly(s: State, w: World, id: AgentId)
    requires id < |s.agents| && Enabled(s) && s.agents[id].branch.Some? && !s.agents[id].mergeStatus.Deferred?
    ensures var t := RunStateMachine(s, w, id);
            Left(t, id) <==>
            && Due(s, w, s.agents[id].task)
            && (GateRefuses(s, w, id)
                || ((MergeAll(s, w, DrainList(s, w, id), 0, false).stopped || OwnMergeFails(s, w, id))
                    && s.agents[id].branch.value !in Drained(s, w, id)))
    ensures var t := RunStateMachine(s, w, id);
            Left(t, id) ==> t.advances == s.advances && t.awaited == s.awaited && (t.paused.Some? || OneAgentMore(s, t))
  {
    DueExactly(s, w, s.agents[id].task);
    RefusesExactly(s, w, id);
    if Due(s, w, s.agents[id].task) && !GateRefuses(s, w, id) {
      var list := DrainList(s, w, id);
      var b := MergeAll(s, w, list, 0, false);
      DrainedRow(s, w, id);
      if b.stopped {
        HaltLeaves(Before(s, w, list, 0, false), b.state, w, b.merged, list[b.merged], id);
      } else {
        TriggerLeft(b.state, w, |list|, id);
        if !MergeStep(b.state, w, |list|, id, true).outcome.StepMerged? {
          HaltLeaves(b.state, MergeBatch(s, w, id), w, |list|, id, id);
        }
      }
    }
  }

  /** What the drain does to the trigger's row. */
  lemma {:induction false} DrainedRow(s: State, w: World, id: AgentId)
    requires id < |s.agents| && s.agents[id].branch.Some? && !s.agents[id].mergeStatus.Deferred?
    ensures var list, mid := DrainList(s, w, id), Before(s, w, DrainList(s, w, id), 0, false);
            var b := MergeAll(s, w, list, 0, false);
            && b.merged <= |list| && OnlyMerging(s, mid) && |mid.agents| == |s.agents|
            && !mid.agents[id].mergeStatus.Deferred?
            && (Left(mid, id) <==> s.agents[id].branch.value !in Drained(s, w, id))
            && (if b.stopped then b.merged < |list| && list[b.merged] < |mid.agents|
                                  && Halted(mid, b.state, w, b.merged, list[b.merged])
                else b.state == mid)
  {
    var list := DrainList(s, w, id);
    var b, mid := MergeAll(s, w, list, 0, false), Before(s, w, list, 0, false);
    BatchLandsPrefix(s, w, list, 0, false);
    assert list[0..b.merged] == list[..b.merged];
    assert RowLanded(s.agents[id], mid.agents[id], id in list[..b.merged], Drained(s, w, id));
  }

  lemma {:induction false} HaltLeaves(mid: State, t: State, w: World, k: nat, row: AgentId, id: AgentId)
    requires row < |mid.agents| && Halted(mid, t, w, k, row)
    requires id < |mid.agents| && !mid.agents[id].mergeStatus.Deferred?
    ensures Left(t, id) <==> Left(mid, id)
    ensures t.advances == mid.advances && t.awaited == mid.awaited && (t.paused.Some? || OneAgentMore(mid, t))
  {
  }

  lemma {:induction false} TriggerLeft(mid: State, w: World, k: nat, id: AgentId)
    requires id < |mid.agents|
    ensures var step := MergeStep(mid, w, k, id, true);
            if step.outcome.StepMerged? then mid.agents[id].branch.Some? && !Left(step.state, id)
            else Halted(mid, step.state, w, k, id)
    ensures var step := MergeStep(mid, w, k, id, true);
            step.outcome.StepMerged? ==> forall task :: !Left(OnCi(AwaitCi(step.state), w, task), id)
  {
    MergedStep(mid, w, k, id, true);
    var step := MergeStep(mid, w, k, id, true);
    if step.outcome.StepMerged? {
      assert RowLanded(mid.agents[id], step.state.agents[id], true, [BranchName(mid.agents[id])]);
    } else {
      HaltedStep(mid, w, k, id, true);
    }
  }

  /** A recovery agent joined. */
  predicate OneAgentMore(s: State, t: State) {
    |t.agents| == |s.agents| + 1 && !t.agents[|s.agents|].role.Work?
  }

  // ---------------------------------------------------------------- who can defer a row

  /** The row on which the machine runs when agent j completes. */
  function MachineRow(s: State, j: AgentId): Option<AgentId>
    requires j < |s.agents|
  {
    match s.agents[j].role
    case Work => Some(j)
    case GateFix(_) => WorkAgent(s.agents, s.agents[j].task)
    case Resolver(_) =>
      (match AttemptOf(s.attempts, j) case None => None case Some(i) => WorkAgent(s.agents, s.attempts[i].task))
    case CiFix(_) => None
  }

  /** The step runs the machine for row id, short of a boundary. */
  ghost predicate Defers(s: State, op: Op, id: AgentId)
    requires id < |s.agents|
  {
    op.Finish? && op.id < |s.agents| && Enabled(s) && MachineRow(s, op.id) == Some(id)
    && !Due(s, op.world, s.agents[id].task)
  }

  /** A row becomes deferred by nothing but its own machine, short of a boundary. */
  lemma {:induction false} OnlyItsMachineDefers(s: State, op: Op, id: AgentId)
    requires id < |s.agents| && !s.agents[id].mergeStatus.Deferred?
    ensures id < |Do(s, op).agents|
    ensures Do(s, op).agents[id].mergeStatus.Deferred? <==> Defers(s, op, id)
  {
    match op
    case Finish(j, w) =>
      if j < |s.agents| {
        CompletionDefers(s, w, j, id);
      }
    case FlushAll(w) => BatchCalm(s, w, FlushList(s, w), 0, true);
    case _ =>
  }

  /** No row of s got deferred. */
  predicate Calm(s: State, t: State) {
    && |t.agents| >= |s.agents|
    && forall i :: 0 <= i < |s.agents| && t.agents[i].mergeStatus.Deferred? ==> s.agents[i].mergeStatus.Deferred?
  }

  lemma {:induction false} StepCalm(s: State, w: World, k: nat, id: AgentId, push: bool)
    requires id < |s.agents|
    ensures Calm(s, MergeBranch(s, w, k, id, push).state) && Calm(s, MergeStep(s, w, k, id, push).state)
  {
  }

  lemma {:induction false} BatchCalm(s: State, w: World, list: seq<AgentId>, k: nat, pushLast: bool)
    requires k <= |list| && AllRows(s, list)
    ensures Calm(s, MergeAll(s, w, list, k, pushLast).state)
    decreases |list| - k
  {
    if k < |list| {
      var step := MergeStep(s, w, k, list[k], pushLast && k == |list| - 1);
      StepCalm(s, w, k, list[k], pushLast && k == |list| - 1);
      MergeOneMore(s, w, list, k, pushLast);
      if step.outcome.StepMerged? {
        BatchCalm(step.state, w, list, k + 1, pushLast);
      }
    }
  }

  lemma {:induction false} MergeBatchCalm(s: State, w: World, id: AgentId)
    requires id < |s.agents|
    ensures Calm(s, MergeBatch(s, w, id))
  {
    var list := DrainList(s, w, id);
    BatchCalm(s, w, list, 0, false);
    var b := MergeAll(s, w, list, 0, false);
    if !b.stopped {
      StepCalm(b.state, w, |list|, id, true);
      VerdictCalm(AwaitCi(MergeStep(b.state, w, |list|, id, true).state), w, s.agents[id].task);
    }
  }

  lemma {:induction false} VerdictCalm(s: State, w: World, task: Task)
    ensures Calm(s, OnCi(s, w, task))
  {
  }

  lemma {:induction false} MachineDefers(s: State, w: World, j: AgentId, id: AgentId)
    requires j < |s.agents| && id < |s.agents| && !s.agents[id].mergeStatus.Deferred?
    ensures var t := RunStateMachine(s, w, j);
            id < |t.agents|
            && (t.agents[id].mergeStatus.Deferred? <==>
                  Enabled(s) && j == id && !Due(s, w, s.agents[j].task))
  {
    DueExactly(s, w, s.agents[j].task);
    if Enabled(s) && Due(s, w, s.agents[j].task) {
      MergeBatchCalm(s, w, j);
      GateCalm(s, w, j);
    }
  }

  lemma {:induction false} GateCalm(s: State, w: World, id: AgentId)
    requires id < |s.agents|
    ensures Calm(s, OnGateFailed(s, w, id))
  {
  }

  lemma {:induction false} FixCalm(s: State, w: World, id: AgentId)
    requires id < |s.agents|
    ensures Calm(s, OnFixDone(s, w, id))
  {
    StepCalm(s, w, 0, id, true);
    if AttemptOf(s.attempts, id).Some? && MergeBranch(s, w, 0, id, true).result.Merged? {
      var i := AttemptOf(s.attempts, id).value;
      var t := Close(AwaitCi(MergeBranch(s, w, 0, id, true).state), i, FixOutcome(w.ci));
      var task := s.attempts[i].task;
      VerdictCalm(if w.ci.CiGreen? || w.ci.CiNotConfigured? then t.(status := t.status[task := Completed]) else t,
                  w, task);
    }
  }

  lemma {:induction false} CompletionDefers(s: State, w: World, j: AgentId, id: AgentId)
    requires j < |s.agents| && id < |s.agents| && !s.agents[id].mergeStatus.Deferred?
    ensures var t := OnCompleted(s, w, j);
            id < |t.agents| && (t.agents[id].mergeStatus.Deferred? <==> Defers(s, Finish(j, w), id))
  {
    match s.agents[j].role
    case Work => MachineDefers(s, w, j, id);
    case GateFix(_) => RerunDefers(s, w, s.agents[j].task, id);
    case CiFix(_) => FixCalm(s, w, j);
    case Resolver(_) =>
      if AttemptOf(s.attempts, j).Some? {
        var i := AttemptOf(s.attempts, j).value;
        RerunDefers(Close(s, i, if w.resolved then Resolved else Unresolved), w, s.attempts[i].task, id);
      }
  }

  lemma {:induction false} RerunDefers(s: State, w: World, task: Task, id: AgentId)
    requires id < |s.agents| && !s.agents[id].mergeStatus.Deferred?
    ensures var t := Rerun(s, w, task);
            id < |t.agents|
            && (t.agents[id].mergeStatus.Deferred? <==>
                  Enabled(s) && WorkAgent(s.agents, task) == Some(id) && !Due(s, w, s.agents[id].task))
  {
    if WorkAgent(s.agents, task).Some? {
      MachineDefers(s, w, WorkAgent(s.agents, task).value, id);
    }
  }

  // ---------------------------------------------------------------- and so over runs

  /** Some step of the run defers the row. */
  ghost predicate DefersAt(s: State, ops: seq<Op>, k: nat, id: AgentId) {
    k < |ops| && id < |Run(s, ops[..k]).agents| && Defers(Run(s, ops[..k]), ops[k], id)
  }

  /** Whatever completes, flushes, starts or is switched: a row that is not deferred stays out of every list of every
      later drain and flush, until its own machine runs again short of a boundary. */
  lemma {:induction false} StaysOut(s: State, ops: seq<Op>, id: AgentId, v: World, other: AgentId)
    requires id < |s.agents| && !s.agents[id].mergeStatus.Deferred?
    requires forall k: nat :: !DefersAt(s, ops, k, id)
    ensures var r := Run(s, ops);
            && id < |r.agents| && !r.agents[id].mergeStatus.Deferred? && id !in FlushList(r, v)
            && (other < |r.agents| ==> id !in DrainList(r, v, other))
    decreases |ops|
  {
    var r := Run(s, ops);
    if ops != [] {
      var n := |ops| - 1;
      var front := ops[..n];
      forall k: nat ensures !DefersAt(s, front, k, id) {
        assert !DefersAt(s, ops, k, id);
        if k < n {
          assert front[..k] == ops[..k];
        }
      }
      StaysOut(s, front, id, v, other);
      assert !DefersAt(s, ops, n, id);
      OnlyItsMachineDefers(Run(s, front), ops[n], id);
    }
    NotListed(r, v, id, other);
  }

  lemma {:induction false} NotListed(t: State, v: World, id: AgentId, other: AgentId)
    requires id < |t.agents| && !t.agents[id].mergeStatus.Deferred?
    ensures id !in FlushList(t, v) && (other < |t.agents| ==> id !in DrainList(t, v, other))
  {
    var all := if v.plan.None? then [] else AllTasks(v.plan.value);
    OnlyDeferredListed(t.agents, all, None, id);
    if other < |t.agents| {
      OnlyDeferredListed(t.agents, DrainScope(v, t.agents[other].task), Some(other), id);
    }
  }

  /** A trigger that its machine leaves is out of every list of every later state, until that machine runs for it again
      short of a boundary. */
  lemma {:induction false} LeftStaysOut(s: State, w: World, id: AgentId, ops: seq<Op>, v: World, other: AgentId)
    requires id < |s.agents| && Left(RunStateMachine(s, w, id), id)
    requires forall k: nat :: !DefersAt(RunStateMachine(s, w, id), ops, k, id)
    ensures var r := Run(RunStateMachine(s, w, id), ops);
            && id < |r.agents| && id !in FlushList(r, v) && (other < |r.agents| ==> id !in DrainList(r, v, other))
  {
    StaysOut(RunStateMachine(s, w, id), ops, id, v, other);
  }

  /** A drain that stops at a sibling leaves its trigger neither deferred nor advanced, and in no later list, until its
      machine runs again short of a boundary. */
  lemma {:induction false} StoppedDrainStrandsTrigger(s: State, w: World, id: AgentId, ops: seq<Op>, v: World,
                                                      other: AgentId)
    requires id < |s.agents| && Enabled(s) && !s.agents[id].mergeStatus.Deferred?
    requires Due(s, w, s.agents[id].task) && !GateRefuses(s, w, id)
    requires MergeAll(s, w, DrainList(s, w, id), 0, false).stopped
    requires forall k: nat :: !DefersAt(RunStateMachine(s, w, id), ops, k, id)
    ensures var t, r := RunStateMachine(s, w, id), Run(RunStateMachine(s, w, id), ops);
            && t.advances == s.advances && t.awaited == s.awaited
            && id < |r.agents| && !r.agents[id].mergeStatus.Deferred?
            && id !in FlushList(r, v) && (other < |r.agents| ==> id !in DrainList(r, v, other))
  {
    DueExactly(s, w, s.agents[id].task);
    RefusesExactly(s, w, id);
    BatchLandsPrefix(s, w, DrainList(s, w, id), 0, false);
    MachineDefers(s, w, id, id);
    StaysOut(RunStateMachine(s, w, id), ops, id, v, other);
  }
}
