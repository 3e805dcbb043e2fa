/** How the auto-mode handlers end: never in limbo (server-rs/src/auto_mode.rs, the state machine and the fix
    handler). */
module NoLimbo {
  import opened Util
  import opened Text
  import opened AutoMode
  import opened Batches
  import opened Decisions

  /** The drained rows, then the trigger. */
  function WholeBatch(s: State, w: World, id: AgentId): seq<AgentId>
    requires id < |s.agents|
  {
    DrainList(s, w, id) + [id]
  }

  /** Every branch of the batch landed, in order, the trigger's last. */
  predicate BatchLanded(s: State, t: State, w: World, id: AgentId)
    requires id < |s.agents|
  {
    OwnBranches(s.agents, WholeBatch(s, w, id)) && t.trunk == s.trunk + Branches(s.agents, WholeBatch(s, w, id))
  }

  predicate CiAwaited(s: State, t: State) {
    t.awaited == s.awaited + [|t.trunk|]
  }

  predicate NoNewAgent(s: State, t: State) {
    |t.agents| == |s.agents|
  }

  predicate DeferredAndAdvanced(s: State, t: State, id: AgentId)
    requires id < |s.agents|
  {
    && NoNewAgent(s, t) && t.agents[id].mergeStatus.Deferred? && Done(t.status, s.agents[id].task) && t.paused.None?
    && t.trunk == s.trunk && t.awaited == s.awaited && t.advances == s.advances + [s.agents[id].task]
  }

  predicate MergedAndAdvanced(s: State, t: State, w: World, id: AgentId)
    requires id < |s.agents|
  {
    && NoNewAgent(s, t) && t.paused.None? && BatchLanded(s, t, w, id) && CiAwaited(s, t)
    && t.advances == s.advances + [s.agents[id].task]
  }

  predicate PausedPlan(s: State, t: State) {
    NoNewAgent(s, t) && t.paused.Some? && t.advances == s.advances
  }

  /** One new agent, for the task of a row of the batch: a gate fix, a CI fix or a resolver. */
  predicate RecoveryStarted(s: State, t: State, w: World, id: AgentId)
    requires id < |s.agents|
  {
    && t.paused.None? && t.advances == s.advances && |t.agents| == |s.agents| + 1
    && !t.agents[|s.agents|].role.Work?
    && (exists i :: 0 <= i < |WholeBatch(s, w, id)|
                    && s.agents[WholeBatch(s, w, id)[i]].task == t.agents[|s.agents|].task)
  }

  predicate CancelledAfterMerge(s: State, t: State, w: World, id: AgentId)
    requires id < |s.agents|
  {
    NoNewAgent(s, t) && t.paused.None? && t.advances == s.advances && BatchLanded(s, t, w, id) && CiAwaited(s, t)
  }

  function One(b: bool): nat {
    if b then 1 else 0
  }

  function Endings(s: State, t: State, w: World, id: AgentId): nat
    requires id < |s.agents|
  {
    One(DeferredAndAdvanced(s, t, id)) + One(MergedAndAdvanced(s, t, w, id)) + One(PausedPlan(s, t))
    + One(RecoveryStarted(s, t, w, id)) + One(CancelledAfterMerge(s, t, w, id))
  }

  // ---------------------------------------------------------------- the merging half

  /** The trigger lands on top of its drained siblings. */
  lemma {:induction false} LandTriggerLast(s: State, mid: State, ids: seq<AgentId>, id: AgentId)
    requires LandedExactly(s, mid, ids) && id < |s.agents| && mid.agents[id].branch.Some?
    ensures OwnBranches(s.agents, ids + [id])
    ensures Branches(s.agents, ids + [id]) == Branches(s.agents, ids) + [BranchName(mid.agents[id])]
  {
    var landed := Branches(s.agents, ids);
    assert RowLanded(s.agents[id], mid.agents[id], id in ids, landed);
    var all := ids + [id];
    forall i | 0 <= i < |all| ensures all[i] < |s.agents| && s.agents[all[i]].branch.Some? {
      if i < |ids| {
        assert all[i] == ids[i];
      }
    }
    forall i, j | 0 <= i < j < |all| ensures s.agents[all[i]].branch != s.agents[all[j]].branch {
      assert all[i] == ids[i] && landed[i] == BranchName(s.agents[ids[i]]);
    }
  }

  /** Whatever the outside answers, the trigger's merge is reached only when all its siblings landed, and CI is
      awaited only when the trigger landed too. */
  lemma {:induction false} DrainThenTrigger(s: State, w: World, id: AgentId)
    requires id < |s.agents| && s.paused.None?
    ensures var list := DrainList(s, w, id);
            var b := MergeAll(s, w, list, 0, false);
            if b.stopped then StoppedAt(s, b.state, w, id)
            else
              var step := MergeStep(b.state, w, |list|, id, true);
              if step.outcome.StepMerged?
              then LandedAll(s, step.state, w, id) else StoppedAt(s, step.state, w, id)
  {
    var list := DrainList(s, w, id);
    BatchLandsPrefix(s, w, list, 0, false);
    PrefixLands(s, w, list, 0, false);
    var b, mid := MergeAll(s, w, list, 0, false), Before(s, w, list, 0, false);
    assert list[0..|list|] == list;
    var whole := WholeBatch(s, w, id);
    if b.stopped {
      assert whole[b.merged] == list[b.merged];
      assert whole[..b.merged] == list[0..b.merged];
      HaltedIsStop(s, mid, b.state, w, id, b.merged);
    } else {
      var step := MergeStep(mid, w, |list|, id, true);
      MergedStep(mid, w, |list|, id, true);
      if step.outcome.StepMerged? {
        LandTriggerLast(s, mid, list, id);
        Associate(s.trunk, Branches(s.agents, list), [BranchName(mid.agents[id])]);
      } else {
        HaltedStep(mid, w, |list|, id, true);
        assert whole[|list|] == id;
        assert whole[..|list|] == list;
        HaltedIsStop(s, mid, step.state, w, id, |list|);
      }
    }
  }

  predicate LandedAll(s: State, t: State, w: World, id: AgentId)
    requires id < |s.agents|
  {
    && BatchLanded(s, t, w, id) && NoNewAgent(s, t) && t.paused == s.paused && t.advances == s.advances
    && t.awaited == s.awaited && t.attempts == s.attempts && t.status == s.status
    && t.agents[id].task == s.agents[id].task && t.agents[id].role == s.agents[id].role
  }

  /** Paused, or a resolver at work on a row of the batch; trunk short of the trigger, nothing awaited. */
  predicate StoppedAt(s: State, t: State, w: World, id: AgentId)
    requires id < |s.agents|
  {
    && t.advances == s.advances && t.awaited == s.awaited && |t.trunk| <= |s.trunk| + |DrainList(s, w, id)|
    && (PausedPlan(s, t) || RecoveryStarted(s, t, w, id)) && EndsByMerge(s, t, w, id)
  }

  lemma {:induction false} HaltedIsStop(s: State, mid: State, t: State, w: World, id: AgentId, k: nat)
    requires id < |s.agents| && s.paused.None? && k < |WholeBatch(s, w, id)| && WholeBatch(s, w, id)[k] < |s.agents|
    requires LandedExactly(s, mid, WholeBatch(s, w, id)[..k]) && (forall j :: 0 <= j < k ==> w.merge(j).Lands?)
    requires Halted(mid, t, w, k, WholeBatch(s, w, id)[k])
    ensures StoppedAt(s, t, w, id)
  {
    var batch := WholeBatch(s, w, id);
    assert RowLanded(s.agents[batch[k]], mid.agents[batch[k]], batch[k] in batch[..k], Branches(s.agents, batch[..k]));
    StopFits(s, mid, t, w, batch, k);
    if t.paused.None? {
      assert t.agents[|s.agents|].task == s.agents[batch[k]].task;
    }
  }

  // ---------------------------------------------------------------- no limbo

  lemma {:induction false} VerdictEndings(s: State, t: State, w: World, id: AgentId)
    requires id < |s.agents| && s.paused.None? && LandedAll(s, t, w, id)
    ensures Endings(s, OnCi(AwaitCi(t), w, s.agents[id].task), w, id) == 1
    ensures CiAwaited(s, OnCi(AwaitCi(t), w, s.agents[id].task))
    ensures BatchLanded(s, OnCi(AwaitCi(t), w, s.agents[id].task), w, id)
  {
    var r := OnCi(AwaitCi(t), w, s.agents[id].task);
    assert WholeBatch(s, w, id)[|DrainList(s, w, id)|] == id;
    assert |r.trunk| > |s.trunk|;
  }

  lemma {:induction false} GateEndings(s: State, w: World, id: AgentId)
    requires id < |s.agents| && Enabled(s)
    ensures Endings(s, OnGateFailed(s, w, id), w, id) == 1
    ensures OnGateFailed(s, w, id).awaited == s.awaited && !BatchLanded(s, OnGateFailed(s, w, id), w, id)
  {
    assert WholeBatch(s, w, id)[|DrainList(s, w, id)|] == id;
  }

  /** No limbo. A plan that is off or paused is left alone. Otherwise, whatever gate, git and CI answer, the
      machine ends in exactly one of: deferred and advanced; merged and advanced; paused; a recovery agent started;
      cancelled while waiting. It waits for CI exactly when the whole batch landed, the trigger last. */
  lemma {:induction false} MachineNeverInLimbo(s: State, w: World, id: AgentId)
    requires id < |s.agents|
    ensures var t := RunStateMachine(s, w, id);
            if Enabled(s)
            then Endings(s, t, w, id) == 1 && (t.awaited != s.awaited <==> BatchLanded(s, t, w, id))
            else t == s
  {
    if Enabled(s) {
      if !ShouldMergeNow(s, w, s.agents[id].task) {
        assert RunStateMachine(s, w, id).trunk == s.trunk;
      } else if RunGate(s, w, id).Fail? {
        GateEndings(s, w, id);
      } else {
        BatchEndings(s, w, id);
      }
    }
  }

  lemma {:induction false} BatchEndings(s: State, w: World, id: AgentId)
    requires id < |s.agents| && Enabled(s)
    ensures var t := MergeBatch(s, w, id);
            Endings(s, t, w, id) == 1 && (t.awaited != s.awaited <==> BatchLanded(s, t, w, id))
  {
    DrainThenTrigger(s, w, id);
    var list := DrainList(s, w, id);
    var b := MergeAll(s, w, list, 0, false);
    if !b.stopped {
      var step := MergeStep(b.state, w, |list|, id, true);
      if step.outcome.StepMerged? {
        VerdictEndings(s, step.state, w, id);
      }
    }
  }

  // ---------------------------------------------------------------- which ending

  /** What a landed batch leads to: the CI answer decides, and a red answer costs the next attempt or pauses at the
      cap. */
  predicate EndsByCi(s: State, t: State, w: World, task: Task) {
    match w.ci
    case CiGreen => t.advances == s.advances + [task] && t.paused.None? && NoNewAgent(s, t)
    case CiNotConfigured => t.advances == s.advances + [task] && t.paused.None? && NoNewAgent(s, t)
    case CiRed =>
      if CountAttempts(s.attempts, task) >= w.cap then t.paused == Some(CapReached) && NoNewAgent(s, t)
      else NextFix(s, t, task)
    case CiStall => t.paused == Some(CiStalled) && NoNewAgent(s, t) && t.advances == s.advances
    case CiCancelled => t.advances == s.advances && t.paused.None? && NoNewAgent(s, t)
  }

  predicate NextFix(s: State, t: State, task: Task) {
    var n := CountAttempts(s.attempts, task) + 1;
    && |t.agents| == |s.agents| + 1
    && t.agents[|s.agents|] == Agent(task, CiFix(n), Some(task + "-fix-" + Decimal(n)), NoStatus)
    && AttemptRow(t.attempts, task, n).Some? && t.attempts[AttemptRow(t.attempts, task, n).value].agent == |s.agents|
  }

  /** A failed gate: one fix on the trigger's own branch if a recipe exists and none was tried, otherwise a pause. */
  predicate EndsByGate(s: State, t: State, w: World, id: AgentId)
    requires id < |s.agents|
  {
    var a := s.agents[id];
    if w.hasRecipe && a.branch.Some? && (forall i :: 0 <= i < |s.agents| ==>
      !(s.agents[i].task == a.task && s.agents[i].role.GateFix?))
    then t.agents == s.agents + [Agent(a.task, GateFix(1), a.branch, NoStatus)] && t.paused.None?
    else t.agents == s.agents && t.paused == Some(GateFailed)
  }

  /** A merge of the batch that did not land. */
  predicate EndsByMerge(s: State, t: State, w: World, id: AgentId)
    requires id < |s.agents|
  {
    exists i :: 0 <= i < |WholeBatch(s, w, id)| && StopsAt(s, t, w, WholeBatch(s, w, id), i)
  }

  /** The rows before the i-th have landed. The i-th has no branch, or shares one of theirs, or git breaks: the merge
      has failed. Or it conflicts: a resolver takes over, where one can work and the cap is not reached; otherwise the
      pause says which it was. */
  predicate StopsAt(s: State, t: State, w: World, batch: seq<AgentId>, i: nat)
    requires i < |batch|
  {
    && batch[i] < |s.agents| && OwnBranches(s.agents, batch[..i])
    && t.trunk == s.trunk + Branches(s.agents, batch[..i]) && (forall j :: 0 <= j < i ==> w.merge(j).Lands?)
    && var a := s.agents[batch[i]];
       if a.branch.None? || a.branch.value in Branches(s.agents, batch[..i]) || w.merge(i).Breaks?
       then StopsWith(s, t, MergeFailed)
       else
         && w.merge(i).Conflicts?
         && if !w.resolvers || !a.role.Work? || !s.enabled then StopsWith(s, t, MergeConflict)
            else if CountAttempts(s.attempts, a.task) >= w.cap then StopsWith(s, t, ConflictUnresolved)
            else t.paused.None? && ResolverFor(s, t, batch[i])
  }

  predicate StopsWith(s: State, t: State, reason: Reason) {
    t.paused == Some(reason) && NoNewAgent(s, t) && t.attempts == s.attempts
  }

  predicate ResolverFor(s: State, t: State, row: AgentId) {
    && row < |s.agents| && |t.agents| == |s.agents| + 1 && t.agents[row].mergeStatus.Held?
    && var n := CountAttempts(s.attempts, s.agents[row].task) + 1;
       && t.agents[|s.agents|] == Agent(s.agents[row].task, Resolver(n), None, Held)
       && AttemptRow(t.attempts, s.agents[row].task, n).Some?
  }

  lemma {:induction false} RecordedRow(attempts: seq<Attempt>, task: Task, n: nat, agent: AgentId)
    ensures var r := AttemptRow(Record(attempts, task, n, agent), task, n);
            r.Some? && Record(attempts, task, n, agent)[r.value].agent == agent
  {
    var after := Record(attempts, task, n, agent);
    match AttemptRow(attempts, task, n)
    case None =>
    case Some(i) => SameRow(attempts, i, agent, task, n);
  }

  lemma {:induction false} SameRow(attempts: seq<Attempt>, i: nat, agent: AgentId, task: Task, n: nat)
    requires i < |attempts|
    ensures AttemptRow(attempts[i := attempts[i].(agent := agent)], task, n) == AttemptRow(attempts, task, n)
  {
    var after := attempts[i := attempts[i].(agent := agent)];
    var last := |attempts| - 1;
    if i < last {
      SameRow(attempts[..last], i, agent, task, n);
      assert after[..last] == attempts[..last][i := attempts[..last][i].(agent := agent)];
    } else {
      assert after[..last] == attempts[..last];
    }
  }

  lemma {:induction false} NoGateFix(agents: seq<Agent>, task: Task)
    ensures GateFixes(agents, task) == 0 <==>
            forall i :: 0 <= i < |agents| ==> !(agents[i].task == task && agents[i].role.GateFix?)
  {
    if agents != [] {
      var front := agents[..|agents| - 1];
      NoGateFix(front, task);
      assert forall i :: 0 <= i < |front| ==> front[i] == agents[i];
    }
  }

  /** The gate's ending touches neither trunk nor CI. */
  predicate OnlyGate(s: State, t: State) {
    && t.trunk == s.trunk && t.pushes == s.pushes && t.awaited == s.awaited && t.advances == s.advances
    && t.status == s.status && t.attempts == s.attempts
  }

  /** Which ending, exactly: no merge due, deferral; gate refuses, as `EndsByGate`, with nothing merged or pushed; batch
      landed, as CI says; and otherwise as the merge that did not land says. The spawn of a CI fix never fails here. */
  lemma {:induction false} EndingFitsCause(s: State, w: World, id: AgentId)
    requires id < |s.agents| && Enabled(s) && s.agents[id].role.Work?
    ensures var t, task := RunStateMachine(s, w, id), s.agents[id].task;
            if !Due(s, w, task) then DeferredAndAdvanced(s, t, id)
            else if GateRefuses(s, w, id) then EndsByGate(s, t, w, id) && OnlyGate(s, t)
            else
              && !EndsByGate(s, t, w, id)
              && (if BatchLanded(s, t, w, id) then EndsByCi(s, t, w, task) else EndsByMerge(s, t, w, id))
  {
    DueExactly(s, w, s.agents[id].task);
    RefusesExactly(s, w, id);
    if !Due(s, w, s.agents[id].task) {
    } else if GateRefuses(s, w, id) {
      NoGateFix(s.agents, s.agents[id].task);
    } else {
      BatchEndingFits(s, w, id);
      NotByGate(s, RunStateMachine(s, w, id), w, id);
    }
  }

  /** The endings of a batch are none of the gate's. */
  lemma {:induction false} NotByGate(s: State, t: State, w: World, id: AgentId)
    requires id < |s.agents| && s.paused.None?
    requires EndsByCi(s, t, w, s.agents[id].task) || EndsByMerge(s, t, w, id)
    ensures !EndsByGate(s, t, w, id)
  {
    if EndsByMerge(s, t, w, id) {
      var i :| 0 <= i < |WholeBatch(s, w, id)| && StopsAt(s, t, w, WholeBatch(s, w, id), i);
    }
  }

  lemma {:induction false} BatchEndingFits(s: State, w: World, id: AgentId)
    requires id < |s.agents| && Enabled(s) && s.agents[id].role.Work?
    ensures var t := MergeBatch(s, w, id);
            if BatchLanded(s, t, w, id) then EndsByCi(s, t, w, s.agents[id].task) else EndsByMerge(s, t, w, id)
  {
    DrainThenTrigger(s, w, id);
    var list := DrainList(s, w, id);
    var b := MergeAll(s, w, list, 0, false);
    if !b.stopped {
      var step := MergeStep(b.state, w, |list|, id, true);
      if step.outcome.StepMerged? {
        VerdictFits(s, step.state, w, id);
      }
    }
  }

  lemma {:induction false} StopFits(s: State, mid: State, t: State, w: World, batch: seq<AgentId>, k: nat)
    requires s.paused.None? && k < |batch| && batch[k] < |s.agents| && LandedExactly(s, mid, batch[..k])
    requires (forall j :: 0 <= j < k ==> w.merge(j).Lands?) && Halted(mid, t, w, k, batch[k])
    ensures StopsAt(s, t, w, batch, k)
  {
    assert RowLanded(s.agents[batch[k]], mid.agents[batch[k]], batch[k] in batch[..k], Branches(s.agents, batch[..k]));
    if t.paused.None? {
      ResolverFits(s, mid, t, w, batch[k]);
    }
  }

  lemma {:induction false} ResolverFits(s: State, mid: State, t: State, w: World, row: AgentId)
    requires row < |s.agents| && |mid.agents| == |s.agents| && mid.agents[row].task == s.agents[row].task
    requires mid.attempts == s.attempts && ResolverAt(mid, t, w, row)
    ensures ResolverFor(s, t, row)
  {
    RecordedRow(s.attempts, s.agents[row].task, CountAttempts(s.attempts, s.agents[row].task) + 1, |s.agents|);
  }

  lemma {:induction false} VerdictFits(s: State, t: State, w: World, id: AgentId)
    requires id < |s.agents| && s.paused.None? && s.agents[id].role.Work? && LandedAll(s, t, w, id)
    ensures BatchLanded(s, OnCi(AwaitCi(t), w, s.agents[id].task), w, id)
    ensures EndsByCi(s, OnCi(AwaitCi(t), w, s.agents[id].task), w, s.agents[id].task)
  {
    var task := s.agents[id].task;
    RecordedRow(s.attempts, task, CountAttempts(s.attempts, task) + 1, |s.agents|);
  }

  // ---------------------------------------------------------------- the fix handler

  /** The attempt's row carries a verdict. */
  predicate Closed(t: State, i: nat) {
    i < |t.attempts| && t.attempts[i].outcome.Some?
  }

  predicate FixLanded(s: State, t: State, id: AgentId)
    requires id < |s.agents|
  {
    t.trunk == s.trunk + [BranchName(s.agents[id])] && CiAwaited(s, t)
  }

  predicate FixCompletedTask(s: State, t: State, task: Task) {
    NoNewAgent(s, t) && t.paused.None? && t.advances == s.advances + [task] && Done(t.status, task)
  }

  predicate NextFixStarted(s: State, t: State, task: Task) {
    && t.paused.None? && t.advances == s.advances && |t.agents| == |s.agents| + 1
    && t.agents[|s.agents|].role.CiFix? && t.agents[|s.agents|].task == task
  }

  predicate FixCancelled(s: State, t: State) {
    NoNewAgent(s, t) && t.paused.None? && t.advances == s.advances
  }

  function FixEndings(s: State, t: State, task: Task): nat {
    One(FixCompletedTask(s, t, task)) + One(PausedPlan(s, t)) + One(NextFixStarted(s, t, task)) +
      One(FixCancelled(s, t))
  }

  /** A finished CI fix closes its attempt and ends in exactly one of: its task completed and advanced; paused; the
      next fix started; cancelled. Its branch lands and CI is awaited together, exactly when git merges it;
      otherwise the plan is paused. It never starts a resolver. Nothing changes when the plan is off or paused, or
      when the agent has no attempt on record, which no run of the loop leads to (see Completions). */
  lemma {:induction false} FixNeverInLimbo(s: State, w: World, id: AgentId)
    requires id < |s.agents| && s.agents[id].role.CiFix?
    ensures var t := OnCompleted(s, w, id);
            if !Enabled(s) || AttemptOf(s.attempts, id).None? then t == s
            else FixEnds(s, t, w, id, AttemptOf(s.attempts, id).value)
  {
    if Enabled(s) && AttemptOf(s.attempts, id).Some? {
      var m := MergeBranch(s, w, 0, id, true);
      if m.result.Merged? {
        ClearedWork(s.agents, m.state.agents, s.attempts[AttemptOf(s.attempts, id).value].task);
        FixVerdict(s, m.state, w, id, AttemptOf(s.attempts, id).value);
      }
    }
  }

  predicate FixEnds(s: State, t: State, w: World, id: AgentId, i: nat)
    requires id < |s.agents| && i < |s.attempts|
  {
    && Closed(t, i) && |t.attempts| >= |s.attempts| && FixEndings(s, t, s.attempts[i].task) == 1
    && (if s.agents[id].branch.Some? && w.merge(0).Lands? then FixLanded(s, t, id) && FixEndsByCi(s, t, w, i)
        else
          && t.attempts == s.attempts[i := s.attempts[i].(outcome := Some(MergeBroke))]
          && NoNewAgent(s, t) && t.paused == Some(FixMergeFailed)
          && t.trunk == s.trunk && t.awaited == s.awaited && t.advances == s.advances && t.status == s.status)
  }

  /** What CI says of the fix closes its attempt, and decides for its task. */
  predicate FixEndsByCi(s: State, t: State, w: World, i: nat)
    requires i < |s.attempts| <= |t.attempts|
  {
    var task, outcome := s.attempts[i].task, t.attempts[i].outcome;
    match w.ci
    case CiGreen =>
      outcome == Some(Green) && FixCompletedTask(s, t, task) && t.status == s.status[task := Completed]
    case CiNotConfigured =>
      outcome == Some(Green) && FixCompletedTask(s, t, task) && t.status == s.status[task := Completed]
    case CiRed =>
      && outcome == Some(Red) && t.status == s.status
      && if CountAttempts(s.attempts, task) >= w.cap then t.paused == Some(CapReached) && NoNewAgent(s, t)
         else if WorkAgent(s.agents, task).None? then t.paused == Some(FixSpawnFailed) && NoNewAgent(s, t)
         else NextFix(s, t, task)
    case CiStall => outcome == Some(Stalled) && t.status == s.status && t.paused == Some(CiStalled)
    case CiCancelled => outcome == Some(Cancelled) && t.status == s.status && FixCancelled(s, t)
  }

  lemma {:induction false} ClosingKeepsCount(attempts: seq<Attempt>, i: nat, outcome: AttemptOutcome, task: Task)
    requires i < |attempts|
    ensures CountAttempts(attempts[i := attempts[i].(outcome := Some(outcome))], task) == CountAttempts(attempts, task)
  {
    var closed, last := attempts[i := attempts[i].(outcome := Some(outcome))], |attempts| - 1;
    if i < last {
      ClosingKeepsCount(attempts[..last], i, outcome, task);
      assert closed[..last] == attempts[..last][i := attempts[..last][i].(outcome := Some(outcome))];
    } else {
      assert closed[..last] == attempts[..last];
    }
  }

  /** From the landed fix on. */
  lemma {:induction false} FixVerdict(s: State, m: State, w: World, id: AgentId, i: nat)
    requires id < |s.agents| && s.paused.None? && i < |s.attempts|
    requires m.paused == s.paused && m.attempts == s.attempts && |m.agents| == |s.agents| && m.advances == s.advances
    requires m.trunk == s.trunk + [BranchName(s.agents[id])] && m.awaited == s.awaited && m.status == s.status
    requires WorkAgent(m.agents, s.attempts[i].task) == WorkAgent(s.agents, s.attempts[i].task)
    ensures var task, c := s.attempts[i].task, Close(AwaitCi(m), i, FixOutcome(w.ci));
            var green := w.ci.CiGreen? || w.ci.CiNotConfigured?;
            var settled := if green then c.(status := c.status[task := Completed]) else c;
            var t := OnCi(settled, w, task);
            Closed(t, i) && FixEndings(s, t, task) == 1 && FixLanded(s, t, id) && FixEndsByCi(s, t, w, i)
  {
    var task, closed := s.attempts[i].task, Close(s, i, FixOutcome(w.ci)).attempts;
    ClosingKeepsCount(s.attempts, i, FixOutcome(w.ci), task);
    RecordedRow(closed, task, CountAttempts(s.attempts, task) + 1, |s.agents|);
  }

  lemma {:induction false} ClearedWork(a: seq<Agent>, b: seq<Agent>, task: Task)
    requires |a| == |b| && forall i :: 0 <= i < |a| ==> b[i].task == a[i].task && b[i].role == a[i].role
    ensures WorkAgent(b, task) == WorkAgent(a, task)
  {
  }

  // ---------------------------------------------------------------- only deferred rows are listed

  lemma {:induction false} OnlyDeferredListed(agents: seq<Agent>, order: seq<Task>, trigger: Option<AgentId>,
                                              id: AgentId)
    requires id < |agents| && !agents[id].mergeStatus.Deferred?
    ensures id !in Listed(agents, order, |order|, trigger)
  {
    var list := Listed(agents, order, |order|, trigger);
    ListIsExact(agents, order, trigger);
    forall k | 0 <= k < |list| ensures list[k] != id {
      assert MostRecent(agents, list[k], trigger);
    }
  }
}
