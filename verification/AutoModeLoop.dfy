/** The auto-mode loop in the form the server has it: handlers that change the rows of a plan in place. Each is proved
    against the specification in AutoMode, and the main ones also against what that specification promises
    (server-rs/src/auto_mode.rs; server-rs/src/api/agents.rs for the merge). The loops of the listing, the drain and the
    flush are loops here. */
module AutoModeLoop {
  import opened Util
  import opened AutoMode
  import opened Batches
  import opened NoLimbo

  /** The rows of one plan. The handlers change them in place; each is proved against its specification above. */
  class Loop {
    var enabled: bool
    var paused: Option<Reason>
    var agents: seq<Agent>
    var status: map<Task, TaskState>
    var attempts: seq<Attempt>
    var trunk: seq<Branch>
    var pushes: seq<nat>
    var awaited: seq<nat>
    var advances: seq<Task>

    function View(): State
      reads this
    {
      State(enabled, paused, agents, status, attempts, trunk, pushes, awaited, advances)
    }

    predicate Live()
      reads this
    {
      enabled && paused.None?
    }

    /** Rows in order of their start fill a map, later rows replacing earlier ones; the declared tasks then take
        theirs out one by one. */
    method ListDeferred(order: seq<Task>, trigger: Option<AgentId>) returns (list: seq<AgentId>)
      ensures list == Listed(agents, order, |order|, trigger)
      ensures DeclarationOrder(agents, order, list) && CoversTasks(agents, order, trigger, list) && NoDup(list)
      ensures forall i :: 0 <= i < |list| ==> MostRecent(agents, list[i], trigger)
    {
      var perTask: map<Task, AgentId> := map[];
      for i := 0 to |agents|
        invariant Collected(perTask, agents, i, [], trigger)
      {
        CollectOneMore(perTask, agents, i, trigger);
        if Drainable(agents, i, agents[i].task, trigger) {
          perTask := perTask[agents[i].task := i];
        }
      }
      list := [];
      for n := 0 to |order|
        invariant list == Listed(agents, order, n, trigger)
        invariant Collected(perTask, agents, |agents|, order[..n], trigger)
      {
        var t := order[n];
        assert order[..n + 1] == order[..n] + [t];
        TakeOneMore(perTask, agents, order[..n], trigger, t);
        if t in perTask {
          list := list + [perTask[t]];
          perTask := perTask - {t};
        }
      }
      assert order[..|order|] == order;
      ListIsExact(agents, order, trigger);
    }

    method MergeBranchOf(w: World, k: nat, id: AgentId, triggerCi: bool) returns (result: MergeResult)
      requires id < |agents|
      modifies this
      ensures Merging(View(), result) == MergeBranch(old(View()), w, k, id, triggerCi)
    {
      if agents[id].branch.None? {
        return Broken;
      }
      var branch := agents[id].branch.value;
      match w.merge(k)
      case Breaks => result := Broken;
      case Conflicts =>
        var d := TryResolver(w, id);
        result := Conflict(d);
      case Lands(sha) =>
        agents := ClearBranch(agents, branch);
        trunk := trunk + [branch];
        if triggerCi && sha != "" {
          pushes := pushes + [|trunk|];
        }
        result := Merged(sha);
    }

    method TryResolver(w: World, id: AgentId) returns (d: Disposition)
      requires id < |agents|
      modifies this
      ensures Merging(View(), Conflict(d)) == Resolve(old(View()), w, id)
    {
      if !agents[id].role.Work? || !w.resolvers || !Live() {
        return NoResolver;
      }
      var task := agents[id].task;
      var count := CountAttempts(attempts, task);
      if count >= w.cap {
        return CapHit;
      }
      var resolver := |agents|;
      attempts := Record(attempts, task, count + 1, resolver);
      agents := agents[id := agents[id].(mergeStatus := Held)] + [Agent(task, Resolver(count + 1), None, Held)];
      d := Spawned;
    }

    method RunMergeStep(w: World, k: nat, id: AgentId, triggerCi: bool) returns (outcome: StepOutcome)
      requires id < |agents|
      modifies this
      ensures Step(View(), outcome) == MergeStep(old(View()), w, k, id, triggerCi)
    {
      var result := MergeBranchOf(w, k, id, triggerCi);
      match result
      case Merged(_) =>
        if agents[id].mergeStatus.Deferred? {
          agents := agents[id := agents[id].(mergeStatus := NoStatus)];
        }
        outcome := StepMerged;
      case Conflict(Spawned) => outcome := StepResolving;
      case Conflict(CapHit) =>
        paused := Some(ConflictUnresolved);
        outcome := StepPaused;
      case Conflict(NoResolver) =>
        paused := Some(MergeConflict);
        outcome := StepPaused;
      case Broken =>
        paused := Some(MergeFailed);
        outcome := StepPaused;
    }

    /** The loop of the drain and of the flush: how many rows landed, and whether it stopped early. */
    method MergeList(w: World, list: seq<AgentId>, pushLast: bool) returns (k: nat, stopped: bool)
      requires AllRows(View(), list)
      modifies this
      ensures Batch(View(), k, stopped) == MergeAll(old(View()), w, list, 0, pushLast)
    {
      ghost var whole := MergeAll(View(), w, list, 0, pushLast);
      k, stopped := 0, false;
      while k < |list|
        invariant 0 <= k <= |list| && AllRows(View(), list)
        invariant MergeAll(View(), w, list, k, pushLast) == whole
      {
        ghost var before := View();
        var outcome := RunMergeStep(w, k, list[k], pushLast && k == |list| - 1);
        MergeOneMore(before, w, list, k, pushLast);
        if !outcome.StepMerged? {
          return k, true;
        }
        k := k + 1;
      }
    }

    method DrainDeferred(w: World, id: AgentId) returns (n: nat, ok: bool)
      requires id < |agents|
      modifies this
      ensures var list := DrainList(old(View()), w, id);
              var batch := MergeAll(old(View()), w, list, 0, false);
              n == |list| && View() == batch.state && ok == !batch.stopped
    {
      var list := ListDeferred(DrainScope(w, agents[id].task), Some(id));
      var k, stopped := MergeList(w, list, false);
      n, ok := |list|, !stopped;
    }

    /** The rows that landed, and whether the flush stopped early. It lands a prefix of the deferred rows in
        declaration order, and pushes once, everything, exactly when a non-empty list landed as a whole. */
    method FlushDeferred(w: World) returns (merged: seq<AgentId>, stopped: bool)
      modifies this
      ensures var list, batch := FlushList(old(View()), w), Flush(old(View()), w);
              View() == batch.state && stopped == batch.stopped && merged == list[..batch.merged]
      ensures var list := FlushList(old(View()), w);
              && merged <= list && stopped == (merged != list) && OwnBranches(old(agents), merged)
              && trunk == old(trunk) + Branches(old(agents), merged)
              && pushes == (if list != [] && !stopped && w.merge(|list| - 1) != Lands("")
                            then old(pushes) + [|trunk|] else old(pushes))
    {
      FlushMeaning(View(), w);
      var list := ListDeferred(if w.plan.None? then [] else AllTasks(w.plan.value), None);
      var k;
      k, stopped := MergeList(w, list, true);
      merged := list[..k];
    }

    method SpawnFix(w: World, task: Task)
      modifies this
      ensures View() == SpawnFixWithCap(old(View()), w, task)
    {
      var count := CountAttempts(attempts, task);
      if count >= w.cap {
        paused := Some(CapReached);
      } else if WorkAgent(agents, task).None? {
        paused := Some(FixSpawnFailed);
      } else {
        attempts := Record(attempts, task, count + 1, |agents|);
        agents := agents + [Agent(task, CiFix(count + 1), Some(FixBranch(task, count + 1)), NoStatus)];
      }
    }

    method OnVerdict(w: World, task: Task)
      modifies this
      ensures View() == OnCi(old(View()), w, task)
    {
      match w.ci
      case CiGreen => advances := advances + [task];
      case CiNotConfigured => advances := advances + [task];
      case CiRed => SpawnFix(w, task);
      case CiStall => paused := Some(CiStalled);
      case CiCancelled =>
    }

    method GateFailedFor(w: World, id: AgentId)
      requires id < |agents|
      modifies this
      ensures View() == OnGateFailed(old(View()), w, id)
    {
      var a := agents[id];
      var count := GateFixes(agents, a.task);
      if w.hasRecipe && count < GateFixCap && a.branch.Some? {
        agents := agents + [Agent(a.task, GateFix(count + 1), a.branch, NoStatus)];
      } else {
        paused := Some(GateFailed);
      }
    }

    /** The state machine. Off or paused, it changes nothing; otherwise it ends in exactly one way, and waits for CI
        exactly when the whole batch has landed. */
    method Run(w: World, id: AgentId)
      requires id < |agents|
      modifies this
      ensures View() == RunStateMachine(old(View()), w, id)
      ensures if old(Live())
              then Endings(old(View()), View(), w, id) == 1
                   && (awaited != old(awaited) <==> BatchLanded(old(View()), View(), w, id))
              else View() == old(View())
    {
      MachineNeverInLimbo(View(), w, id);
      if !Live() {
        return;
      }
      var task := agents[id].task;
      if !ShouldMergeNow(View(), w, task) {
        agents := agents[id := agents[id].(mergeStatus := Deferred)];
        status := status[task := Completed];
        advances := advances + [task];
        return;
      }
      if RunGate(View(), w, id).Fail? {
        GateFailedFor(w, id);
        return;
      }
      var n, ok := DrainDeferred(w, id);
      if ok {
        var outcome := RunMergeStep(w, n, id, true);
        if outcome.StepMerged? {
          awaited := awaited + [|trunk|];
          OnVerdict(w, task);
        }
      }
    }

    method RerunTask(w: World, task: Task)
      modifies this
      ensures View() == Rerun(old(View()), w, task)
    {
      var id := WorkAgent(agents, task);
      if id.Some? {
        Run(w, id.value);
      }
    }

    method ResolverDone(w: World, id: AgentId)
      modifies this
      ensures View() == OnResolverDone(old(View()), w, id)
    {
      var i := AttemptOf(attempts, id);
      if i.Some? && WorkAgent(agents, attempts[i.value].task).Some? {
        var outcome := if w.resolved then Resolved else Unresolved;
        attempts := attempts[i.value := attempts[i.value].(outcome := Some(outcome))];
        RerunTask(w, attempts[i.value].task);
      }
    }

    method FixDone(w: World, id: AgentId)
      requires id < |agents|
      modifies this
      ensures View() == OnFixDone(old(View()), w, id)
    {
      var i := AttemptOf(attempts, id);
      if i.None? {
        return;
      }
      var task := attempts[i.value].task;
      var result := MergeBranchOf(w, 0, id, true);
      if !result.Merged? {
        attempts := attempts[i.value := attempts[i.value].(outcome := Some(MergeBroke))];
        paused := Some(FixMergeFailed);
        return;
      }
      awaited := awaited + [|trunk|];
      attempts := attempts[i.value := attempts[i.value].(outcome := Some(FixOutcome(w.ci)))];
      if w.ci.CiGreen? || w.ci.CiNotConfigured? {
        status := status[task := Completed];
      }
      OnVerdict(w, task);
    }

    method AgentCompleted(w: World, id: AgentId)
      requires id < |agents|
      modifies this
      ensures View() == OnCompleted(old(View()), w, id)
      ensures DeferralKept(old(View()), View())
    {
      DeferredOnlyLandsOrResolves(View(), w, id);
      if !Live() {
        return;
      }
      match agents[id].role
      case Resolver(_) => ResolverDone(w, id);
      case GateFix(_) => RerunTask(w, agents[id].task);
      case CiFix(_) => FixDone(w, id);
      case Work => Run(w, id);
    }
  }

  /** The map holds each task's latest drainable row among the first n, except the tasks already taken out. */
  ghost predicate Collected(m: map<Task, AgentId>, agents: seq<Agent>, n: nat, taken: seq<Task>,
                            trigger: Option<AgentId>)
    requires n <= |agents|
  {
    forall t :: CollectedFor(m, agents, n, taken, trigger, t)
  }

  ghost predicate CollectedFor(m: map<Task, AgentId>, agents: seq<Agent>, n: nat, taken: seq<Task>,
                               trigger: Option<AgentId>, t: Task)
    requires n <= |agents|
  {
    && (t in m <==> t !in taken && Latest(agents, n, t, trigger).Some?)
    && (t in m ==> m[t] == Latest(agents, n, t, trigger).value)
  }

  lemma {:induction false} CollectOneMore(m: map<Task, AgentId>, agents: seq<Agent>, i: nat, trigger: Option<AgentId>)
    requires i < |agents| && Collected(m, agents, i, [], trigger)
    ensures Collected(if Drainable(agents, i, agents[i].task, trigger) then m[agents[i].task := i] else m,
                      agents, i + 1, [], trigger)
  {
    var r := if Drainable(agents, i, agents[i].task, trigger) then m[agents[i].task := i] else m;
    var n := i + 1;
    forall t ensures CollectedFor(r, agents, n, [], trigger, t) {
      assert CollectedFor(m, agents, i, [], trigger, t);
    }
  }

  lemma {:induction false} TakeOneMore(m: map<Task, AgentId>, agents: seq<Agent>, taken: seq<Task>,
                                       trigger: Option<AgentId>, t: Task)
    requires Collected(m, agents, |agents|, taken, trigger)
    ensures Collected(m - {t}, agents, |agents|, taken + [t], trigger)
    ensures t !in m ==> m - {t} == m
    ensures t in m <==> t !in taken && Latest(agents, |agents|, t, trigger).Some?
    ensures t in m ==> m[t] == Latest(agents, |agents|, t, trigger).value
  {
    assert CollectedFor(m, agents, |agents|, taken, trigger, t);
    var rest, out := m - {t}, taken + [t];
    forall u ensures CollectedFor(rest, agents, |agents|, out, trigger, u) {
      assert CollectedFor(m, agents, |agents|, taken, trigger, u);
    }
  }
}
