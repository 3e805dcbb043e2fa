/** Every completion ends: over all runs, no agent of the loop finishes unnoticed (server-rs/src/auto_mode.rs, the
    routing of completions and the lookups its handlers make). */
module Completions {
  import opened Util
  import opened AutoMode
  import opened NoLimbo
  import opened Recovery

  /** A CI fix or a resolver is named by its own attempt row. */
  ghost predicate HasRow(s: State, i: AgentId)
    requires i < |s.agents|
  {
    s.agents[i].role.CiFix? || s.agents[i].role.Resolver? ==>
      AttemptOf(s.attempts, i).Some? && s.attempts[AttemptOf(s.attempts, i).value].task == s.agents[i].task
  }

  /** Every lookup a handler makes succeeds. */
  ghost predicate Registered(s: State) {
    && (forall k :: 0 <= k < |s.attempts| ==> s.attempts[k].agent < |s.agents|)
    && (forall i :: 0 <= i < |s.agents| ==> HasRow(s, i))
    && (forall i :: 0 <= i < |s.agents| && !s.agents[i].role.Work? ==> HasWork(s.agents, s.agents[i].task))
  }

  lemma {:induction false} AttemptOfSame(a: seq<Attempt>, b: seq<Attempt>, i: AgentId)
    requires SameAttempts(a, b)
    ensures AttemptOf(b, i) == AttemptOf(a, i)
  {
    if a != [] {
      assert SameAttempt(a[|a| - 1], b[|b| - 1]);
      AttemptOfSame(a[..|a| - 1], b[..|b| - 1], i);
    }
  }

  lemma {:induction false} WorkStays(a: seq<Agent>, b: seq<Agent>, task: Task)
    requires |a| <= |b| && SameAgents(a, b[..|a|]) && HasWork(a, task)
    ensures HasWork(b, task)
  {
    var w := WorkAgent(a, task).value;
    assert b[..|a|][w].role == a[w].role && b[..|a|][w].task == a[w].task;
    assert b[w].task == task && b[w].role.Work?;
  }

  lemma {:induction false} JoiningKeepsRegistered(s: State, t: State, cap: nat)
    requires Registered(s) && AtMostOneJoins(s, t, cap)
    ensures Registered(t)
  {
    var n := |s.agents|;
    var kept := if |t.attempts| == |s.attempts| then t.attempts else t.attempts[..|s.attempts|];
    assert SameAgents(s.agents, t.agents[..n]) && SameAttempts(s.attempts, kept) by {
      assert SameRoster(s, t) ==> t.agents[..n] == t.agents;
    }
    forall k | 0 <= k < |t.attempts| ensures t.attempts[k].agent < |t.agents| {
      if k < |s.attempts| {
        assert SameAttempt(s.attempts[k], kept[k]);
      }
    }
    forall i | 0 <= i < |t.agents| ensures HasRow(t, i) {
      if i < n {
        assert HasRow(s, i) && t.agents[..n][i] == t.agents[i];
        RowStays(s, t, kept, i);
      }
    }
    forall i | 0 <= i < |t.agents| && !t.agents[i].role.Work? ensures HasWork(t.agents, t.agents[i].task) {
      assert i < n ==> t.agents[..n][i] == t.agents[i];
      WorkStays(s.agents, t.agents, t.agents[i].task);
    }
  }

  /** A row appended for a new agent hides nobody else's. */
  lemma {:induction false} RowStays(s: State, t: State, kept: seq<Attempt>, i: AgentId)
    requires i < |s.agents| <= |t.agents| && HasRow(s, i) && SameAttempts(s.attempts, kept)
    requires t.agents[i].task == s.agents[i].task && t.agents[i].role == s.agents[i].role
    requires t.attempts == kept || (|t.attempts| == |kept| + 1 && t.attempts[..|kept|] == kept
                                    && t.attempts[|kept|].agent == |s.agents|)
    ensures HasRow(t, i)
  {
    AttemptOfSame(s.attempts, kept, i);
    var r := AttemptOf(kept, i);
    assert r.Some? ==> SameAttempt(s.attempts[r.value], kept[r.value]) && t.attempts[r.value] == kept[r.value];
  }

  lemma {:induction false} StepKeepsRegistered(s: State, op: Op)
    requires Registered(s) && Numbered(s.attempts)
    ensures Registered(Do(s, op))
  {
    match op
    case Finish(id, w) =>
      if id < |s.agents| {
        HandlerJoins(s, w, id);
        JoiningKeepsRegistered(s, OnCompleted(s, w, id), w.cap);
      }
    case FlushAll(w) =>
      BatchJoins(s, w, FlushList(s, w), 0, true);
      JoiningKeepsRegistered(s, Flush(s, w).state, w.cap);
    case StartWork(_, _) => WorkerKeepsRegistered(s, Do(s, op));
    case _ =>
      forall i | 0 <= i < |s.agents| ensures HasRow(Do(s, op), i) {
        assert HasRow(s, i);
      }
  }

  lemma {:induction false} WorkerKeepsRegistered(s: State, t: State)
    requires Registered(s) && t.attempts == s.attempts && |t.agents| == |s.agents| + 1
    requires t.agents[..|s.agents|] == s.agents && t.agents[|s.agents|].role.Work?
    ensures Registered(t)
  {
    forall i | 0 <= i < |t.agents| ensures HasRow(t, i) {
      if i < |s.agents| {
        assert HasRow(s, i) && t.agents[i] == s.agents[i];
      }
    }
    forall i | 0 <= i < |t.agents| && !t.agents[i].role.Work? ensures HasWork(t.agents, t.agents[i].task) {
      assert t.agents[i] == s.agents[i];
      WorkStays(s.agents, t.agents, t.agents[i].task);
    }
  }

  lemma {:induction false} RunsKeepRegistered(s: State, ops: seq<Op>, cap: nat)
    requires Registered(s) && Numbered(s.attempts) && CapKept(ops, cap)
    ensures Registered(Run(s, ops)) && Numbered(Run(s, ops).attempts)
  {
    if ops != [] {
      var front, last := ops[..|ops| - 1], ops[|ops| - 1];
      RunsKeepRegistered(s, front, cap);
      StepKeepsRegistered(Run(s, front), last);
      StepConserves(Run(s, front), last, cap, "");
    }
  }

  // ---------------------------------------------------------------- every kind of agent

  /** How the completion of agent id ends, by its kind. */
  ghost predicate Ends(s: State, t: State, w: World, id: AgentId)
    requires id < |s.agents|
  {
    var a := s.agents[id];
    match a.role
    case Work => Endings(s, t, w, id) == 1
    case GateFix(_) => HasWork(s.agents, a.task) && Endings(s, t, w, WorkAgent(s.agents, a.task).value) == 1
    case Resolver(_) => AttemptOf(s.attempts, id).Some? && ResolverEnds(s, t, w, id, AttemptOf(s.attempts, id).value)
    case CiFix(_) =>
      AttemptOf(s.attempts, id).Some? && Closed(t, AttemptOf(s.attempts, id).value) && FixEndings(s, t, a.task) == 1
  }

  /** The attempt is closed, and the machine has run for the task's own agent. */
  ghost predicate ResolverEnds(s: State, t: State, w: World, id: AgentId, i: nat)
    requires id < |s.agents| && i < |s.attempts|
  {
    var closed := Close(s, i, if w.resolved then Resolved else Unresolved);
    && Closed(t, i) && HasWork(s.agents, s.agents[id].task)
    && Endings(closed, t, w, WorkAgent(s.agents, s.agents[id].task).value) == 1
  }

  lemma {:induction false} ResolverDoneEnds(s: State, w: World, id: AgentId)
    requires Registered(s) && Numbered(s.attempts) && Enabled(s) && id < |s.agents| && s.agents[id].role.Resolver?
    ensures Ends(s, OnResolverDone(s, w, id), w, id)
  {
    assert HasRow(s, id);
    var i := AttemptOf(s.attempts, id).value;
    var task := s.attempts[i].task;
    var t := Close(s, i, if w.resolved then Resolved else Unresolved);
    var work := WorkAgent(s.agents, task).value;
    MachineNeverInLimbo(t, w, work);
    SameAttemptsNumbered(s.attempts, t.attempts);
    MachineJoins(t, w, work);
    ClosedStays(t, RunStateMachine(t, w, work), w.cap, i);
  }

  lemma {:induction false} ClosedStays(s: State, t: State, cap: nat, i: nat)
    requires Closed(s, i) && AtMostOneJoins(s, t, cap)
    ensures Closed(t, i)
  {
    if |t.attempts| == |s.attempts| {
      assert SameAttempt(s.attempts[i], t.attempts[i]);
    } else {
      assert SameAttempt(s.attempts[i], t.attempts[..|s.attempts|][i]);
    }
  }

  /** From a fresh plan, whatever runs before: a completion that finds the plan live ends in exactly one of the
      machine's endings for the task's own agent, or, for a CI fix, in exactly one of its own; attempts are closed. */
  lemma {:induction false} EveryCompletionEnds(s: State, ops: seq<Op>, cap: nat, w: World, id: AgentId)
    requires s.agents == [] && s.attempts == [] && CapKept(ops, cap)
    requires id < |Run(s, ops).agents| && Enabled(Run(s, ops))
    ensures Ends(Run(s, ops), OnCompleted(Run(s, ops), w, id), w, id)
  {
    RunsKeepRegistered(s, ops, cap);
    var t := Run(s, ops);
    assert HasRow(t, id);
    match t.agents[id].role
    case Work => MachineNeverInLimbo(t, w, id);
    case GateFix(_) => MachineNeverInLimbo(t, w, WorkAgent(t.agents, t.agents[id].task).value);
    case Resolver(_) => ResolverDoneEnds(t, w, id);
    case CiFix(_) => FixNeverInLimbo(t, w, id);
  }
}
