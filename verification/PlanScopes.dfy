/** What the decisions of the auto-mode loop are about: the first phase that declares a task, finished tasks, the
    rows next in line of their tasks, where in a plan a task is declared first, the most recent work agent of a task
    and the attempt on record for an agent. Each is stated here without the functions of AutoMode and then shown to
    be what those functions compute; Decisions says what follows for the loop (server-rs/src/auto_mode.rs). */
module PlanScopes {
  import opened Util
  import opened Text
  import opened AutoMode
  import opened Batches

  // ---------------------------------------------------------------- when a merge is due

  /** Phase i is the first that declares the task. */
  ghost predicate FirstPhase(plan: seq<seq<Task>>, i: nat, task: Task) {
    i < |plan| && task in plan[i] && forall k :: 0 <= k < i ==> task !in plan[k]
  }

  ghost predicate Finished(status: map<Task, TaskState>, task: Task) {
    task in status && (status[task] == Completed || status[task] == Skipped)
  }

  /** All that shares a boundary with a task of phase i is finished, the task itself aside. */
  ghost predicate OthersFinished(s: State, w: World, i: nat, task: Task)
    requires w.plan.Some?
  {
    forall k, t :: 0 <= k < |w.plan.value| && (w.cadence.PerPlan? || k == i) && t in w.plan.value[k] && t != task ==>
      Finished(s.status, t)
  }

  lemma {:induction false} PhaseFound(plan: seq<seq<Task>>, task: Task) returns (i: nat)
    ensures PhaseOf(plan, task).Some? ==> FirstPhase(plan, i, task) && PhaseOf(plan, task).value == plan[i]
    ensures PhaseOf(plan, task).None? ==> forall k :: 0 <= k < |plan| ==> task !in plan[k]
  {
    i := 0;
    if plan != [] && task !in plan[0] {
      var j := PhaseFound(plan[1..], task);
      i := j + 1;
      assert forall k :: 0 < k < |plan| ==> plan[k] == plan[1..][k - 1];
    }
  }

  lemma {:induction false} Declared(plan: seq<seq<Task>>, t: Task)
    ensures t in AllTasks(plan) <==> exists k :: 0 <= k < |plan| && t in plan[k]
  {
    if plan != [] {
      Declared(plan[1..], t);
      assert forall k :: 0 < k < |plan| ==> plan[k] == plan[1..][k - 1];
      if t in AllTasks(plan[1..]) {
        var k :| 0 <= k < |plan| - 1 && t in plan[1..][k];
        assert t in plan[k + 1];
      }
    }
  }

  lemma {:induction false} OnlyFirstPhase(plan: seq<seq<Task>>, task: Task, i: nat)
    requires FirstPhase(plan, i, task)
    ensures forall k :: FirstPhase(plan, k, task) ==> k == i
  {
  }

  lemma {:induction false} ScopeFinished(s: State, w: World, i: nat, task: Task)
    requires w.plan.Some? && !w.cadence.PerTask? && FirstPhase(w.plan.value, i, task)
    ensures OthersFinished(s, w, i, task) <==>
            AllDone(s.status, if w.cadence.PerPlan? then AllTasks(w.plan.value) else w.plan.value[i], task)
  {
    var plan := w.plan.value;
    forall t ensures Done(s.status, t) <==> Finished(s.status, t) {
    }
    if w.cadence.PerPlan? && OthersFinished(s, w, i, task) {
      forall t | t in AllTasks(plan) ensures t == task || Done(s.status, t) {
        Declared(plan, t);
      }
    }
    if w.cadence.PerPlan? && AllDone(s.status, AllTasks(plan), task) {
      forall k, t | 0 <= k < |plan| && t in plan[k] && t != task ensures Finished(s.status, t) {
        Declared(plan, t);
        assert Done(s.status, t);
      }
    }
  }

  // ---------------------------------------------------------------- what a drain and a flush list

  /** Row i waits for a merge of its task, and no later row of the task does. */
  ghost predicate NextForTask(agents: seq<Agent>, i: AgentId, trigger: Option<AgentId>) {
    i < |agents| && WaitsForMerge(agents, i, trigger)
    && forall j :: i < j < |agents| && agents[j].task == agents[i].task ==> !WaitsForMerge(agents, j, trigger)
  }

  ghost predicate WaitsForMerge(agents: seq<Agent>, i: AgentId, trigger: Option<AgentId>)
    requires i < |agents|
  {
    agents[i].mergeStatus == Deferred && agents[i].role == Work && agents[i].branch != None && trigger != Some(i)
  }

  lemma {:induction false} NextExactly(agents: seq<Agent>, i: AgentId, trigger: Option<AgentId>)
    ensures MostRecent(agents, i, trigger) <==> NextForTask(agents, i, trigger)
  {
    if i < |agents| {
      forall j | i < j < |agents|
        ensures Drainable(agents, j, agents[i].task, trigger) <==>
                agents[j].task == agents[i].task && WaitsForMerge(agents, j, trigger)
      {
      }
    }
  }

  /** A drain for the task covers t: nothing under the task cadence, else the plan, or the task's phase. */
  ghost predicate Drains(w: World, task: Task, t: Task) {
    && w.plan.Some?
    && exists k :: 0 <= k < |w.plan.value| && t in w.plan.value[k]
                   && (w.cadence.PerPlan? || (w.cadence.PerPhase? && FirstPhase(w.plan.value, k, task)))
  }

  lemma {:induction false} ScopeExactly(w: World, task: Task, t: Task)
    ensures t in DrainScope(w, task) <==> Drains(w, task, t)
  {
    if w.plan.Some? {
      var plan := w.plan.value;
      Declared(plan, t);
      var i := PhaseFound(plan, task);
      if FirstPhase(plan, i, task) {
        OnlyFirstPhase(plan, task, i);
      }
    }
  }

  lemma {:induction false} ListedExactly(agents: seq<Agent>, order: seq<Task>, trigger: Option<AgentId>, i: AgentId)
    ensures i in Listed(agents, order, |order|, trigger) <==>
            i < |agents| && NextForTask(agents, i, trigger) && agents[i].task in order
  {
    var list := Listed(agents, order, |order|, trigger);
    ListIsExact(agents, order, trigger);
    NextExactly(agents, i, trigger);
    if i < |agents| && NextForTask(agents, i, trigger) && agents[i].task in order {
      assert Drainable(agents, i, agents[i].task, trigger);
      assert ListsTask(agents, list, agents[i].task);
      var k :| 0 <= k < |list| && list[k] < |agents| && agents[list[k]].task == agents[i].task;
      assert MostRecent(agents, list[k], trigger) && Drainable(agents, list[k], agents[i].task, trigger);
      assert i == list[k];
    }
  }

  // ---------------------------------------------------------------- in which order

  /** The task's first declaration in the plan. */
  ghost predicate DeclaredAt(plan: seq<seq<Task>>, k: nat, j: nat, t: Task) {
    && FirstPhase(plan, k, t) && j < |plan[k]| && plan[k][j] == t
    && forall l :: 0 <= l < j ==> plan[k][l] != t
  }

  /** How many tasks the first k phases declare. */
  ghost function Offset(plan: seq<seq<Task>>, k: nat): nat
    requires k <= |plan|
  {
    if k == 0 then 0 else |plan[0]| + Offset(plan[1..], k - 1)
  }

  lemma {:induction false} PlaceInPlan(plan: seq<seq<Task>>, k: nat, j: nat, t: Task)
    requires DeclaredAt(plan, k, j, t)
    ensures t in AllTasks(plan) && IndexOf(AllTasks(plan), t) == Offset(plan, k) + j
  {
    var rest := AllTasks(plan[1..]);
    if k == 0 {
      IndexInFirst(plan[0], rest, t, j);
    } else {
      assert DeclaredAt(plan[1..], k - 1, j, t) by {
        assert forall l :: 0 < l < |plan| ==> plan[l] == plan[1..][l - 1];
      }
      PlaceInPlan(plan[1..], k - 1, j, t);
      IndexInRest(plan[0], rest, t);
    }
  }

  lemma {:induction false} IndexIs(order: seq<Task>, t: Task, i: nat)
    requires i < |order| && order[i] == t && forall l :: 0 <= l < i ==> order[l] != t
    ensures IndexOf(order, t) == i
  {
    if i > 0 {
      IndexIs(order[1..], t, i - 1);
    }
  }

  lemma {:induction false} IndexInFirst(first: seq<Task>, rest: seq<Task>, t: Task, j: nat)
    requires j < |first| && first[j] == t && forall l :: 0 <= l < j ==> first[l] != t
    ensures t in first + rest && IndexOf(first + rest, t) == j
  {
    assert (first + rest)[j] == t;
    IndexIs(first + rest, t, j);
  }

  lemma {:induction false} IndexInRest(first: seq<Task>, rest: seq<Task>, t: Task)
    requires t !in first && t in rest
    ensures t in first + rest && IndexOf(first + rest, t) == |first| + IndexOf(rest, t)
  {
    var i := IndexOf(rest, t);
    assert (first + rest)[|first| + i] == t;
    forall l | 0 <= l < |first| + i ensures (first + rest)[l] != t {
      if l >= |first| {
        assert rest[..i][l - |first|] == (first + rest)[l];
      }
    }
    IndexIs(first + rest, t, |first| + i);
  }

  lemma {:induction false} LaterPhaseFurther(plan: seq<seq<Task>>, k: nat, l: nat)
    requires k < l <= |plan|
    ensures Offset(plan, k) + |plan[k]| <= Offset(plan, l)
  {
    if k > 0 {
      LaterPhaseFurther(plan[1..], k - 1, l - 1);
    }
  }

  /** The rows come in the order in which the plan first declares their tasks: phase by phase, and in the order of the
      phase. */
  ghost predicate InPlanOrder(plan: seq<seq<Task>>, agents: seq<Agent>, list: seq<AgentId>) {
    && (forall a :: 0 <= a < |list| ==> list[a] < |agents|)
    && forall a, b, k, j, l, m ::
         0 <= a < b < |list| && DeclaredAt(plan, k, j, agents[list[a]].task)
         && DeclaredAt(plan, l, m, agents[list[b]].task) ==>
           k < l || (k == l && j < m)
  }

  lemma {:induction false} PlacesInOrder(plan: seq<seq<Task>>, t: Task, u: Task, k: nat, j: nat, l: nat, m: nat)
    requires DeclaredAt(plan, k, j, t) && DeclaredAt(plan, l, m, u)
    requires t in AllTasks(plan) && u in AllTasks(plan) && IndexOf(AllTasks(plan), t) < IndexOf(AllTasks(plan), u)
    ensures k < l || (k == l && j < m)
  {
    PlaceInPlan(plan, k, j, t);
    PlaceInPlan(plan, l, m, u);
    if l < k {
      LaterPhaseFurther(plan, l, k);
    }
  }

  lemma {:induction false} ListedInPlanOrder(plan: seq<seq<Task>>, agents: seq<Agent>, trigger: Option<AgentId>)
    ensures InPlanOrder(plan, agents, Listed(agents, AllTasks(plan), |AllTasks(plan)|, trigger))
  {
    var order := AllTasks(plan);
    var list := Listed(agents, order, |order|, trigger);
    ListIsExact(agents, order, trigger);
    forall a, b, k, j, l, m |
      0 <= a < b < |list| && DeclaredAt(plan, k, j, agents[list[a]].task)
      && DeclaredAt(plan, l, m, agents[list[b]].task)
      ensures k < l || (k == l && j < m)
    {
      PlacesInOrder(plan, agents[list[a]].task, agents[list[b]].task, k, j, l, m);
    }
  }

  // ---------------------------------------------------------------- for whom a recovery re-enters

  /** Row i is the most recent that works on the task itself. */
  ghost predicate LatestWork(agents: seq<Agent>, task: Task, i: AgentId) {
    && i < |agents| && agents[i].task == task && agents[i].role == Work
    && forall j :: i < j < |agents| ==> agents[j].task != task || agents[j].role != Work
  }

  lemma {:induction false} WorkAgentExactly(agents: seq<Agent>, task: Task, i: AgentId)
    ensures WorkAgent(agents, task) == Some(i) <==> LatestWork(agents, task, i)
  {
  }

  lemma {:induction false} NoWorkAgent(agents: seq<Agent>, task: Task)
    requires forall i :: !LatestWork(agents, task, i)
    ensures WorkAgent(agents, task) == None
  {
    if WorkAgent(agents, task).Some? {
      WorkAgentExactly(agents, task, WorkAgent(agents, task).value);
    }
  }

  lemma {:induction false} RerunExactly(s: State, w: World, task: Task, i: AgentId)
    ensures LatestWork(s.agents, task, i) ==> Rerun(s, w, task) == RunStateMachine(s, w, i)
    ensures (forall j :: !LatestWork(s.agents, task, j)) ==> Rerun(s, w, task) == s
  {
    WorkAgentExactly(s.agents, task, i);
    if forall j :: !LatestWork(s.agents, task, j) {
      NoWorkAgent(s.agents, task);
    }
  }

  /** Attempt k is the one on record for the agent. */
  ghost predicate OnlyAttempt(attempts: seq<Attempt>, agent: AgentId, k: nat) {
    k < |attempts| && attempts[k].agent == agent
    && forall l :: 0 <= l < |attempts| && l != k ==> attempts[l].agent != agent
  }

  lemma {:induction false} AttemptFound(attempts: seq<Attempt>, agent: AgentId, k: nat)
    requires OnlyAttempt(attempts, agent, k)
    ensures AttemptOf(attempts, agent) == Some(k)
  {
    if k < |attempts| - 1 {
      var front := attempts[..|attempts| - 1];
      assert attempts[|attempts| - 1].agent != agent;
      assert OnlyAttempt(front, agent, k) by {
        assert forall l :: 0 <= l < |front| ==> front[l] == attempts[l];
      }
      AttemptFound(front, agent, k);
    }
  }

  lemma {:induction false} NoAttempt(attempts: seq<Attempt>, agent: AgentId)
    requires forall l :: 0 <= l < |attempts| ==> attempts[l].agent != agent
    ensures AttemptOf(attempts, agent).None?
  {
  }
}
