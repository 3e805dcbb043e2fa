/** The runs of one scope (a phase, or a plan): agents start, report their status and complete in any order. A ledger
    says what such a run amounts to, and every run is shown to keep its books: which rows wait, which tasks are done,
    what has landed and how often it was pushed. So a boundary's drain lists exactly what was deferred since the last
    one (server-rs/src/auto_mode.rs, the cadence gate, the deferral and the drain). */
module CadenceRuns {
  import opened Util
  import opened AutoMode
  import opened Batches
  import opened NoLimbo
  import opened Decisions
  import opened Boundary
  import opened Recovery

  // ---------------------------------------------------------------- runs of one scope

  /** What a run of the scope amounts to so far: every row as it was when its agent started; which agents finished,
      and their tasks in the order of completion; the tasks finished up to the latest boundary; how many
      completions were at the boundary. */
  datatype Ledger = Ledger(rows: seq<Agent>, ids: set<AgentId>, finished: seq<Task>, landed: seq<Task>, boundaries: nat)

  /** At this completion every other task of the scope is recorded as done. */
  predicate BoundaryAt(l: Ledger, t: State, scope: seq<Task>, op: Op) {
    op.Finish? && op.id < |l.rows| && AllDone(t.status, scope, l.rows[op.id].task)
  }

  function NextLedger(l: Ledger, t: State, scope: seq<Task>, op: Op): Ledger {
    match op
    case StartWork(task, branch) => l.(rows := l.rows + [Agent(task, Work, Some(branch), NoStatus)])
    case Finish(id, _) =>
      if id >= |l.rows| then l
      else
        var finished := l.finished + [l.rows[id].task];
        if BoundaryAt(l, t, scope, op)
        then Ledger(l.rows, l.ids + {id}, finished, finished, l.boundaries + 1)
        else Ledger(l.rows, l.ids + {id}, finished, l.landed, l.boundaries)
    case _ => l
  }

  function LedgerOf(s: State, scope: seq<Task>, ops: seq<Op>): Ledger {
    if ops == [] then Ledger(s.agents, {}, [], [], 0)
    else
      var front := ops[..|ops| - 1];
      NextLedger(LedgerOf(s, scope, front), Run(s, front), scope, ops[|ops| - 1])
  }

  /** The agent works on a task of the scope, on that task's own branch. */
  predicate Worker(rows: seq<Agent>, id: AgentId, scope: seq<Task>, names: map<Task, Branch>) {
    && id < |rows| && rows[id].role.Work? && rows[id].task in scope && rows[id].task in names
    && rows[id].branch == Some(names[rows[id].task])
  }

  /** Workers start at any time; each unfinished task of the scope is finished by one of them, once; statuses are
      written at any time, by agents and operator, as long as nothing recorded as done is undone. */
  ghost predicate GoodStep(l: Ledger, t: State, scope: seq<Task>, names: map<Task, Branch>, op: Op) {
    match op
    case Finish(id, w) =>
      && SharesBoundary(w, scope) && AllGoesWell(w)
      && Worker(l.rows, id, scope, names) && l.rows[id].task !in l.finished
    case StartWork(_, _) => true
    case WriteStatus(u, to) => u in scope && Done(t.status, u) ==> to.Completed? || to.Skipped?
    case _ => false
  }

  ghost predicate Injective(names: map<Task, Branch>) {
    forall a, b :: a in names && b in names && names[a] == names[b] ==> a == b
  }

  /** Before the run the plan is on and not paused, and no row of the scope waits for a drain. */
  ghost predicate GoodStart(s: State, scope: seq<Task>, names: map<Task, Branch>) {
    Enabled(s) && NoDup(scope) && Injective(names) && NothingWaits(s, scope)
  }

  ghost predicate Orderly(s: State, scope: seq<Task>, names: map<Task, Branch>, ops: seq<Op>) {
    if ops == [] then GoodStart(s, scope, names)
    else
      var front := ops[..|ops| - 1];
      && Orderly(s, scope, names, front)
      && GoodStep(LedgerOf(s, scope, front), Run(s, front), scope, names, ops[|ops| - 1])
  }

  lemma {:induction false} OrderlyStart(s: State, scope: seq<Task>, names: map<Task, Branch>, ops: seq<Op>)
    requires Orderly(s, scope, names, ops)
    ensures GoodStart(s, scope, names)
  {
    if ops != [] {
      OrderlyStart(s, scope, names, ops[..|ops| - 1]);
    }
  }

  ghost predicate NothingWaits(s: State, scope: seq<Task>) {
    forall j :: 0 <= j < |s.agents| && s.agents[j].task in scope ==> !Waiting(s.agents[j])
  }

  // ---------------------------------------------------------------- the books

  function Named(names: map<Task, Branch>, tasks: seq<Task>): set<Branch> {
    set u | u in tasks && u in names :: names[u]
  }

  /** What became of a row: its task and role stand, its branch is there until its task has landed, and it waits for a
      drain from its completion until then. */
  predicate RowNow(a: Agent, b: Agent, names: map<Task, Branch>, landed: seq<Task>, scope: seq<Task>, finished: bool) {
    && b.task == a.task && b.role == a.role && (b.branch == a.branch || b.branch.None?)
    && (a.task in names && a.branch == Some(names[a.task]) && a.task !in landed ==> b.branch == a.branch)
    && (a.task in scope ==> (Waiting(b) <==> finished && a.task !in landed))
  }

  ghost predicate RowsNow(l: Ledger, t: State, scope: seq<Task>, names: map<Task, Branch>) {
    && |t.agents| == |l.rows|
    && forall j :: 0 <= j < |l.rows| ==> RowNow(l.rows[j], t.agents[j], names, l.landed, scope, j in l.ids)
  }

  /** The finished workers, one per finished task. */
  ghost predicate OneWorkerEach(l: Ledger, scope: seq<Task>, names: map<Task, Branch>) {
    && (forall i :: i in l.ids ==> Worker(l.rows, i, scope, names) && l.rows[i].task in l.finished)
    && (forall i, j :: i in l.ids && j in l.ids && l.rows[i].task == l.rows[j].task ==> i == j)
    && (forall u :: u in l.finished ==> FinishedBySome(l, u))
  }

  ghost predicate FinishedBySome(l: Ledger, u: Task) {
    exists i :: i in l.ids && i < |l.rows| && l.rows[i].task == u
  }

  /** Trunk and pushes follow the boundaries, every completion advances, and deferred tasks are recorded as done. */
  ghost predicate TrunkNow(s: State, l: Ledger, t: State, names: map<Task, Branch>) {
    && s.trunk <= t.trunk && (forall b :: b in t.trunk[|s.trunk|..] ==> b in Named(names, l.landed))
    && s.pushes <= t.pushes && |t.pushes| == |s.pushes| + l.boundaries
    && t.advances == s.advances + l.finished
  }

  ghost predicate StatusNow(l: Ledger, t: State) {
    && (forall u :: u in l.landed ==> u in l.finished)
    && (forall u :: u in l.finished && u !in l.landed ==> Done(t.status, u))
  }

  /** Where a run has got to. */
  ghost predicate Books(s: State, l: Ledger, t: State, scope: seq<Task>, names: map<Task, Branch>) {
    && Enabled(t) && RowsNow(l, t, scope, names) && OneWorkerEach(l, scope, names)
    && TrunkNow(s, l, t, names) && StatusNow(l, t)
  }

  lemma {:induction false} KeepsBooks(s: State, scope: seq<Task>, names: map<Task, Branch>, ops: seq<Op>)
    requires Orderly(s, scope, names, ops)
    ensures Books(s, LedgerOf(s, scope, ops), Run(s, ops), scope, names)
  {
    if ops != [] {
      var front := ops[..|ops| - 1];
      KeepsBooks(s, scope, names, front);
      OrderlyStart(s, scope, names, front);
      StepKeepsBooks(s, LedgerOf(s, scope, front), Run(s, front), scope, names, ops[|ops| - 1]);
    }
  }

  lemma {:induction false} StepKeepsBooks(s: State, l: Ledger, t: State, scope: seq<Task>, names: map<Task, Branch>,
                                          op: Op)
    requires Books(s, l, t, scope, names) && GoodStep(l, t, scope, names, op) && Injective(names)
    ensures Books(s, NextLedger(l, t, scope, op), Do(t, op), scope, names)
  {
    match op
    case StartWork(_, _) => StartKeepsBooks(s, l, t, scope, names, op);
    case WriteStatus(_, _) => WriteKeepsBooks(s, l, t, scope, names, op);
    case Finish(_, _) =>
      if BoundaryAt(l, t, scope, op) {
        BoundaryKeepsBooks(s, l, t, scope, names, op);
      } else {
        DeferralKeepsBooks(s, l, t, scope, names, op);
      }
  }

  lemma {:induction false} StartKeepsBooks(s: State, l: Ledger, t: State, scope: seq<Task>, names: map<Task, Branch>,
                                           op: Op)
    requires op.StartWork? && Books(s, l, t, scope, names)
    ensures Books(s, NextLedger(l, t, scope, op), Do(t, op), scope, names)
  {
    var r, m := Do(t, op), NextLedger(l, t, scope, op);
    forall i | i in m.ids ensures Worker(m.rows, i, scope, names) && m.rows[i] == l.rows[i] {
      assert Worker(l.rows, i, scope, names);
    }
    forall j | 0 <= j < |m.rows| ensures RowNow(m.rows[j], r.agents[j], names, m.landed, scope, j in m.ids) {
      if j < |l.rows| {
        assert RowNow(l.rows[j], t.agents[j], names, l.landed, scope, j in l.ids);
      }
    }
    forall u | u in m.finished ensures FinishedBySome(m, u) {
      assert FinishedBySome(l, u);
    }
  }

  lemma {:induction false} WriteKeepsBooks(s: State, l: Ledger, t: State, scope: seq<Task>, names: map<Task, Branch>,
                                           op: Op)
    requires op.WriteStatus? && Books(s, l, t, scope, names) && GoodStep(l, t, scope, names, op)
    ensures Books(s, NextLedger(l, t, scope, op), Do(t, op), scope, names)
  {
    forall u | u in l.finished && u !in l.landed ensures Done(Do(t, op).status, u) {
      assert FinishedBySome(l, u);
      var i :| i in l.ids && i < |l.rows| && l.rows[i].task == u;
      assert Worker(l.rows, i, scope, names);
    }
  }

  /** The row of a worker that finishes now: its own branch still there, not deferred. */
  lemma {:induction false} FinisherNow(s: State, l: Ledger, t: State, scope: seq<Task>, names: map<Task, Branch>,
                                       op: Op)
    requires Books(s, l, t, scope, names) && op.Finish? && GoodStep(l, t, scope, names, op)
    ensures op.id < |t.agents| == |l.rows| && op.id !in l.ids && t.agents[op.id].task == l.rows[op.id].task
    ensures Worker(t.agents, op.id, scope, names) && !t.agents[op.id].mergeStatus.Deferred?
    ensures ShouldMergeNow(t, op.world, t.agents[op.id].task) <==> BoundaryAt(l, t, scope, op)
    ensures Due(t, op.world, t.agents[op.id].task) <==> BoundaryAt(l, t, scope, op)
    ensures DrainScope(op.world, t.agents[op.id].task) == scope
  {
    assert RowNow(l.rows[op.id], t.agents[op.id], names, l.landed, scope, op.id in l.ids);
    BoundaryExactly(t, op.world, scope, l.rows[op.id].task);
  }

  lemma {:induction false} MoreWorkers(l: Ledger, t: State, scope: seq<Task>, names: map<Task, Branch>, op: Op)
    requires OneWorkerEach(l, scope, names) && op.Finish? && GoodStep(l, t, scope, names, op)
    ensures OneWorkerEach(NextLedger(l, t, scope, op), scope, names)
  {
    var m := NextLedger(l, t, scope, op);
    forall u | u in m.finished ensures FinishedBySome(m, u) {
      if u in l.finished {
        assert FinishedBySome(l, u);
      } else {
        assert m.rows[op.id].task == u;
      }
    }
  }

  lemma {:induction false} DeferralKeepsBooks(s: State, l: Ledger, t: State, scope: seq<Task>, names: map<Task, Branch>,
                                              op: Op)
    requires op.Finish? && Books(s, l, t, scope, names) && GoodStep(l, t, scope, names, op)
    requires !BoundaryAt(l, t, scope, op)
    ensures Books(s, NextLedger(l, t, scope, op), Do(t, op), scope, names)
    ensures Do(t, op).trunk == t.trunk && Do(t, op).pushes == t.pushes
  {
    FinisherNow(s, l, t, scope, names, op);
    MoreWorkers(l, t, scope, names, op);
    var id, m := op.id, NextLedger(l, t, scope, op);
    var r := Advance(Defer(t, id), t.agents[id].task);
    assert Do(t, op) == r;
    forall j | 0 <= j < |m.rows| ensures RowNow(m.rows[j], r.agents[j], names, m.landed, scope, j in m.ids) {
      assert RowNow(l.rows[j], t.agents[j], names, l.landed, scope, j in l.ids);
    }
    Associate(s.advances, l.finished, [l.rows[id].task]);
  }

  // ---------------------------------------------------------------- a boundary

  /** What the drain of a boundary lists, in terms of the run: exactly the workers deferred since the last
      boundary. */
  ghost predicate ListsDeferred(l: Ledger, t: State, list: seq<AgentId>, id: AgentId) {
    && (forall i :: i in list <==> i in l.ids && i < |l.rows| && l.rows[i].task !in l.landed)
    && id !in list && AllRows(t, list)
    && forall i, j :: 0 <= i < j < |list| ==> t.agents[list[i]].task != t.agents[list[j]].task
  }

  lemma {:induction false} DistinctTasks(agents: seq<Agent>, order: seq<Task>, list: seq<AgentId>)
    requires DeclarationOrder(agents, order, list)
    ensures forall i, j :: 0 <= i < j < |list| ==> agents[list[i]].task != agents[list[j]].task
  {
    forall i, j | 0 <= i < j < |list| ensures agents[list[i]].task != agents[list[j]].task {
      assert IndexOf(order, agents[list[i]].task) < IndexOf(order, agents[list[j]].task);
    }
  }

  lemma {:induction false} DrainIsDeferred(s: State, l: Ledger, t: State, scope: seq<Task>, names: map<Task, Branch>,
                                           op: Op)
    requires Books(s, l, t, scope, names) && op.Finish? && GoodStep(l, t, scope, names, op)
    ensures op.id < |t.agents| && ListsDeferred(l, t, DrainList(t, op.world, op.id), op.id)
  {
    FinisherNow(s, l, t, scope, names, op);
    var id := op.id;
    var list := DrainList(t, op.world, id);
    ListIsExact(t.agents, scope, Some(id));
    DistinctTasks(t.agents, scope, list);
    forall i | i in list ensures i in l.ids && i < |l.rows| && l.rows[i].task !in l.landed && i != id {
      var k :| 0 <= k < |list| && list[k] == i;
      assert MostRecent(t.agents, list[k], Some(id));
      assert RowNow(l.rows[i], t.agents[i], names, l.landed, scope, i in l.ids);
    }
    forall i | i in l.ids && i < |l.rows| && l.rows[i].task !in l.landed ensures i in list {
      DeferredIsListed(s, l, t, scope, names, op, i);
    }
  }

  lemma {:induction false} DeferredIsListed(s: State, l: Ledger, t: State, scope: seq<Task>, names: map<Task, Branch>,
                                            op: Op, i: AgentId)
    requires Books(s, l, t, scope, names) && op.Finish? && GoodStep(l, t, scope, names, op) && op.id < |t.agents|
    requires i in l.ids && i < |l.rows| && l.rows[i].task !in l.landed
    ensures i in DrainList(t, op.world, op.id)
  {
    FinisherNow(s, l, t, scope, names, op);
    var id := op.id;
    var list := DrainList(t, op.world, id);
    ListIsExact(t.agents, scope, Some(id));
    assert Worker(l.rows, i, scope, names);
    assert RowNow(l.rows[i], t.agents[i], names, l.landed, scope, i in l.ids);
    assert Drainable(t.agents, i, t.agents[i].task, Some(id));
    assert ListsTask(t.agents, list, t.agents[i].task);
    var k :| 0 <= k < |list| && list[k] < |t.agents| && t.agents[list[k]].task == t.agents[i].task;
    assert MostRecent(t.agents, list[k], Some(id));
    assert RowNow(l.rows[list[k]], t.agents[list[k]], names, l.landed, scope, list[k] in l.ids);
  }

  /** Every row of the batch is on its own task's branch, and its task is finished. */
  ghost predicate BatchOfWorkers(m: Ledger, t: State, scope: seq<Task>, names: map<Task, Branch>, whole: seq<AgentId>) {
    && AllRows(t, whole)
    && forall i :: 0 <= i < |whole| ==>
         Worker(t.agents, whole[i], scope, names) && t.agents[whole[i]].task in m.finished
  }

  lemma {:induction false} BatchBranches(s: State, l: Ledger, t: State, scope: seq<Task>, names: map<Task, Branch>,
                                         op: Op)
    requires Books(s, l, t, scope, names) && op.Finish? && GoodStep(l, t, scope, names, op)
    requires op.id < |t.agents| && ListsDeferred(l, t, DrainList(t, op.world, op.id), op.id)
    ensures BatchOfWorkers(NextLedger(l, t, scope, op), t, scope, names, WholeBatch(t, op.world, op.id))
    ensures forall i :: 0 <= i < |DrainList(t, op.world, op.id)| ==>
              t.agents[DrainList(t, op.world, op.id)[i]].mergeStatus.Deferred?
              && t.agents[DrainList(t, op.world, op.id)[i]].task in l.finished
  {
    FinisherNow(s, l, t, scope, names, op);
    var id := op.id;
    var list, whole := DrainList(t, op.world, id), WholeBatch(t, op.world, id);
    forall i | 0 <= i < |list|
      ensures Worker(t.agents, list[i], scope, names) && t.agents[list[i]].mergeStatus.Deferred?
              && t.agents[list[i]].task in l.finished
    {
      var j := list[i];
      assert j in list && Worker(l.rows, j, scope, names);
      assert RowNow(l.rows[j], t.agents[j], names, l.landed, scope, j in l.ids);
    }
    forall i | 0 <= i < |whole|
      ensures Worker(t.agents, whole[i], scope, names)
              && t.agents[whole[i]].task in NextLedger(l, t, scope, op).finished
    {
      if i < |list| {
        assert whole[i] == list[i];
      }
    }
  }

  lemma {:induction false} BatchOwnsBranches(t: State, scope: seq<Task>, names: map<Task, Branch>, list: seq<AgentId>,
                                             id: AgentId, before: seq<Task>)
    requires AllRows(t, list + [id]) && AllRows(t, list) && id < |t.agents|
    requires forall i :: 0 <= i < |list + [id]| ==> Worker(t.agents, (list + [id])[i], scope, names)
    requires Injective(names) && t.agents[id].task !in before
    requires forall i :: 0 <= i < |list| ==> list[i] < |t.agents| && t.agents[list[i]].task in before
    requires forall i, j :: 0 <= i < j < |list| ==> t.agents[list[i]].task != t.agents[list[j]].task
    ensures OwnBranches(t.agents, list + [id])
  {
    var whole := list + [id];
    forall i, j | 0 <= i < j < |whole| ensures t.agents[whole[i]].branch != t.agents[whole[j]].branch {
      assert Worker(t.agents, whole[i], scope, names) && Worker(t.agents, whole[j], scope, names);
      assert whole[i] == list[i] && t.agents[list[i]].task in before;
      if j < |list| {
        assert t.agents[list[i]].task != t.agents[list[j]].task;
      }
    }
    forall i | 0 <= i < |whole| ensures whole[i] < |t.agents| && t.agents[whole[i]].branch.Some? {
      assert Worker(t.agents, whole[i], scope, names);
    }
  }

  /** A boundary lands all deferred workers and the finisher, with one push. */
  lemma {:induction false} BoundaryBatch(s: State, l: Ledger, t: State, scope: seq<Task>, names: map<Task, Branch>,
                                         op: Op)
    requires op.Finish? && Books(s, l, t, scope, names) && GoodStep(l, t, scope, names, op) && Injective(names)
    requires BoundaryAt(l, t, scope, op)
    ensures op.id < |t.agents| && ListsDeferred(l, t, DrainList(t, op.world, op.id), op.id)
    ensures BatchOfWorkers(NextLedger(l, t, scope, op), t, scope, names, WholeBatch(t, op.world, op.id))
    ensures var r, landed := Do(t, op), Branches(t.agents, WholeBatch(t, op.world, op.id));
            && r.trunk == t.trunk + landed && r.pushes == t.pushes + [|r.trunk|]
            && r.advances == t.advances + [t.agents[op.id].task] && r.status == t.status && Enabled(r)
            && RowsAtEnd(t.agents, r.agents, DrainList(t, op.world, op.id), landed)
  {
    var id, w := op.id, op.world;
    FinisherNow(s, l, t, scope, names, op);
    DrainIsDeferred(s, l, t, scope, names, op);
    BatchBranches(s, l, t, scope, names, op);
    BatchOwnsBranches(t, scope, names, DrainList(t, w, id), id, l.finished);
    BoundaryLands(t, w, id);
    assert Do(t, op) == RunStateMachine(t, w, id);
  }

  lemma {:induction false} BoundaryKeepsBooks(s: State, l: Ledger, t: State, scope: seq<Task>, names: map<Task, Branch>,
                                              op: Op)
    requires op.Finish? && Books(s, l, t, scope, names) && GoodStep(l, t, scope, names, op) && Injective(names)
    requires BoundaryAt(l, t, scope, op)
    ensures Books(s, NextLedger(l, t, scope, op), Do(t, op), scope, names)
  {
    FinisherNow(s, l, t, scope, names, op);
    MoreWorkers(l, t, scope, names, op);
    BoundaryBatch(s, l, t, scope, names, op);
    var r, m := Do(t, op), NextLedger(l, t, scope, op);
    var list, whole := DrainList(t, op.world, op.id), WholeBatch(t, op.world, op.id);
    RowsAfterBoundary(l, m, t, r, scope, names, list, whole, op.id);
    TrunkAfterBoundary(s, l, m, t, r, scope, names, whole, l.rows[op.id].task);
  }

  lemma {:induction false} TrunkAfterBoundary(s: State, l: Ledger, m: Ledger, t: State, r: State, scope: seq<Task>,
                                              names: map<Task, Branch>, whole: seq<AgentId>, task: Task)
    requires TrunkNow(s, l, t, names) && StatusNow(l, t) && BatchOfWorkers(m, t, scope, names, whole)
    requires m.finished == l.finished + [task] && m.landed == m.finished && m.boundaries == l.boundaries + 1
    requires r.trunk == t.trunk + Branches(t.agents, whole) && r.pushes == t.pushes + [|r.trunk|]
    requires r.advances == t.advances + [task]
    ensures TrunkNow(s, m, r, names)
  {
    var landed := Branches(t.agents, whole);
    assert r.trunk[|s.trunk|..] == t.trunk[|s.trunk|..] + landed;
    forall b | b in landed ensures b in Named(names, m.landed) {
      var i :| 0 <= i < |landed| && landed[i] == b;
      assert Worker(t.agents, whole[i], scope, names);
      assert names[t.agents[whole[i]].task] == b;
    }
    Associate(s.advances, l.finished, [task]);
  }

  lemma {:induction false} RowsAfterBoundary(l: Ledger, m: Ledger, t: State, r: State, scope: seq<Task>,
                                             names: map<Task, Branch>, list: seq<AgentId>, whole: seq<AgentId>,
                                               id: AgentId)
    requires RowsNow(l, t, scope, names) && OneWorkerEach(m, scope, names) && Injective(names) && StatusNow(l, t)
    requires m.rows == l.rows && m.ids == l.ids + {id} && m.landed == m.finished && l.finished <= m.finished
    requires id < |t.agents| && !t.agents[id].mergeStatus.Deferred? && ListsDeferred(l, t, list, id)
    requires BatchOfWorkers(m, t, scope, names, whole) && RowsAtEnd(t.agents, r.agents, list, Branches(t.agents, whole))
    ensures RowsNow(m, r, scope, names)
  {
    forall j | 0 <= j < |m.rows| ensures RowNow(m.rows[j], r.agents[j], names, m.landed, scope, j in m.ids) {
      assert RowNow(l.rows[j], t.agents[j], names, l.landed, scope, j in l.ids);
      assert RowAtEnd(t.agents[j], r.agents[j], j in list, Branches(t.agents, whole));
      if l.rows[j].task in names && l.rows[j].task !in m.finished {
        NotLanded(m, t, scope, names, whole, l.rows[j].task);
      }
    }
  }

  lemma {:induction false} NotLanded(m: Ledger, t: State, scope: seq<Task>, names: map<Task, Branch>,
                                     whole: seq<AgentId>,
                                     u: Task)
    requires BatchOfWorkers(m, t, scope, names, whole) && Injective(names) && u in names && u !in m.finished
    ensures names[u] !in Branches(t.agents, whole)
  {
    forall i | 0 <= i < |whole| ensures Branches(t.agents, whole)[i] != names[u] {
      assert Worker(t.agents, whole[i], scope, names);
    }
  }

  // ---------------------------------------------------------------- one batch

  function Tasks(agents: seq<Agent>, ids: seq<AgentId>): (r: seq<Task>)
    requires forall i :: 0 <= i < |ids| ==> ids[i] < |agents|
    ensures |r| == |ids| && forall i :: 0 <= i < |r| ==> r[i] == agents[ids[i]].task
  {
    seq(|ids|, i requires 0 <= i < |ids| => agents[ids[i]].task)
  }

  /** Those of the first n tasks of the scope, in declaration order, that are among the given ones. */
  function Declared(scope: seq<Task>, n: nat, tasks: seq<Task>): (r: seq<Task>)
    requires n <= |scope|
    ensures forall u :: u in r ==> u in tasks
  {
    if n == 0 then []
    else Declared(scope, n - 1, tasks) + if scope[n - 1] in tasks then [scope[n - 1]] else []
  }

  function BranchesOf(names: map<Task, Branch>, tasks: seq<Task>): (r: seq<Branch>)
    requires forall u :: u in tasks ==> u in names
    ensures |r| == |tasks| && forall i :: 0 <= i < |r| ==> r[i] == names[tasks[i]]
  {
    seq(|tasks|, i requires 0 <= i < |tasks| => assert tasks[i] in tasks; names[tasks[i]])
  }

  /** All finished tasks landed in one batch: the others in declaration order, then the last one; each branch once;
      one CI trigger, for the whole trunk; no row of the scope still waits. */
  ghost predicate OneBatch(s: State, f: State, scope: seq<Task>, names: map<Task, Branch>, others: seq<Task>,
                           last: Task) {
    && (forall u :: u in others + [last] ==> u in names)
    && f.trunk == s.trunk + BranchesOf(names, Declared(scope, |scope|, others) + [last])
    && f.pushes == s.pushes + [|f.trunk|] && NothingWaits(f, scope)
  }

  /** Operation k is a completion at the boundary. */
  ghost predicate BoundaryStep(s: State, scope: seq<Task>, ops: seq<Op>, k: nat)
    requires k < |ops|
  {
    BoundaryAt(LedgerOf(s, scope, ops[..k]), Run(s, ops[..k]), scope, ops[k])
  }

  /** At every completion but the last, some other task of the scope is not yet recorded as done. */
  ghost predicate PendingUntilLast(s: State, scope: seq<Task>, ops: seq<Op>) {
    forall k :: 0 <= k < |ops| - 1 ==> !BoundaryStep(s, scope, ops, k)
  }

  /** The run ends with a completion, and by then every task of the scope has been finished or is recorded as done. */
  ghost predicate Complete(s: State, scope: seq<Task>, ops: seq<Op>) {
    && ops != [] && ops[|ops| - 1].Finish?
    && forall u :: u in scope ==>
         u in LedgerOf(s, scope, ops).finished || Done(Run(s, ops[..|ops| - 1]).status, u)
  }

  ghost predicate NoneBefore(s: State, scope: seq<Task>, ops: seq<Op>, n: nat)
    requires n <= |ops|
  {
    n == 0 || (NoneBefore(s, scope, ops, n - 1) && !BoundaryStep(s, scope, ops, n - 1))
  }

  lemma {:induction false} NoneBeforeAt(s: State, scope: seq<Task>, ops: seq<Op>, n: nat, k: nat)
    requires k < n <= |ops| && NoneBefore(s, scope, ops, n)
    ensures !BoundaryStep(s, scope, ops, k)
  {
    if k < n - 1 {
      NoneBeforeAt(s, scope, ops, n - 1, k);
    }
  }

  lemma {:induction false} NoneBeforeIf(s: State, scope: seq<Task>, ops: seq<Op>, n: nat)
    requires n < |ops| && PendingUntilLast(s, scope, ops)
    ensures NoneBefore(s, scope, ops, n)
  {
    if n > 0 {
      NoneBeforeIf(s, scope, ops, n - 1);
    }
  }

  lemma {:induction false} NoBoundaryYet(s: State, scope: seq<Task>, ops: seq<Op>, n: nat)
    requires n <= |ops|
    ensures LedgerOf(s, scope, ops[..n]).boundaries == 0 <==> NoneBefore(s, scope, ops, n)
    ensures LedgerOf(s, scope, ops[..n]).boundaries == 0 ==> LedgerOf(s, scope, ops[..n]).landed == []
  {
    if n > 0 {
      NoBoundaryYet(s, scope, ops, n - 1);
      LedgerStep(s, scope, ops, n - 1);
    }
  }

  lemma {:induction false} LedgerStep(s: State, scope: seq<Task>, ops: seq<Op>, k: nat)
    requires k < |ops|
    ensures var l, m := LedgerOf(s, scope, ops[..k]), LedgerOf(s, scope, ops[..k + 1]);
            if BoundaryStep(s, scope, ops, k) then m.boundaries == l.boundaries + 1
            else m.boundaries == l.boundaries && m.landed == l.landed
  {
    assert ops[..k + 1][..k] == ops[..k];
  }

  /** While every completion is deferred, trunk and pushes stand still. */
  lemma {:induction false} NothingLandsBefore(s: State, scope: seq<Task>, names: map<Task, Branch>, ops: seq<Op>)
    requires Orderly(s, scope, names, ops) && LedgerOf(s, scope, ops).boundaries == 0
    ensures Run(s, ops).trunk == s.trunk && Run(s, ops).pushes == s.pushes
  {
    KeepsBooks(s, scope, names, ops);
    NoBoundaryYet(s, scope, ops, |ops|);
    assert ops[..|ops|] == ops;
    var t := Run(s, ops);
    EmptySeq(t.trunk[|s.trunk|..]);
  }

  /** The drain list names a task of the scope exactly if its worker is deferred. */
  lemma {:induction false} LatestExactly(s: State, l: Ledger, t: State, scope: seq<Task>, names: map<Task, Branch>,
                                         op: Op, u: Task)
    requires Books(s, l, t, scope, names) && op.Finish? && GoodStep(l, t, scope, names, op) && l.landed == []
    requires u in scope
    ensures Latest(t.agents, |t.agents|, u, Some(op.id)).Some? <==> u in l.finished
  {
    FinisherNow(s, l, t, scope, names, op);
    var latest := Latest(t.agents, |t.agents|, u, Some(op.id));
    if latest.Some? {
      var i := latest.value;
      assert RowNow(l.rows[i], t.agents[i], names, l.landed, scope, i in l.ids);
      assert Worker(l.rows, i, scope, names);
    }
    if u in l.finished {
      assert FinishedBySome(l, u);
      var i :| i in l.ids && i < |l.rows| && l.rows[i].task == u;
      assert RowNow(l.rows[i], t.agents[i], names, l.landed, scope, i in l.ids);
      assert Drainable(t.agents, i, u, Some(op.id));
    }
  }

  lemma {:induction false} ListedTasks(agents: seq<Agent>, scope: seq<Task>, n: nat, trigger: Option<AgentId>,
                                       tasks: seq<Task>)
    requires n <= |scope| && NoDup(scope)
    requires forall i :: 0 <= i < n ==> (Latest(agents, |agents|, scope[i], trigger).Some? <==> scope[i] in tasks)
    ensures Tasks(agents, Listed(agents, scope, n, trigger)) == Declared(scope, n, tasks)
  {
    if n > 0 {
      ListedTasks(agents, scope, n - 1, trigger, tasks);
      ListedStep(agents, scope, n, trigger);
      OneMoreTask(agents, scope, n, trigger, tasks, Listed(agents, scope, n - 1, trigger),
        Declared(scope, n - 1, tasks));
    }
  }

  lemma {:induction false} OneMoreTask(agents: seq<Agent>, scope: seq<Task>, n: nat, trigger: Option<AgentId>,
                                       tasks: seq<Task>, list: seq<AgentId>, declared: seq<Task>)
    requires 0 < n <= |scope| && (Latest(agents, |agents|, scope[n - 1], trigger).Some? <==> scope[n - 1] in tasks)
    requires (forall i :: 0 <= i < |list| ==> list[i] < |agents|) && Tasks(agents, list) == declared
    ensures var latest := Latest(agents, |agents|, scope[n - 1], trigger);
            Tasks(agents, list + if latest.Some? then [latest.value] else [])
            == declared + if scope[n - 1] in tasks then [scope[n - 1]] else []
  {
    var latest := Latest(agents, |agents|, scope[n - 1], trigger);
    if latest.Some? {
      TasksAppend(agents, list, latest.value);
    } else {
      assert list + [] == list;
    }
  }

  lemma {:induction false} ListedStep(agents: seq<Agent>, scope: seq<Task>, n: nat, trigger: Option<AgentId>)
    requires 0 < n <= |scope| && NoDup(scope)
    ensures var latest := Latest(agents, |agents|, scope[n - 1], trigger);
            Listed(agents, scope, n, trigger)
            == Listed(agents, scope, n - 1, trigger) + if latest.Some? then [latest.value] else []
  {
    assert scope[n - 1] !in scope[..n - 1];
  }

  lemma {:induction false} TasksAppend(agents: seq<Agent>, ids: seq<AgentId>, id: AgentId)
    requires id < |agents| && forall i :: 0 <= i < |ids| ==> ids[i] < |agents|
    ensures Tasks(agents, ids + [id]) == Tasks(agents, ids) + [agents[id].task]
  {
  }

  /** The branches of a batch of workers are those of its tasks. */
  lemma {:induction false} BatchNames(m: Ledger, t: State, scope: seq<Task>, names: map<Task, Branch>,
                                      list: seq<AgentId>,
                                      id: AgentId, tasks: seq<Task>)
    requires BatchOfWorkers(m, t, scope, names, list + [id]) && id < |t.agents| && AllRows(t, list)
    requires tasks == Tasks(t.agents, list) + [t.agents[id].task]
    ensures forall u :: u in tasks ==> u in names
    ensures Branches(t.agents, list + [id]) == BranchesOf(names, tasks)
  {
    var whole := list + [id];
    forall i | 0 <= i < |whole|
      ensures tasks[i] == t.agents[whole[i]].task && tasks[i] in names
          && BranchName(t.agents[whole[i]]) == names[tasks[i]]
    {
      assert Worker(t.agents, whole[i], scope, names);
    }
  }

  /** The completion that finds all the others deferred lands the one batch. */
  lemma {:induction false} LastLandsAll(s: State, l: Ledger, t: State, scope: seq<Task>, names: map<Task, Branch>,
                                        op: Op)
    requires Books(s, l, t, scope, names) && op.Finish? && GoodStep(l, t, scope, names, op)
        && GoodStart(s, scope, names)
    requires BoundaryAt(l, t, scope, op) && l.landed == [] && t.trunk == s.trunk && t.pushes == s.pushes
    ensures OneBatch(s, Do(t, op), scope, names, l.finished, l.rows[op.id].task)
  {
    var id, last, f, m := op.id, l.rows[op.id].task, Do(t, op), NextLedger(l, t, scope, op);
    FinisherNow(s, l, t, scope, names, op);
    BoundaryBatch(s, l, t, scope, names, op);
    var list := DrainList(t, op.world, id);
    forall u | u in scope ensures Latest(t.agents, |t.agents|, u, Some(id)).Some? <==> u in l.finished {
      LatestExactly(s, l, t, scope, names, op, u);
    }
    ListedTasks(t.agents, scope, |scope|, Some(id), l.finished);
    BatchNames(m, t, scope, names, list, id, Declared(scope, |scope|, l.finished) + [last]);
    forall u | u in l.finished ensures u in names {
      assert FinishedBySome(l, u);
      var i :| i in l.ids && i < |l.rows| && l.rows[i].task == u;
      assert Worker(l.rows, i, scope, names);
    }
    BoundaryKeepsBooks(s, l, t, scope, names, op);
    AllLandedNothingWaits(m, f, scope, names);
  }

  lemma {:induction false} AllLandedNothingWaits(m: Ledger, f: State, scope: seq<Task>, names: map<Task, Branch>)
    requires RowsNow(m, f, scope, names) && OneWorkerEach(m, scope, names) && m.landed == m.finished
    ensures NothingWaits(f, scope)
  {
    forall j | 0 <= j < |f.agents| && f.agents[j].task in scope ensures !Waiting(f.agents[j]) {
      assert RowNow(m.rows[j], f.agents[j], names, m.landed, scope, j in m.ids);
    }
  }

  /** The last completion is at the boundary once nothing has landed before. */
  lemma {:induction false} LastIsBoundary(s: State, scope: seq<Task>, names: map<Task, Branch>, ops: seq<Op>)
    requires Orderly(s, scope, names, ops) && Complete(s, scope, ops)
    requires LedgerOf(s, scope, ops[..|ops| - 1]).boundaries == 0
    ensures var front := ops[..|ops| - 1];
            BoundaryAt(LedgerOf(s, scope, front), Run(s, front), scope, ops[|ops| - 1])
  {
    var front, op := ops[..|ops| - 1], ops[|ops| - 1];
    var l, t := LedgerOf(s, scope, front), Run(s, front);
    KeepsBooks(s, scope, names, front);
    NoBoundaryYet(s, scope, ops, |front|);
    var last := l.rows[op.id].task;
    forall u | u in scope ensures u == last || Done(t.status, u) {
      assert LedgerOf(s, scope, ops).finished == l.finished + [last];
    }
  }
}
