/** What the runs of Cadence are put together from: runs in which every completion but the last finds some other
    task of its scope pending, and what they leave; runs of the plan's own advance, in which an agent starts only
    while none is at work; the completion that is last, and what it lands; and the run in which two agents report
    early, step by step. Cadence says what follows (server-rs/src/auto_mode.rs, server-rs/src/agents/mod.rs). */
module CadenceSteps {
  import opened Util
  import opened AutoMode
  import opened Batches
  import opened NoLimbo
  import opened Boundary
  import opened Recovery
  import opened CadenceRuns

  lemma {:induction false} PendingGivesOneBatch(s: State, scope: seq<Task>, names: map<Task, Branch>, ops: seq<Op>)
    requires Orderly(s, scope, names, ops) && Complete(s, scope, ops) && PendingUntilLast(s, scope, ops)
    ensures var l, op := LedgerOf(s, scope, ops[..|ops| - 1]), ops[|ops| - 1];
            op.id < |l.rows| && OneBatch(s, Run(s, ops), scope, names, l.finished, l.rows[op.id].task)
  {
    var front, op := ops[..|ops| - 1], ops[|ops| - 1];
    OrderlyStart(s, scope, names, front);
    KeepsBooks(s, scope, names, front);
    StandsBeforeLast(s, scope, names, ops);
    LastIsBoundary(s, scope, names, ops);
    LastLandsAll(s, LedgerOf(s, scope, front), Run(s, front), scope, names, op);
  }

  lemma {:induction false} StandsBeforeLast(s: State, scope: seq<Task>, names: map<Task, Branch>, ops: seq<Op>)
    requires Orderly(s, scope, names, ops) && Complete(s, scope, ops) && PendingUntilLast(s, scope, ops)
    ensures var l, t := LedgerOf(s, scope, ops[..|ops| - 1]), Run(s, ops[..|ops| - 1]);
            l.boundaries == 0 && l.landed == [] && t.trunk == s.trunk && t.pushes == s.pushes
  {
    var n := |ops| - 1;
    NoneBeforeIf(s, scope, ops, n);
    NoBoundaryYet(s, scope, ops, n);
    NothingLandsBefore(s, scope, names, ops[..n]);
  }

  lemma {:induction false} OneBatchWasPending(s: State, scope: seq<Task>, names: map<Task, Branch>, ops: seq<Op>)
    requires Orderly(s, scope, names, ops) && Complete(s, scope, ops)
    requires var l, op := LedgerOf(s, scope, ops[..|ops| - 1]), ops[|ops| - 1];
             op.id < |l.rows| && OneBatch(s, Run(s, ops), scope, names, l.finished, l.rows[op.id].task)
    ensures PendingUntilLast(s, scope, ops)
  {
    var front, op := ops[..|ops| - 1], ops[|ops| - 1];
    var l, t := LedgerOf(s, scope, front), Run(s, front);
    OrderlyStart(s, scope, names, front);
    KeepsBooks(s, scope, names, front);
    KeepsBooks(s, scope, names, ops);
    OneBatchOneBoundary(s, l, LedgerOf(s, scope, ops), t, Run(s, ops), scope, names, op);
    NoBoundaryYet(s, scope, ops, |front|);
    forall k | 0 <= k < |ops| - 1 ensures !BoundaryStep(s, scope, ops, k) {
      NoneBeforeAt(s, scope, ops, |front|, k);
    }
  }

  /** One push is one boundary, and the last branch only lands at its own completion. */
  lemma {:induction false} OneBatchOneBoundary(s: State, l: Ledger, m: Ledger, t: State, f: State, scope: seq<Task>,
                                               names: map<Task, Branch>, op: Op)
    requires StatusNow(l, t) && op.Finish? && GoodStep(l, t, scope, names, op) && Injective(names)
    requires m == NextLedger(l, t, scope, op) && TrunkNow(s, m, f, names)
    requires OneBatch(s, f, scope, names, l.finished, l.rows[op.id].task)
    ensures l.boundaries == 0
  {
    var last := l.rows[op.id].task;
    var batch := BranchesOf(names, Declared(scope, |scope|, l.finished) + [last]);
    assert f.trunk[|s.trunk|..] == batch;
    assert batch[|batch| - 1] == names[last];
    assert names[last] in Named(names, m.landed);
    assert last in m.landed;
  }

  lemma {:induction false} OrderlyPrefix(s: State, scope: seq<Task>, names: map<Task, Branch>, ops: seq<Op>, k: nat)
    requires Orderly(s, scope, names, ops) && k <= |ops|
    ensures Orderly(s, scope, names, ops[..k])
  {
    if k == |ops| {
      assert ops[..k] == ops;
    } else {
      var front := ops[..|ops| - 1];
      OrderlyPrefix(s, scope, names, front, k);
      assert front[..k] == ops[..k];
    }
  }

  lemma {:induction false} SameButLast(a: seq<Task>, b: seq<Task>, last: Task)
    requires (forall u :: u in a + [last] <==> u in b + [last]) && last !in a && last !in b
    ensures forall u :: u in a <==> u in b
  {
    forall u ensures u in a <==> u in b {
      assert u in a + [last] <==> u in a || u == last;
      assert u in b + [last] <==> u in b || u == last;
    }
  }

  lemma {:induction false} SameBatch(s: State, f: State, g: State, scope: seq<Task>, names: map<Task, Branch>,
                                     a: seq<Task>, b: seq<Task>, last: Task)
    requires OneBatch(s, f, scope, names, a, last) && OneBatch(s, g, scope, names, b, last)
    requires forall u :: u in a <==> u in b
    ensures f.trunk == g.trunk && f.pushes == g.pushes
  {
    DeclaredSame(scope, |scope|, a, b);
  }

  lemma {:induction false} LastOfFinished(s: State, scope: seq<Task>, names: map<Task, Branch>, ops: seq<Op>)
    requires Orderly(s, scope, names, ops) && Complete(s, scope, ops)
    ensures var l, op := LedgerOf(s, scope, ops[..|ops| - 1]), ops[|ops| - 1];
            && op.id < |l.rows| && l.rows[op.id].task !in l.finished
            && LedgerOf(s, scope, ops).finished == l.finished + [l.rows[op.id].task]
  {
  }

  lemma {:induction false} DeclaredSame(scope: seq<Task>, n: nat, a: seq<Task>, b: seq<Task>)
    requires n <= |scope| && forall u :: u in a <==> u in b
    ensures Declared(scope, n, a) == Declared(scope, n, b)
  {
    if n > 0 {
      DeclaredSame(scope, n - 1, a, b);
    }
  }

  // ---------------------------------------------------------------- one agent at a time

  /** The claim of the plan's own advance: an agent starts only while no other one is at work, and only on a task that
      is not recorded as done. */
  ghost predicate Claimed(s: State, scope: seq<Task>, ops: seq<Op>, k: nat)
    requires k < |ops|
  {
    match ops[k]
    case StartWork(task, _) =>
      NobodyAtWork(|s.agents|, LedgerOf(s, scope, ops[..k])) && !Done(Run(s, ops[..k]).status, task)
    case Finish(id, _) => id >= |s.agents|
    case _ => true
  }

  /** Every agent started since row n has finished. */
  ghost predicate NobodyAtWork(n: nat, l: Ledger) {
    forall i :: n <= i < |l.rows| ==> i in l.ids
  }

  /** The runs of that advance: every agent is claimed, and the agents that finish are those the run started. */
  ghost predicate OneAtATime(s: State, scope: seq<Task>, ops: seq<Op>) {
    forall k :: 0 <= k < |ops| ==> Claimed(s, scope, ops, k)
  }

  ghost predicate AtMostOneAtWork(n: nat, l: Ledger) {
    forall i, j :: n <= i < |l.rows| && n <= j < |l.rows| && i !in l.ids && j !in l.ids ==> i == j
  }

  lemma {:induction false} OneAtWork(s: State, scope: seq<Task>, ops: seq<Op>, k: nat)
    requires OneAtATime(s, scope, ops) && k <= |ops|
    ensures AtMostOneAtWork(|s.agents|, LedgerOf(s, scope, ops[..k]))
  {
    if k > 0 {
      OneAtWork(s, scope, ops, k - 1);
      assert Claimed(s, scope, ops, k - 1);
      assert ops[..k][..k - 1] == ops[..k - 1];
      ClaimKeepsOne(|s.agents|, LedgerOf(s, scope, ops[..k - 1]), Run(s, ops[..k - 1]), scope, ops[k - 1]);
    }
  }

  lemma {:induction false} ClaimKeepsOne(n: nat, l: Ledger, t: State, scope: seq<Task>, op: Op)
    requires AtMostOneAtWork(n, l) && (op.StartWork? ==> NobodyAtWork(n, l))
    ensures AtMostOneAtWork(n, NextLedger(l, t, scope, op))
  {
    var m := NextLedger(l, t, scope, op);
    assert op.StartWork? || m.rows == l.rows;
    assert forall i :: i in l.ids ==> i in m.ids;
  }

  lemma {:induction false} FinishedStep(s: State, scope: seq<Task>, ops: seq<Op>, k: nat)
    requires k < |ops|
    ensures LedgerOf(s, scope, ops[..k]).finished <= LedgerOf(s, scope, ops[..k + 1]).finished
  {
    assert ops[..k + 1][..k] == ops[..k];
  }

  lemma {:induction false} FinishedGrows(s: State, scope: seq<Task>, ops: seq<Op>, k: nat, n: nat)
    requires k <= n <= |ops|
    ensures LedgerOf(s, scope, ops[..k]).finished <= LedgerOf(s, scope, ops[..n]).finished
    decreases n - k
  {
    if k < n {
      FinishedStep(s, scope, ops, k);
      FinishedGrows(s, scope, ops, k + 1, n);
    }
  }

  ghost predicate Unstarted(n: nat, l: Ledger, u: Task) {
    forall i :: n <= i < |l.rows| ==> l.rows[i].task != u
  }

  lemma {:induction false} DoneStays(s: State, l: Ledger, t: State, scope: seq<Task>, names: map<Task, Branch>,
                                     op: Op, u: Task)
    requires Books(s, l, t, scope, names) && GoodStep(l, t, scope, names, op) && Injective(names)
    requires u in scope && Done(t.status, u) && Unstarted(|s.agents|, l, u)
    requires op.StartWork? ==> !Done(t.status, op.task)
    ensures Done(Do(t, op).status, u) && Unstarted(|s.agents|, NextLedger(l, t, scope, op), u)
  {
    if op.Finish? {
      FinisherNow(s, l, t, scope, names, op);
      if BoundaryAt(l, t, scope, op) {
        BoundaryBatch(s, l, t, scope, names, op);
      } else {
        assert Do(t, op) == Advance(Defer(t, op.id), t.agents[op.id].task);
      }
    }
  }

  lemma {:induction false} StepSoFar(s: State, scope: seq<Task>, names: map<Task, Branch>, ops: seq<Op>, k: nat)
    requires Orderly(s, scope, names, ops) && k < |ops|
    ensures var l, t := LedgerOf(s, scope, ops[..k]), Run(s, ops[..k]);
            Books(s, l, t, scope, names) && GoodStep(l, t, scope, names, ops[k]) && Injective(names)
  {
    OrderlyPrefix(s, scope, names, ops, k + 1);
    assert ops[..k + 1][..k] == ops[..k];
    OrderlyStart(s, scope, names, ops[..k]);
    KeepsBooks(s, scope, names, ops[..k]);
  }

  ghost predicate DoneUnstarted(s: State, scope: seq<Task>, ops: seq<Op>, k: nat, u: Task)
    requires k <= |ops|
  {
    Done(Run(s, ops[..k]).status, u) && Unstarted(|s.agents|, LedgerOf(s, scope, ops[..k]), u)
  }

  lemma {:induction false} DoneStaysUnstarted(s: State, scope: seq<Task>, names: map<Task, Branch>, ops: seq<Op>,
                                              k: nat, u: Task)
    requires Orderly(s, scope, names, ops) && k < |ops| && Claimed(s, scope, ops, k) && u in scope
    requires DoneUnstarted(s, scope, ops, k, u)
    ensures DoneUnstarted(s, scope, ops, k + 1, u)
  {
    StepSoFar(s, scope, names, ops, k);
    DoneStays(s, LedgerOf(s, scope, ops[..k]), Run(s, ops[..k]), scope, names, ops[k], u);
    assert ops[..k + 1][..k] == ops[..k];
  }

  /** A task recorded as done before anybody starts on it is not claimed any more. */
  lemma {:induction false} DoneIsNotClaimed(s: State, scope: seq<Task>, names: map<Task, Branch>, ops: seq<Op>,
                                            k: nat, n: nat, u: Task)
    requires Orderly(s, scope, names, ops) && OneAtATime(s, scope, ops) && k <= n <= |ops| && u in scope
    requires DoneUnstarted(s, scope, ops, k, u)
    ensures DoneUnstarted(s, scope, ops, n, u)
    decreases n - k
  {
    if k < n {
      assert Claimed(s, scope, ops, k);
      DoneStaysUnstarted(s, scope, names, ops, k, u);
      DoneIsNotClaimed(s, scope, names, ops, k + 1, n, u);
    }
  }

  /** At every completion but the last, the worker that completes last has not started. */
  lemma {:induction false} StillPending(s: State, scope: seq<Task>, names: map<Task, Branch>, ops: seq<Op>, k: nat)
    requires Orderly(s, scope, names, ops) && OneAtATime(s, scope, ops)
    requires k < |ops| - 1 && ops[k].Finish? && ops[|ops| - 1].Finish?
    ensures !BoundaryStep(s, scope, ops, k)
  {
    var n, last := |s.agents|, |ops| - 1;
    var l, m := LedgerOf(s, scope, ops[..k]), LedgerOf(s, scope, ops[..last]);
    var u := m.rows[ops[last].id].task;
    LastNotStarted(s, scope, names, ops, k);
    assert Claimed(s, scope, ops, last) && !Unstarted(n, m, u);
    NotDoneYet(s, scope, names, ops, k, last, u);
  }

  lemma {:induction false} NotDoneYet(s: State, scope: seq<Task>, names: map<Task, Branch>, ops: seq<Op>, k: nat,
                                      n: nat, u: Task)
    requires Orderly(s, scope, names, ops) && OneAtATime(s, scope, ops) && k <= n <= |ops| && u in scope
    requires Unstarted(|s.agents|, LedgerOf(s, scope, ops[..k]), u)
    requires !Unstarted(|s.agents|, LedgerOf(s, scope, ops[..n]), u)
    ensures !Done(Run(s, ops[..k]).status, u)
  {
    if DoneUnstarted(s, scope, ops, k, u) {
      DoneIsNotClaimed(s, scope, names, ops, k, n, u);
    }
  }

  lemma {:induction false} LastNotStarted(s: State, scope: seq<Task>, names: map<Task, Branch>, ops: seq<Op>, k: nat)
    requires Orderly(s, scope, names, ops) && OneAtATime(s, scope, ops)
    requires k < |ops| - 1 && ops[k].Finish? && ops[|ops| - 1].Finish?
    ensures var l, m := LedgerOf(s, scope, ops[..k]), LedgerOf(s, scope, ops[..|ops| - 1]);
            ops[k].id < |l.rows| && ops[|ops| - 1].id < |m.rows|
            && var u := m.rows[ops[|ops| - 1].id].task;
               u in scope && u != l.rows[ops[k].id].task && Unstarted(|s.agents|, l, u)
  {
    var l, m := LedgerOf(s, scope, ops[..k]), LedgerOf(s, scope, ops[..|ops| - 1]);
    LastFinishesLater(s, scope, names, ops, k);
    OneAtWork(s, scope, ops, k);
    WorkersSoFar(s, scope, names, ops, k);
    assert Claimed(s, scope, ops, k);
    OnlyFinishedOrAtWork(|s.agents|, l, scope, names, ops[k].id, m.finished, m.rows[ops[|ops| - 1].id].task);
  }

  lemma {:induction false} LastFinishesLater(s: State, scope: seq<Task>, names: map<Task, Branch>, ops: seq<Op>,
                                             k: nat)
    requires Orderly(s, scope, names, ops)
    requires k < |ops| - 1 && ops[k].Finish? && ops[|ops| - 1].Finish?
    ensures var l, m := LedgerOf(s, scope, ops[..k]), LedgerOf(s, scope, ops[..|ops| - 1]);
            && NextToFinish(l, scope, ops[k].id) && NextToFinish(m, scope, ops[|ops| - 1].id)
            && l.finished + [l.rows[ops[k].id].task] <= m.finished
  {
    FinisherIsGood(s, scope, names, ops, k);
    FinisherIsGood(s, scope, names, ops, |ops| - 1);
    FinishedGrows(s, scope, ops, k + 1, |ops| - 1);
  }

  lemma {:induction false} WorkersSoFar(s: State, scope: seq<Task>, names: map<Task, Branch>, ops: seq<Op>, k: nat)
    requires Orderly(s, scope, names, ops) && k <= |ops|
    ensures OneWorkerEach(LedgerOf(s, scope, ops[..k]), scope, names)
  {
    OrderlyPrefix(s, scope, names, ops, k);
    KeepsBooks(s, scope, names, ops[..k]);
  }

  predicate NextToFinish(l: Ledger, scope: seq<Task>, id: AgentId) {
    id < |l.rows| && l.rows[id].task in scope && l.rows[id].task !in l.finished
  }

  lemma {:induction false} FinisherIsGood(s: State, scope: seq<Task>, names: map<Task, Branch>, ops: seq<Op>, k: nat)
    requires Orderly(s, scope, names, ops) && k < |ops| && ops[k].Finish?
    ensures var l := LedgerOf(s, scope, ops[..k]);
            && NextToFinish(l, scope, ops[k].id)
            && LedgerOf(s, scope, ops[..k + 1]).finished == l.finished + [l.rows[ops[k].id].task]
  {
    StepSoFar(s, scope, names, ops, k);
    FinishAdds(LedgerOf(s, scope, ops[..k]), Run(s, ops[..k]), scope, names, ops[k]);
    LedgerNext(s, scope, ops, k);
  }

  lemma {:induction false} LedgerNext(s: State, scope: seq<Task>, ops: seq<Op>, k: nat)
    requires k < |ops|
    ensures LedgerOf(s, scope, ops[..k + 1]) ==
            NextLedger(LedgerOf(s, scope, ops[..k]), Run(s, ops[..k]), scope, ops[k])
  {
    assert ops[..k + 1][..k] == ops[..k];
  }

  lemma {:induction false} FinishAdds(l: Ledger, t: State, scope: seq<Task>, names: map<Task, Branch>, op: Op)
    requires op.Finish? && GoodStep(l, t, scope, names, op)
    ensures NextToFinish(l, scope, op.id)
    ensures NextLedger(l, t, scope, op).finished == l.finished + [l.rows[op.id].task]
  {
  }

  /** Whoever started in the run has finished, or is the one at work. */
  lemma {:induction false} OnlyFinishedOrAtWork(n: nat, l: Ledger, scope: seq<Task>, names: map<Task, Branch>,
                                                id: AgentId, later: seq<Task>, u: Task)
    requires OneWorkerEach(l, scope, names) && AtMostOneAtWork(n, l) && n <= id < |l.rows|
    requires l.rows[id].task !in l.finished && l.finished + [l.rows[id].task] <= later && u !in later
    ensures u != l.rows[id].task && Unstarted(n, l, u)
  {
    assert (l.finished + [l.rows[id].task])[|l.finished|] == later[|l.finished|];
    forall i | n <= i < |l.rows| ensures l.rows[i].task != u {
      if i in l.ids {
        var j :| 0 <= j < |l.finished| && l.finished[j] == l.rows[i].task;
        assert later[j] == (l.finished + [l.rows[id].task])[j];
      }
    }
  }

  // ---------------------------------------------------------------- where batching fails

  lemma {:induction false} Snoc(s: State, scope: seq<Task>, names: map<Task, Branch>, ops: seq<Op>, op: Op)
    ensures Run(s, ops + [op]) == Do(Run(s, ops), op)
    ensures LedgerOf(s, scope, ops + [op]) == NextLedger(LedgerOf(s, scope, ops), Run(s, ops), scope, op)
    ensures Orderly(s, scope, names, ops + [op]) <==>
            Orderly(s, scope, names, ops) && GoodStep(LedgerOf(s, scope, ops), Run(s, ops), scope, names, op)
  {
    assert (ops + [op])[..|ops|] == ops;
  }

  /** Two agents start, and both report their tasks as done before either completion is handled. */
  function BothReport(a: Task, b: Task, names: map<Task, Branch>): seq<Op>
    requires a in names && b in names
  {
    [] + [StartWork(a, names[a])] + [StartWork(b, names[b])] + [WriteStatus(a, Completed)] + [WriteStatus(b, Completed)]
  }

  function BothRows(s: State, a: Task, b: Task, names: map<Task, Branch>): seq<Agent>
    requires a in names && b in names
  {
    s.agents + [Agent(a, Work, Some(names[a]), NoStatus)] + [Agent(b, Work, Some(names[b]), NoStatus)]
  }

  lemma {:induction false} BothReported(s: State, a: Task, b: Task, names: map<Task, Branch>)
    requires a in names && b in names && GoodStart(s, [a, b], names)
    ensures var ops := BothReport(a, b, names);
            && Orderly(s, [a, b], names, ops)
            && LedgerOf(s, [a, b], ops) == Ledger(BothRows(s, a, b, names), {}, [], [], 0)
            && Done(Run(s, ops).status, a) && Done(Run(s, ops).status, b)
            && Run(s, ops).trunk == s.trunk && Run(s, ops).pushes == s.pushes
  {
    var scope := [a, b];
    var one := [] + [StartWork(a, names[a])];
    var two := one + [StartWork(b, names[b])];
    var three := two + [WriteStatus(a, Completed)];
    Snoc(s, scope, names, [], StartWork(a, names[a]));
    Snoc(s, scope, names, one, StartWork(b, names[b]));
    Snoc(s, scope, names, two, WriteStatus(a, Completed));
    Snoc(s, scope, names, three, WriteStatus(b, Completed));
  }

  /** A completion that finds every task recorded as done is a boundary, and leaves the records alone; when nothing
      waits, its branch lands alone. */
  lemma {:induction false} LandsAlone(s: State, l: Ledger, t: State, scope: seq<Task>, names: map<Task, Branch>,
                                      id: AgentId, w: World)
    requires Books(s, l, t, scope, names) && GoodStep(l, t, scope, names, Finish(id, w)) && Injective(names)
    requires l.landed == l.finished && forall u :: u in scope ==> Done(t.status, u)
    ensures var r := Do(t, Finish(id, w));
            r.status == t.status && r.trunk == t.trunk + [names[l.rows[id].task]] && r.pushes == t.pushes + [|r.trunk|]
    ensures var finished := l.finished + [l.rows[id].task];
            NextLedger(l, t, scope, Finish(id, w)) == Ledger(l.rows, l.ids + {id}, finished, finished, l.boundaries + 1)
  {
    BoundaryBatch(s, l, t, scope, names, Finish(id, w));
    var list := DrainList(t, w, id);
    forall i ensures i !in list {
      assert i in l.ids && i < |l.rows| ==> l.rows[i].task in l.landed;
    }
    EmptySeq(list);
    assert WholeBatch(t, w, id) == [id];
    FinisherNow(s, l, t, scope, names, Finish(id, w));
  }

  lemma {:induction false} FirstLandsAlone(s: State, w: World, a: Task, b: Task, names: map<Task, Branch>)
    requires a in names && b in names && GoodStart(s, [a, b], names) && SharesBoundary(w, [a, b]) && AllGoesWell(w)
    ensures var ops, n := BothReport(a, b, names) + [Finish(|s.agents|, w)], |s.agents|;
            && Orderly(s, [a, b], names, ops)
            && LedgerOf(s, [a, b], ops) == Ledger(BothRows(s, a, b, names), {n}, [a], [a], 1)
            && Done(Run(s, ops).status, a) && Done(Run(s, ops).status, b)
            && Run(s, ops).trunk == s.trunk + [names[a]] && Run(s, ops).pushes == s.pushes + [|s.trunk| + 1]
  {
    var scope, n, reports := [a, b], |s.agents|, BothReport(a, b, names);
    BothReported(s, a, b, names);
    KeepsBooks(s, scope, names, reports);
    FirstOfBoth(s, Run(s, reports), w, a, b, names);
    Snoc(s, scope, names, reports, Finish(n, w));
  }

  lemma {:induction false} FirstOfBoth(s: State, t: State, w: World, a: Task, b: Task, names: map<Task, Branch>)
    requires a in names && b in names && GoodStart(s, [a, b], names) && SharesBoundary(w, [a, b]) && AllGoesWell(w)
    requires Books(s, Ledger(BothRows(s, a, b, names), {}, [], [], 0), t, [a, b], names)
    requires Done(t.status, a) && Done(t.status, b)
    ensures var l, n, r := Ledger(BothRows(s, a, b, names), {}, [], [], 0), |s.agents|, Do(t, Finish(|s.agents|, w));
            && GoodStep(l, t, [a, b], names, Finish(n, w))
            && NextLedger(l, t, [a, b], Finish(n, w)) == Ledger(l.rows, {n}, [a], [a], 1)
            && r.status == t.status && r.trunk == t.trunk + [names[a]] && r.pushes == t.pushes + [|r.trunk|]
  {
    var l, n := Ledger(BothRows(s, a, b, names), {}, [], [], 0), |s.agents|;
    assert l.rows[n].task == a;
    LandsAlone(s, l, t, [a, b], names, n, w);
    assert {} + {n} == {n} && [] + [a] == [a];
  }

  lemma {:induction false} BothComplete(s: State, a: Task, b: Task, names: map<Task, Branch>, ops: seq<Op>, last: Op)
    requires last.Finish? && LedgerOf(s, [a, b], ops + [last]).finished == [a, b]
    ensures Complete(s, [a, b], ops + [last])
  {
    assert (ops + [last])[..|ops|] == ops;
  }

  lemma {:induction false} SecondLandsAlone(s: State, w: World, a: Task, b: Task, names: map<Task, Branch>,
                                            ops: seq<Op>)
    requires a in names && b in names && GoodStart(s, [a, b], names) && SharesBoundary(w, [a, b]) && AllGoesWell(w)
    requires Orderly(s, [a, b], names, ops) && Done(Run(s, ops).status, a) && Done(Run(s, ops).status, b)
    requires LedgerOf(s, [a, b], ops) == Ledger(BothRows(s, a, b, names), {|s.agents|}, [a], [a], 1)
    ensures Orderly(s, [a, b], names, ops + [Finish(|s.agents| + 1, w)])
    ensures LedgerOf(s, [a, b], ops + [Finish(|s.agents| + 1, w)]).finished == [a, b]
    ensures var t, r := Run(s, ops), Run(s, ops + [Finish(|s.agents| + 1, w)]);
            r.trunk == t.trunk + [names[b]] && r.pushes == t.pushes + [|r.trunk|]
  {
    var scope, n := [a, b], |s.agents|;
    assert scope[0] != scope[1];
    var l := LedgerOf(s, scope, ops);
    assert l.rows[n + 1].task == b;
    KeepsBooks(s, scope, names, ops);
    LandsAlone(s, l, Run(s, ops), scope, names, n + 1, w);
    Snoc(s, scope, names, ops, Finish(n + 1, w));
    assert [a] + [b] == [a, b];
  }

  lemma {:induction false} BothLandAlone(s: State, w: World, a: Task, b: Task, names: map<Task, Branch>, ops: seq<Op>)
    requires a in names && b in names && GoodStart(s, [a, b], names) && SharesBoundary(w, [a, b]) && AllGoesWell(w)
    requires Orderly(s, [a, b], names, ops) && Done(Run(s, ops).status, a) && Done(Run(s, ops).status, b)
    requires LedgerOf(s, [a, b], ops) == Ledger(BothRows(s, a, b, names), {|s.agents|}, [a], [a], 1)
    requires Run(s, ops).trunk == s.trunk + [names[a]] && Run(s, ops).pushes == s.pushes + [|s.trunk| + 1]
    ensures var both := ops + [Finish(|s.agents| + 1, w)];
            && Orderly(s, [a, b], names, both) && Complete(s, [a, b], both)
            && Run(s, both).trunk == s.trunk + [names[a], names[b]]
            && Run(s, both).pushes == s.pushes + [|s.trunk| + 1, |s.trunk| + 2]
  {
    SecondLandsAlone(s, w, a, b, names, ops);
    BothComplete(s, a, b, names, ops, Finish(|s.agents| + 1, w));
    assert s.trunk + [names[a]] + [names[b]] == s.trunk + [names[a], names[b]];
    assert s.pushes + [|s.trunk| + 1] + [|s.trunk| + 2] == s.pushes + [|s.trunk| + 1, |s.trunk| + 2];
  }
}
