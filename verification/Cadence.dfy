/** Cadence batching: when a phase (or a plan) lands as one batch in declaration order, exactly
    (server-rs/src/auto_mode.rs and server-rs/src/agents/mod.rs). */
module Cadence {
  import opened Util
  import opened AutoMode
  import opened Batches
  import opened NoLimbo
  import opened Boundary
  import opened Recovery
  import opened CadenceRuns
  import opened CadenceSteps

  /** Cadence batching. Agents of the scope start, report their status and complete in any order, rows are appended
      and statuses written in between, and gate, git and CI succeed. Everything lands as one batch, in declaration
      order, with one CI trigger, if and only if at every completion but the last some other task of the scope is
      not yet recorded as done. */
  lemma {:induction false} BatchesExactly(s: State, scope: seq<Task>, names: map<Task, Branch>, ops: seq<Op>)
    requires Orderly(s, scope, names, ops) && Complete(s, scope, ops)
    ensures var l, op := LedgerOf(s, scope, ops[..|ops| - 1]), ops[|ops| - 1];
            op.id < |l.rows|
            && (OneBatch(s, Run(s, ops), scope, names, l.finished, l.rows[op.id].task) <==>
              PendingUntilLast(s, scope, ops))
  {
    LastOfFinished(s, scope, names, ops);
    if PendingUntilLast(s, scope, ops) {
      PendingGivesOneBatch(s, scope, names, ops);
    }
    var l, op := LedgerOf(s, scope, ops[..|ops| - 1]), ops[|ops| - 1];
    if OneBatch(s, Run(s, ops), scope, names, l.finished, l.rows[op.id].task) {
      OneBatchWasPending(s, scope, names, ops);
    }
  }

  /** What the batch looks like on the way: before the last completion nothing lands or is pushed, and every worker
      that finished waits for the drain; every completion advances. */
  lemma {:induction false} DefersUntilLast(s: State, scope: seq<Task>, names: map<Task, Branch>, ops: seq<Op>, k: nat)
    requires Orderly(s, scope, names, ops) && PendingUntilLast(s, scope, ops) && k < |ops|
    ensures var l, t := LedgerOf(s, scope, ops[..k]), Run(s, ops[..k]);
            && t.trunk == s.trunk && t.pushes == s.pushes && t.advances == s.advances + l.finished
            && forall i :: i in l.ids ==> i < |t.agents| && Waiting(t.agents[i])
  {
    var front := ops[..k];
    OrderlyPrefix(s, scope, names, ops, k);
    NoBoundaryYet(s, scope, ops, k);
    NoneBeforeIf(s, scope, ops, k);
    NothingLandsBefore(s, scope, names, front);
    KeepsBooks(s, scope, names, front);
    var l, t := LedgerOf(s, scope, front), Run(s, front);
    forall i | i in l.ids ensures i < |t.agents| && Waiting(t.agents[i]) {
      assert Worker(l.rows, i, scope, names);
      assert RowNow(l.rows[i], t.agents[i], names, l.landed, scope, i in l.ids);
    }
  }

  /** Independence: two such runs of the same workers, with the same last one, leave the same trunk and pushes,
      whatever the order of starts, reports and completions in between. */
  lemma {:induction false} OrderDoesNotMatter(s: State, scope: seq<Task>, names: map<Task, Branch>, ops: seq<Op>,
                                              other: seq<Op>)
    requires Orderly(s, scope, names, ops) && Complete(s, scope, ops) && PendingUntilLast(s, scope, ops)
    requires Orderly(s, scope, names, other) && Complete(s, scope, other) && PendingUntilLast(s, scope, other)
    requires var a, b := LedgerOf(s, scope, ops).finished, LedgerOf(s, scope, other).finished;
             (forall u :: u in a <==> u in b) && |a| > 0 && |b| > 0 && a[|a| - 1] == b[|b| - 1]
    ensures Run(s, ops).trunk == Run(s, other).trunk && Run(s, ops).pushes == Run(s, other).pushes
  {
    BatchesExactly(s, scope, names, ops);
    BatchesExactly(s, scope, names, other);
    LastOfFinished(s, scope, names, ops);
    LastOfFinished(s, scope, names, other);
    var a, b := LedgerOf(s, scope, ops[..|ops| - 1]).finished, LedgerOf(s, scope, other[..|other| - 1]).finished;
    var last := LedgerOf(s, scope, ops).finished[|a|];
    SameButLast(a, b, last);
    SameBatch(s, Run(s, ops), Run(s, other), scope, names, a, b, last);
  }

  // ---------------------------------------------------------------- one agent at a time

  /** Such runs meet the condition, so a phase walked one agent at a time lands as one batch, even though its agents
      report their own tasks as done before their completions are handled. */
  lemma {:induction false} OneAtATimeBatches(s: State, scope: seq<Task>, names: map<Task, Branch>, ops: seq<Op>)
    requires Orderly(s, scope, names, ops) && Complete(s, scope, ops) && OneAtATime(s, scope, ops)
    ensures PendingUntilLast(s, scope, ops)
    ensures var l, op := LedgerOf(s, scope, ops[..|ops| - 1]), ops[|ops| - 1];
            op.id < |l.rows| && OneBatch(s, Run(s, ops), scope, names, l.finished, l.rows[op.id].task)
  {
    forall k | 0 <= k < |ops| - 1 ensures !BoundaryStep(s, scope, ops, k) {
      if ops[k].Finish? {
        StillPending(s, scope, names, ops, k);
      }
    }
    BatchesExactly(s, scope, names, ops);
  }

  // ---------------------------------------------------------------- where batching fails

  /** Then each completion is a boundary of its own: the branches land alone, each with its own CI trigger. */
  lemma {:induction false} EarlyReportsSplitBatch(s: State, w: World, a: Task, b: Task, names: map<Task, Branch>)
    requires a in names && b in names && GoodStart(s, [a, b], names) && SharesBoundary(w, [a, b]) && AllGoesWell(w)
    ensures var n := |s.agents|;
            var ops := BothReport(a, b, names) + [Finish(n, w)] + [Finish(n + 1, w)];
            && Orderly(s, [a, b], names, ops) && Complete(s, [a, b], ops)
            && Run(s, ops).trunk == s.trunk + [names[a], names[b]]
            && Run(s, ops).pushes == s.pushes + [|s.trunk| + 1, |s.trunk| + 2]
  {
    FirstLandsAlone(s, w, a, b, names);
    BothLandAlone(s, w, a, b, names, BothReport(a, b, names) + [Finish(|s.agents|, w)]);
  }
}
