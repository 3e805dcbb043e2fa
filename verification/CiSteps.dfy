/** The passes over CI rows, interleaved row by row: what a pass under way still has to come, the steps of polls,
    backfills, pushes and others, and every interleaving of them. What one step does to the events on file, to a row
    in a terminal status, and to the number of rows of a commit; and the runs in which a pass writes what it read
    before. CiPasses says what follows (server-rs/src/ci.rs). */
module CiSteps {
  import opened Util
  import opened CiRecords

  type Pid = nat

  /** A pass, what it read, and where it is. The missing-row backfill first looks whether the commit has a row,
      then asks, then inserts. */
  datatype Pass =
    | Polling(snapshot: seq<CiRun>, next: nat)
    | Aggregating(snapshot: seq<CiRun>, next: nat)
    | Filling(merges: seq<Merge>, next: nat, missing: bool)

  datatype System = System(db: State, passes: map<Pid, Pass>)

  datatype Step =
    | StartPoll(pid: Pid)
    | PollRow(pid: Pid, world: World)
    | StartAggregates(pid: Pid)
    | AggregateRow(pid: Pid, world: World)
    | EndAggregates(pid: Pid)
    | StartFill(pid: Pid, merges: seq<Merge>)
    | Check(pid: Pid)
    | Fill(pid: Pid, world: World)
    | Insert(row: CiRun)                   // a push, or a row entered by hand
    | ChangeAgents(agents: seq<Agent>)

  predicate Enabled(s: System, step: Step) {
    match step
    case StartPoll(pid) => pid !in s.passes
    case PollRow(pid, _) => pid in s.passes && s.passes[pid].Polling? && AtRow(s, s.passes[pid])
    case StartAggregates(pid) => pid !in s.passes && !s.db.backfilled
    case AggregateRow(pid, _) => pid in s.passes && s.passes[pid].Aggregating? && AtRow(s, s.passes[pid])
    case EndAggregates(pid) =>
      pid in s.passes && s.passes[pid].Aggregating? && s.passes[pid].next >= |s.passes[pid].snapshot|
    case StartFill(pid, _) => pid !in s.passes
    case Check(pid) => pid in s.passes && AtMerge(s.passes[pid]) && !s.passes[pid].missing
    case Fill(pid, _) => pid in s.passes && AtMerge(s.passes[pid]) && s.passes[pid].missing
    case Insert(_) => true
    case ChangeAgents(_) => true
  }

  /** Rows are never removed, so every row of a snapshot is still there. */
  predicate AtRow(s: System, pass: Pass)
    requires !pass.Filling?
  {
    pass.next < |pass.snapshot| && pass.next < |s.db.rows|
  }

  /** The pass, at row k. */
  function At(pass: Pass, k: nat): Pass
    requires !pass.Filling?
  {
    if pass.Polling? then Polling(pass.snapshot, k) else Aggregating(pass.snapshot, k)
  }

  predicate AtMerge(pass: Pass) {
    pass.Filling? && pass.next < |pass.merges|
  }

  /** `update_row` writes four columns, whatever is in them now. */
  function Overwrite(current: CiRun, r: CiRun): CiRun {
    current.(status := r.status, conclusion := r.conclusion, runId := r.runId, url := r.url)
  }

  function UpdateRow(s: State, i: nat, r: CiRun): State
    requires i < |s.rows|
  {
    s.(rows := s.rows[i := Overwrite(s.rows[i], r)])
  }

  function DoPollRow(s: State, world: World, i: nat, row: CiRun): State
    requires i < |s.rows|
  {
    var r := PolledRow(world, i, row);
    ObserveIf(if r.status == row.status then s else UpdateRow(s, i, r), row, PollObserves(world, i, row))
  }

  function DoAggregateRow(s: State, world: World, i: nat, row: CiRun): State
    requires i < |s.rows|
  {
    var asked := row.sha.Some? && world.answer(i).Report?;
    ObserveIf(if asked then UpdateRow(s, i, AggregatedRow(world, i, row)) else s, row, AggregateObserves(world, i, row))
  }

  function DoFill(s: State, world: World, i: nat, m: Merge): State {
    if !world.answer(i).Report? then s
    else
      var row := NewRow(world, m, world.answer(i).agg);
      ObserveIf(s.(rows := s.rows + [row]), row, FailedRun(world.answer(i).agg))
  }

  function DoStep(s: System, step: Step): System {
    if !Enabled(s, step) then s
    else
      match step
      case StartPoll(pid) => s.(passes := s.passes[pid := Polling(s.db.rows, 0)])
      case PollRow(pid, w) =>
        var p := s.passes[pid];
        System(DoPollRow(s.db, w, p.next, p.snapshot[p.next]), s.passes[pid := At(p, p.next + 1)])
      case StartAggregates(pid) => s.(passes := s.passes[pid := Aggregating(s.db.rows, 0)])
      case AggregateRow(pid, w) =>
        var p := s.passes[pid];
        System(DoAggregateRow(s.db, w, p.next, p.snapshot[p.next]), s.passes[pid := At(p, p.next + 1)])
      case EndAggregates(pid) => System(s.db.(backfilled := true), s.passes - {pid})
      case StartFill(pid, merges) => s.(passes := s.passes[pid := Filling(merges, 0, false)])
      case Check(pid) =>
        var p := s.passes[pid];
        s.(passes := s.passes[pid := if HasRow(s.db.rows, p.merges[p.next]) then Filling(p.merges, p.next + 1, false)
                                     else Filling(p.merges, p.next, true)])
      case Fill(pid, w) =>
        var p := s.passes[pid];
        System(DoFill(s.db, w, p.next, p.merges[p.next]), s.passes[pid := Filling(p.merges, p.next + 1, false)])
      case Insert(row) => s.(db := s.db.(rows := s.db.rows + [row]))
      case ChangeAgents(agents) => s.(db := s.db.(agents := agents))
  }

  /** The state after an arbitrary interleaving. */
  function After(s: System, steps: seq<Step>): System {
    if steps == [] then s else DoStep(After(s, steps[..|steps| - 1]), steps[|steps| - 1])
  }

  // ---------------------------------------------------------------- failure events

  lemma {:induction false} StepKeepsOnce(s: System, step: Step)
    requires AtMostOnce(s.db.events)
    ensures AtMostOnce(DoStep(s, step).db.events)
  {
    if Enabled(s, step) {
      match step
      case PollRow(pid, w) => PollKeepsOnce(s.db, w, s.passes[pid].next, s.passes[pid].snapshot[s.passes[pid].next]);
      case AggregateRow(pid, w) =>
        AggregateKeepsOnce(s.db, w, s.passes[pid].next, s.passes[pid].snapshot[s.passes[pid].next]);
      case Fill(pid, w) => FillKeepsOnce(s.db, w, s.passes[pid].next, s.passes[pid].merges[s.passes[pid].next]);
      case _ =>
    }
  }

  lemma {:induction false} PollKeepsOnce(s: State, world: World, i: nat, row: CiRun)
    requires i < |s.rows| && AtMostOnce(s.events)
    ensures AtMostOnce(DoPollRow(s, world, i, row).events)
  {
    var r := PolledRow(world, i, row);
    ObservedAtMostOnce(if r.status == row.status then s else UpdateRow(s, i, r), row, PollObserves(world, i, row));
  }

  lemma {:induction false} AggregateKeepsOnce(s: State, world: World, i: nat, row: CiRun)
    requires i < |s.rows| && AtMostOnce(s.events)
    ensures AtMostOnce(DoAggregateRow(s, world, i, row).events)
  {
    var asked := row.sha.Some? && world.answer(i).Report?;
    ObservedAtMostOnce(if asked then UpdateRow(s, i, AggregatedRow(world, i, row)) else s, row,
                       AggregateObserves(world, i, row));
  }

  lemma {:induction false} FillKeepsOnce(s: State, world: World, i: nat, m: Merge)
    requires AtMostOnce(s.events)
    ensures AtMostOnce(DoFill(s, world, i, m).events)
  {
    if world.answer(i).Report? {
      var row := NewRow(world, m, world.answer(i).agg);
      ObservedAtMostOnce(s.(rows := s.rows + [row]), row, FailedRun(world.answer(i).agg));
    }
  }

  // ---------------------------------------------------------------- verdicts

  /** The pass has row i still to come, and read it in a state in which it may rewrite it. */
  predicate MayRewrite(pass: Pass, i: nat) {
    !pass.Filling? && pass.next <= i < |pass.snapshot| && pass.snapshot[i].sha.Some?
    && (pass.Polling? ==> !Terminal(pass.snapshot[i].status))
  }

  ghost predicate RewritePending(s: System, i: nat) {
    exists pid :: pid in s.passes && MayRewrite(s.passes[pid], i)
  }

  ghost predicate RowStays(s: System, i: nat)
    requires i < |s.db.rows|
  {
    forall steps :: i < |After(s, steps).db.rows| && After(s, steps).db.rows[i] == s.db.rows[i]
  }

  lemma {:induction false} NothingRewrites(s: System, steps: seq<Step>, i: nat)
    requires s.db.backfilled && i < |s.db.rows| && Terminal(s.db.rows[i].status) && !RewritePending(s, i)
    ensures var r := After(s, steps);
            r.db.backfilled && i < |r.db.rows| && r.db.rows[i] == s.db.rows[i] && !RewritePending(r, i)
    decreases |steps|
  {
    if steps != [] {
      NothingRewrites(s, steps[..|steps| - 1], i);
      StepLeavesRow(After(s, steps[..|steps| - 1]), steps[|steps| - 1], i);
    }
  }

  lemma {:induction false} StepLeavesRow(s: System, step: Step, i: nat)
    requires s.db.backfilled && i < |s.db.rows| && Terminal(s.db.rows[i].status) && !RewritePending(s, i)
    ensures var r := DoStep(s, step);
            r.db.backfilled && i < |r.db.rows| && r.db.rows[i] == s.db.rows[i] && !RewritePending(r, i)
  {
    var r := DoStep(s, step);
    if Enabled(s, step) && (step.PollRow? || step.AggregateRow?) {
      assert !MayRewrite(s.passes[step.pid], i);
    }
    forall pid | pid in r.passes ensures !MayRewrite(r.passes[pid], i) {
      assert pid in s.passes ==> !MayRewrite(s.passes[pid], i);
    }
  }

  lemma {:induction false} OneMore(s: System, steps: seq<Step>, step: Step)
    ensures After(s, steps + [step]) == DoStep(After(s, steps), step)
  {
    assert (steps + [step])[..|steps|] == steps;
  }

  lemma {:induction false} OneStep(s: System, step: Step)
    ensures After(s, [step]) == DoStep(s, step)
  {
    assert [step][..0] == [];
  }

  /** A world in which every lookup fails. */
  const Silent := World(map[], _ => 0, _ => Offline, (_, _) => None)

  /** A world in which every lookup reports the given conclusion. */
  function Says(plan: string, conclusion: string): World {
    World(map[plan := ""], _ => 0, _ => Report(Aggregate("completed", Some(conclusion), None)), (_, _) => None)
  }

  /** The pass goes on to row i while every lookup fails. */
  lemma {:induction false} PassReaches(s: System, pid: Pid, i: nat, k: nat) returns (steps: seq<Step>)
    requires pid in s.passes && MayRewrite(s.passes[pid], i) && i < |s.db.rows| && s.passes[pid].next <= k <= i
    ensures var r := After(s, steps);
            r.db == s.db && pid in r.passes && r.passes[pid] == At(s.passes[pid], k)
  {
    var p := s.passes[pid];
    if k == p.next {
      steps := [];
    } else {
      var before := PassReaches(s, pid, i, k - 1);
      var step := if p.Polling? then PollRow(pid, Silent) else AggregateRow(pid, Silent);
      OneMore(s, before, step);
      steps := before + [step];
      assert PolledRow(Silent, k - 1, p.snapshot[k - 1]) == p.snapshot[k - 1];
    }
  }

  /** A lookup with a verdict other than the row's then rewrites it. */
  lemma {:induction false} StalePassRewrites(s: System, pid: Pid, i: nat) returns (steps: seq<Step>)
    requires pid in s.passes && MayRewrite(s.passes[pid], i) && i < |s.db.rows|
    ensures i < |After(s, steps).db.rows| && After(s, steps).db.rows[i] != s.db.rows[i]
  {
    var p, current := s.passes[pid], s.db.rows[i];
    var before := PassReaches(s, pid, i, i);
    var conclusion, verdict := "success", Success;
    if current.status == Success {
      conclusion, verdict := "failure", Failure;
    }
    var w := Says(p.snapshot[i].plan, conclusion);
    VerdictOf(conclusion);
    var step := if p.Polling? then PollRow(pid, w) else AggregateRow(pid, w);
    OneMore(s, before, step);
    steps := before + [step];
    ReportRewrites(s.db, w, i, p.snapshot[i], verdict, p.Polling?);
  }

  lemma {:induction false} ReportRewrites(s: State, world: World, i: nat, row: CiRun, verdict: RunStatus,
                                          polling: bool)
    requires i < |s.rows| && row.sha.Some? && row.plan in world.dirs && world.answer(i).Report?
    requires Normalize(world.answer(i).agg.status, world.answer(i).agg.conclusion) == verdict && Terminal(verdict)
    requires polling ==> !Terminal(row.status)
    ensures var r := if polling then DoPollRow(s, world, i, row) else DoAggregateRow(s, world, i, row);
            i < |r.rows| && r.rows[i].status == verdict
  {
  }

  lemma {:induction false} VerdictOf(conclusion: string)
    requires conclusion == "success" || conclusion == "failure"
    ensures Normalize("completed", Some(conclusion)) == if conclusion == "success" then Success else Failure
  {
    FinalExactlyWhenCompleted("completed", Some(conclusion));
  }

  // ---------------------------------------------------------------- the missing rows

  predicate StepOf(step: Step, pid: Pid) {
    match step
    case Insert(_) => false
    case ChangeAgents(_) => false
    case _ => step.pid == pid
  }

  /** The step adds a row for the commit: a push or an entry by hand, or what another backfill of the same commit
      looked up. */
  predicate AddsRow(s: System, step: Step, m: Merge) {
    match step
    case Insert(row) => Covers(row, m)
    case Fill(pid, w) =>
      Enabled(s, step) && w.answer(s.passes[pid].next).Report?
      && SameCommit(s.passes[pid].merges[s.passes[pid].next], m)
    case _ => false
  }

  predicate AddsAt(s: System, steps: seq<Step>, i: nat, m: Merge)
    requires i < |steps|
  {
    AddsRow(After(s, steps[..i]), steps[i], m)
  }

  /** How many of the steps add a row for the commit. */
  function RowsAdded(s: System, steps: seq<Step>, m: Merge): nat {
    if steps == [] then 0
    else
      var front, last := steps[..|steps| - 1], steps[|steps| - 1];
      RowsAdded(s, front, m) + if AddsRow(After(s, front), last, m) then 1 else 0
  }

  lemma {:induction false} StepCounted(s: System, step: Step, m: Merge)
    ensures CountRows(DoStep(s, step).db.rows, m) == CountRows(s.db.rows, m) + if AddsRow(s, step, m) then 1 else 0
  {
    if Enabled(s, step) {
      match step
      case PollRow(pid, w) => PollCounted(s.db, w, s.passes[pid].next, s.passes[pid].snapshot[s.passes[pid].next], m);
      case AggregateRow(pid, w) =>
        AggregateCounted(s.db, w, s.passes[pid].next, s.passes[pid].snapshot[s.passes[pid].next], m);
      case Fill(pid, w) => FillCounted(s.db, w, s.passes[pid].next, s.passes[pid].merges[s.passes[pid].next], m);
      case Insert(row) => CountOneMore(s.db.rows, row, m);
      case _ =>
    }
  }

  lemma {:induction false} PollCounted(s: State, world: World, i: nat, row: CiRun, m: Merge)
    requires i < |s.rows|
    ensures CountRows(DoPollRow(s, world, i, row).rows, m) == CountRows(s.rows, m)
  {
    OverwriteCounts(s.rows, i, PolledRow(world, i, row), m);
  }

  lemma {:induction false} AggregateCounted(s: State, world: World, i: nat, row: CiRun, m: Merge)
    requires i < |s.rows|
    ensures CountRows(DoAggregateRow(s, world, i, row).rows, m) == CountRows(s.rows, m)
  {
    OverwriteCounts(s.rows, i, AggregatedRow(world, i, row), m);
  }

  lemma {:induction false} FillCounted(s: State, world: World, i: nat, a: Merge, m: Merge)
    ensures CountRows(DoFill(s, world, i, a).rows, m) ==
            CountRows(s.rows, m) + if SameCommit(a, m) && world.answer(i).Report? then 1 else 0
  {
    if world.answer(i).Report? {
      CountOneMore(s.rows, NewRow(world, a, world.answer(i).agg), m);
    }
  }

  lemma {:induction false} OverwriteCounts(rows: seq<CiRun>, i: nat, r: CiRun, m: Merge)
    requires i < |rows|
    ensures CountRows(rows[i := Overwrite(rows[i], r)], m) == CountRows(rows, m)
  {
    var changed := rows[i := Overwrite(rows[i], r)];
    if i < |rows| - 1 {
      OverwriteCounts(rows[..|rows| - 1], i, r, m);
      assert changed[..|rows| - 1] == rows[..|rows| - 1][i := Overwrite(rows[i], r)];
    } else {
      assert changed[..i] == rows[..i];
    }
  }

  lemma {:induction false} OthersLeavePass(s: System, pid: Pid, steps: seq<Step>)
    requires pid in s.passes && forall i :: 0 <= i < |steps| ==> !StepOf(steps[i], pid)
    ensures pid in After(s, steps).passes && After(s, steps).passes[pid] == s.passes[pid]
  {
    if steps != [] {
      OthersLeavePass(s, pid, steps[..|steps| - 1]);
    }
  }

  lemma {:induction false} NoneAdded(s: System, steps: seq<Step>, m: Merge)
    ensures RowsAdded(s, steps, m) == 0 <==> forall i :: 0 <= i < |steps| ==> !AddsAt(s, steps, i, m)
  {
    if steps != [] {
      var n := |steps| - 1;
      NoneAdded(s, steps[..n], m);
      forall i | 0 <= i < n ensures AddsAt(s, steps[..n], i, m) == AddsAt(s, steps, i, m) {
        assert steps[..n][..i] == steps[..i];
      }
      assert AddsAt(s, steps, n, m) == AddsRow(After(s, steps[..n]), steps[n], m);
    }
  }

  // ---------------------------------------------------------------- both happen, from an empty database

  const Empty := System(State([], [], [], false), map[])

  lemma {:induction false} FourSteps(s: System, a: Step, b: Step, c: Step, d: Step)
    ensures After(s, [a, b, c, d]) == DoStep(DoStep(DoStep(DoStep(s, a), b), c), d)
  {
    OneStep(s, a);
    OneMore(s, [a], b);
    OneMore(s, [a, b], c);
    OneMore(s, [a, b, c], d);
    assert [a] + [b] == [a, b] && [a, b] + [c] == [a, b, c] && [a, b, c] + [d] == [a, b, c, d];
  }

  function Pushed(m: Merge): CiRun {
    CiRun(m.plan, m.task, Some(m.sha), m.target, Pending, None, None, None)
  }

  function Looked(m: Merge): System {
    System(State([], [], [], false), map[0 := Filling([m], 0, true)])
  }

  lemma {:induction false} LookFindsNothing(m: Merge)
    ensures DoStep(DoStep(Empty, StartFill(0, [m])), Check(0)) == Looked(m)
  {
  }

  lemma {:induction false} PushThenFill(m: Merge, world: World)
    requires world.answer(0).Report?
    ensures var looked := DoStep(DoStep(Empty, StartFill(0, [m])), Check(0));
            CountRows(DoStep(DoStep(looked, Insert(Pushed(m))), Fill(0, world)).db.rows, m) == 2
  {
    LookFindsNothing(m);
    StepCounted(Looked(m), Insert(Pushed(m)), m);
    FillAdds(DoStep(Looked(m), Insert(Pushed(m))), 0, world);
  }

  lemma {:induction false} FillAdds(s: System, pid: Pid, world: World)
    requires Enabled(s, Fill(pid, world)) && world.answer(s.passes[pid].next).Report?
    ensures var m := s.passes[pid].merges[s.passes[pid].next];
            CountRows(DoStep(s, Fill(pid, world)).db.rows, m) == CountRows(s.db.rows, m) + 1
  {
    StepCounted(s, Fill(pid, world), s.passes[pid].merges[s.passes[pid].next]);
  }

  function BothReading(row: CiRun): System {
    System(State([row], [], [], false), map[0 := Polling([row], 0), 1 := Aggregating([row], 0)])
  }

  lemma {:induction false} BothRead(row: CiRun)
    ensures DoStep(DoStep(DoStep(Empty, Insert(row)), StartPoll(0)), StartAggregates(1)) == BothReading(row)
  {
    assert [] + [row] == [row];
  }

  lemma {:induction false} VerdictWritten(row: CiRun, read: System)
    requires row.sha.Some? && !Terminal(row.status) && read == BothReading(row)
    ensures var s := DoStep(DoStep(read, AggregateRow(1, Says(row.plan, "failure"))), EndAggregates(1));
            var t := DoStep(s, PollRow(0, Says(row.plan, "success")));
            && s.db.backfilled && s.passes == map[0 := Polling([row], 0)]
            && |s.db.rows| == 1 && s.db.rows[0].status == Failure
            && |t.db.rows| == 1 && t.db.rows[0].status == Success
  {
    var bad, good := Says(row.plan, "failure"), Says(row.plan, "success");
    VerdictOf("failure");
    VerdictOf("success");
    ReportRewrites(read.db, bad, 0, row, Failure, false);
    var done := DoStep(read, AggregateRow(1, bad));
    assert done.passes == map[0 := Polling([row], 0), 1 := Aggregating([row], 1)];
    var s := DoStep(done, EndAggregates(1));
    assert s.passes == map[0 := Polling([row], 0)];
    ReportRewrites(s.db, good, 0, row, Success, true);
  }
}
