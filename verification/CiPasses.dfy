/** The passes of CiRecords, interleaved row by row, beside one another and beside pushes (server-rs/src/ci.rs, the
    spawned poller and backfills and the unconditional row update). */
module CiPasses {
  import opened Util
  import opened CiRecords
  import opened CiSteps

  // ---------------------------------------------------------------- failure events

  /** In every interleaving each failing run is observed at most once per agent: the check and the insert are one
      statement. */
  lemma {:induction false} EventsAtMostOnceInterleaved(s: System, steps: seq<Step>)
    requires AtMostOnce(s.db.events)
    ensures AtMostOnce(After(s, steps).db.events)
    decreases |steps|
  {
    if steps != [] {
      EventsAtMostOnceInterleaved(s, steps[..|steps| - 1]);
      StepKeepsOnce(After(s, steps[..|steps| - 1]), steps[|steps| - 1]);
    }
  }

  // ---------------------------------------------------------------- verdicts

  /** Once the aggregate backfill has run, a row in a terminal status is final whatever happens next, if and only
      if no pass is still under way that read the row before its verdict, or re-reads verdicts, and has it still to
      come. */
  lemma {:induction false} VerdictIsFinalExactly(s: System, i: nat)
    requires s.db.backfilled && i < |s.db.rows| && Terminal(s.db.rows[i].status)
    ensures RowStays(s, i) <==> !RewritePending(s, i)
  {
    if RewritePending(s, i) {
      var pid :| pid in s.passes && MayRewrite(s.passes[pid], i);
      var steps := StalePassRewrites(s, pid, i);
      assert After(s, steps).db.rows[i] != s.db.rows[i];
    } else {
      forall steps ensures i < |After(s, steps).db.rows| && After(s, steps).db.rows[i] == s.db.rows[i] {
        NothingRewrites(s, steps, i);
      }
    }
  }

  // ---------------------------------------------------------------- the missing rows

  /** Every interleaving adds exactly those rows: no step removes a row, or moves one to another commit. */
  lemma {:induction false} RowsCounted(s: System, steps: seq<Step>, m: Merge)
    ensures CountRows(After(s, steps).db.rows, m) == CountRows(s.db.rows, m) + RowsAdded(s, steps, m)
  {
    if steps != [] {
      var front, last := steps[..|steps| - 1], steps[|steps| - 1];
      RowsCounted(s, front, m);
      StepCounted(After(s, front), last, m);
    }
  }

  /** The backfill of a commit it found without a row, with any steps of others between its look and its insert: it
      leaves exactly one row for the commit, if and only if none of those steps adds one. */
  lemma {:induction false} FillIsFirstExactly(s: System, pid: Pid, steps: seq<Step>, world: World)
    requires Enabled(s, Check(pid)) && !HasRow(s.db.rows, s.passes[pid].merges[s.passes[pid].next])
    requires forall i :: 0 <= i < |steps| ==> !StepOf(steps[i], pid)
    requires world.answer(s.passes[pid].next).Report?
    ensures var m, t := s.passes[pid].merges[s.passes[pid].next], DoStep(s, Check(pid));
            CountRows(DoStep(After(t, steps), Fill(pid, world)).db.rows, m) == 1
            <==> forall i :: 0 <= i < |steps| ==> !AddsAt(t, steps, i, m)
  {
    var p := s.passes[pid];
    var m, t := p.merges[p.next], DoStep(s, Check(pid));
    OthersLeavePass(t, pid, steps);
    RowsCounted(t, steps, m);
    FillAdds(After(t, steps), pid, world);
    CountZero(s.db.rows, m);
    NoneAdded(t, steps, m);
  }

  // ---------------------------------------------------------------- both happen, from an empty database

  /** A push between the backfill's look and its insert: two rows for one commit. */
  lemma {:induction false} PushDuringFill(m: Merge, world: World)
    requires world.answer(0).Report?
    ensures CountRows(After(Empty, [StartFill(0, [m]), Check(0), Insert(Pushed(m)), Fill(0, world)]).db.rows, m) == 2
  {
    FourSteps(Empty, StartFill(0, [m]), Check(0), Insert(Pushed(m)), Fill(0, world));
    PushThenFill(m, world);
  }

  /** One poller, the one aggregate backfill, and one row that both have read: the backfill has written its verdict and
      is done, and the poller writes over it. */
  lemma {:induction false} PollerOverwritesVerdict(row: CiRun)
    requires row.sha.Some? && !Terminal(row.status)
    ensures var bad, good := Says(row.plan, "failure"), Says(row.plan, "success");
            var front := [Insert(row), StartPoll(0), StartAggregates(1), AggregateRow(1, bad)] + [EndAggregates(1)];
            var s, t := After(Empty, front), After(Empty, front + [PollRow(0, good)]);
            && s.db.backfilled && s.passes == map[0 := Polling([row], 0)]
            && |s.db.rows| == 1 && s.db.rows[0].status == Failure
            && |t.db.rows| == 1 && t.db.rows[0].status == Success
  {
    var bad, good := Says(row.plan, "failure"), Says(row.plan, "success");
    var four := [Insert(row), StartPoll(0), StartAggregates(1), AggregateRow(1, bad)];
    FourSteps(Empty, Insert(row), StartPoll(0), StartAggregates(1), AggregateRow(1, bad));
    OneMore(Empty, four, EndAggregates(1));
    OneMore(Empty, four + [EndAggregates(1)], PollRow(0, good));
    BothRead(row);
    var read := BothReading(row);
    VerdictWritten(row, read);
  }
}
