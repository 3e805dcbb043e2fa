/** What the passes over CI rows leave behind: the rows of both backfills, and what failure events say
    (server-rs/src/ci.rs). */
module CiOutcomes {
  import opened Util
  import opened CiRecords
  import opened CiEvents

  // ---------------------------------------------------------------- what an event says

  /** A poll files an event for an agent and a run exactly when some open row with a commit, of a known project, got a
      report of a failure with that run, and the agent was the last to start of those at work on its branch: no failure
      with a known author is missed, and nothing else is recorded. */
  lemma {:induction false} PollObservesExactly(s: State, world: World, agent: nat, run: string)
    ensures OnFile(Polled(s, world, |s.rows|).events, agent, run) <==>
            OnFile(s.events, agent, run) || exists i :: 0 <= i < |s.rows| && SeenAt(s, world, i, agent, run)
  {
    var after := Polled(s, world, |s.rows|).events;
    if OnFile(s.events, agent, run) {
      PollKeepsEvents(s, world, 0, |s.rows|);
      OnFileStays(s.events, after, agent, run);
    } else if i :| 0 <= i < |s.rows| && SeenAt(s, world, i, agent, run) {
      PollOnFile(s, world, i, agent, run);
      PollKeepsEvents(s, world, i + 1, |s.rows|);
      OnFileStays(Polled(s, world, i + 1).events, after, agent, run);
    } else if OnFile(after, agent, run) {
      var e := NewEvent(s.events, after, agent, run);
      var j := PollEventsName(s, world, |s.rows|, e);
    }
  }

  // ---------------------------------------------------------------- the backfill of aggregates

  /** Every row with a commit whose lookup reports carries that verdict, open or not; no other row changes. */
  lemma {:induction false} AggregatesRewriteExactly(s: State, world: World, i: nat)
    requires i < |s.rows|
    ensures var row, after := s.rows[i], Aggregated(s, world, |s.rows|).rows[i];
            if row.sha.Some? && world.answer(i).Report? then Carries(world, row, world.answer(i).agg, after)
            else after == row
  {
    if world.answer(i).Report? {
      VerdictCarries(world, s.rows[i], world.answer(i).agg);
    }
  }

  /** An event is on file after the pass exactly when it was before, or some row's lookup reports that failure. */
  lemma {:induction false} AggregatesObserveExactly(s: State, world: World, agent: nat, run: string)
    ensures OnFile(Aggregated(s, world, |s.rows|).events, agent, run) <==>
            OnFile(s.events, agent, run) || exists i :: 0 <= i < |s.rows| && FailedAt(s, world, i, agent, run)
  {
    var after := Aggregated(s, world, |s.rows|).events;
    if OnFile(s.events, agent, run) {
      AggregatesKeepEvents(s, world, 0, |s.rows|);
      OnFileStays(s.events, after, agent, run);
    } else if i :| 0 <= i < |s.rows| && FailedAt(s, world, i, agent, run) {
      AggregateOnFile(s, world, i, agent, run);
      AggregatesKeepEvents(s, world, i + 1, |s.rows|);
      OnFileStays(Aggregated(s, world, i + 1).events, after, agent, run);
    } else if OnFile(after, agent, run) {
      var e := NewEvent(s.events, after, agent, run);
      var j := AggregateEventsName(s, world, |s.rows|, e);
    }
  }

  /** The pass is made once per database: its flag is set exactly when it was set before or the pass has run, and then
      another pass changes nothing. */
  lemma {:induction false} AggregatedOnce(s: State, ops: seq<Op>, world: World)
    ensures Run(s, ops).backfilled <==> s.backfilled || exists i :: 0 <= i < |ops| && ops[i].Aggregates?
    ensures Run(s, ops).backfilled ==> Run(s, ops + [Aggregates(world)]) == Run(s, ops)
  {
    assert (ops + [Aggregates(world)])[..|ops|] == ops;
    if ops != [] {
      var front, last := ops[..|ops| - 1], ops[|ops| - 1];
      AggregatedOnce(s, front, world);
      assert ops == front + [last];
      if last.Missing? {
        BackfillKeepsRows(Run(s, front), last.world, last.merges, |last.merges|);
      }
    }
  }

  // ---------------------------------------------------------------- the backfill of missing rows

  /** The rows after the pass are the old ones and new ones, each for the first reported merge of a commit without a
      row, with the merge's target as its branch and the verdict of the report. */
  lemma {:induction false} MissingRowsExactly(s: State, world: World, merges: seq<Merge>, n: nat, k: nat)
    returns (i: nat)
    requires n <= |merges| && |s.rows| <= k < |Backfilled(s, world, merges, n).rows|
    ensures s.rows <= Backfilled(s, world, merges, n).rows
    ensures i < n && EnteredFor(s, world, merges, i, Backfilled(s, world, merges, n).rows[k])
  {
    BackfillKeepsRows(s, world, merges, n);
    NextMerge(s, world, merges, n - 1);
    if k < |Backfilled(s, world, merges, n - 1).rows| {
      i := MissingRowsExactly(s, world, merges, n - 1, k);
    } else {
      i := n - 1;
    }
  }

  /** And every such merge has its row. */
  lemma {:induction false} MissingRowEntered(s: State, world: World, merges: seq<Merge>, n: nat, i: nat)
    returns (k: nat)
    requires i < n <= |merges| && FirstReported(s, world, merges, i)
    ensures var rows := Backfilled(s, world, merges, n).rows;
            |s.rows| <= k < |rows| && Carries(world, Blank(merges[i]), world.answer(i).agg, rows[k])
  {
    NextMerge(s, world, merges, n - 1);
    if i < n - 1 {
      k := MissingRowEntered(s, world, merges, n - 1, i);
    } else {
      k := |Backfilled(s, world, merges, n - 1).rows|;
      BackfillKeepsRows(s, world, merges, n - 1);
    }
  }

  /** Its events: those on file before, and one for each such failure. */
  lemma {:induction false} MissingObserveExactly(s: State, world: World, merges: seq<Merge>, agent: nat, run: string)
    ensures OnFile(Backfilled(s, world, merges, |merges|).events, agent, run) <==>
            OnFile(s.events, agent, run) || exists i :: 0 <= i < |merges| && FilledAt(s, world, merges, i, agent, run)
  {
    var after := Backfilled(s, world, merges, |merges|).events;
    if OnFile(s.events, agent, run) {
      MissingKeepsEvents(s, world, merges, 0, |merges|);
      OnFileStays(s.events, after, agent, run);
    } else if i :| 0 <= i < |merges| && FilledAt(s, world, merges, i, agent, run) {
      MissingOnFile(s, world, merges, i, agent, run);
      MissingKeepsEvents(s, world, merges, i + 1, |merges|);
      OnFileStays(Backfilled(s, world, merges, i + 1).events, after, agent, run);
    } else if OnFile(after, agent, run) {
      var e := NewEvent(s.events, after, agent, run);
      var j := MissingEventsName(s, world, merges, |merges|, e);
    }
  }
}
