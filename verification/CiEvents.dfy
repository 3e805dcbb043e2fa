/** The failure events of the passes over CI rows. When a report is a failure and who is at work on a branch, stated
    without the functions of CiRecords; that an observation files an event exactly then, names plan, task and
    branch, and keeps what is on file; and which row or audited merge each new event of a pass comes from. The laws
    of the passes themselves are in CiOutcomes (server-rs/src/ci.rs). */
module CiEvents {
  import opened Util
  import opened CiRecords

  // ---------------------------------------------------------------- when an event is filed

  /** The report on row i, open and of a known project, is a failure with that run, and the agent the most recently
      started of those at work on the row's branch. */
  ghost predicate SeenAt(s: State, world: World, i: nat, agent: nat, run: string)
    requires i < |s.rows|
  {
    var row := s.rows[i];
    && (row.status.Pending? || row.status.Running?) && row.sha.Some? && row.plan in world.dirs
    && ReportsFailure(world.answer(i), run) && WorksOn(s.agents, agent, row.plan, row.branch)
  }

  ghost predicate ReportsFailure(answer: Answer, run: string) {
    && answer.Report? && answer.agg.status == "completed" && Breaks(answer.agg.conclusion)
    && answer.agg.failingRun == Some(run)
  }

  ghost predicate WorksOn(agents: seq<Agent>, agent: nat, plan: string, branch: Option<string>) {
    && branch.Some? && agent < |agents| && agents[agent] == Agent(plan, branch, true)
    && forall j :: agent < j < |agents| ==> agents[j] != Agent(plan, branch, true)
  }

  lemma {:induction false} FailedRunExactly(answer: Answer, run: string)
    ensures answer.Report? && FailedRun(answer.agg) == Some(run) <==> ReportsFailure(answer, run)
  {
    if answer.Report? {
      ReadsExactly(answer.agg.status, answer.agg.conclusion, Failure);
    }
  }

  lemma {:induction false} OwnerExactly(agents: seq<Agent>, agent: nat, plan: string, branch: Option<string>)
    ensures branch.Some? && LiveOwner(agents, plan, branch.value) == Some(agent) <==>
            WorksOn(agents, agent, plan, branch)
  {
    if WorksOn(agents, agent, plan, branch) {
      assert Owns(agents[agent], plan, branch.value);
    }
  }

  lemma {:induction false} SeenExactly(s: State, world: World, i: nat, agent: nat, run: string)
    requires i < |s.rows|
    ensures SeenAt(s, world, i, agent, run) <==>
            && PollObserves(world, i, s.rows[i]) == Some(run)
            && s.rows[i].branch.Some? && LiveOwner(s.agents, s.rows[i].plan, s.rows[i].branch.value) == Some(agent)
  {
    FailedRunExactly(world.answer(i), run);
    OwnerExactly(s.agents, agent, s.rows[i].plan, s.rows[i].branch);
  }

  lemma {:induction false} ObservedExactly(s: State, row: CiRun, seen: Option<string>, agent: nat, run: string)
    ensures OnFile(ObserveIf(s, row, seen).events, agent, run) <==>
            || OnFile(s.events, agent, run)
            || (seen == Some(run) && row.branch.Some? && LiveOwner(s.agents, row.plan, row.branch.value) == Some(agent))
  {
    var r := ObserveIf(s, row, seen);
    if OnFile(s.events, agent, run) {
      var i :| 0 <= i < |s.events| && s.events[i].agent == agent && s.events[i].run == run;
      assert r.events[i] == s.events[i];
    }
    if |r.events| > |s.events| {
      assert r.events[|s.events|].run == seen.value;
    }
  }

  lemma {:induction false} ObservingKeeps(s: State, row: CiRun, seen: Option<string>)
    ensures s.events <= ObserveIf(s, row, seen).events
  {
  }

  lemma {:induction false} OnFileStays(before: seq<Event>, after: seq<Event>, agent: nat, run: string)
    requires before <= after && OnFile(before, agent, run)
    ensures OnFile(after, agent, run)
  {
    var i :| 0 <= i < |before| && before[i].agent == agent && before[i].run == run;
    assert after[i] == before[i];
  }

  lemma {:induction false} NewEvent(before: seq<Event>, after: seq<Event>, agent: nat, run: string) returns (e: Event)
    requires OnFile(after, agent, run) && !OnFile(before, agent, run)
    ensures e in after && e !in before && e.agent == agent && e.run == run
  {
    var i :| 0 <= i < |after| && after[i].agent == agent && after[i].run == run;
    e := after[i];
  }

  // ---------------------------------------------------------------- what an event says

  /** The event is about this plan, task and branch. */
  predicate About(e: Event, plan: string, task: string, branch: Option<string>) {
    e.plan == plan && e.task == task && branch == Some(e.branch)
  }

  lemma {:induction false} ObservationNames(s: State, row: CiRun, seen: Option<string>)
    ensures var r := ObserveIf(s, row, seen);
            forall e :: e in r.events ==>
              e in s.events
              || (About(e, row.plan, row.task, row.branch) && seen == Some(e.run)
                  && WorksOn(s.agents, e.agent, row.plan, row.branch))
  {
    var r := ObserveIf(s, row, seen);
    if |r.events| > |s.events| {
      OwnerExactly(s.agents, r.events[|s.events|].agent, row.plan, row.branch);
    }
  }

  /** Row i is the one the poll filed the event for. */
  ghost predicate PolledFor(s: State, world: World, i: nat, e: Event)
    requires i < |s.rows|
  {
    SeenAt(s, world, i, e.agent, e.run) && About(e, s.rows[i].plan, s.rows[i].task, s.rows[i].branch)
  }

  /** A new event of a poll names the plan, task and branch of a row whose failure it is. */
  lemma {:induction false} PollEventsName(s: State, world: World, n: nat, e: Event) returns (i: nat)
    requires n <= |s.rows| && e in Polled(s, world, n).events && e !in s.events
    ensures i < n && PolledFor(s, world, i, e)
  {
    var t := Polled(s, world, n - 1);
    if e in t.events {
      i := PollEventsName(s, world, n - 1, e);
    } else {
      i := n - 1;
      var row := s.rows[i];
      ObservationNames(t.(rows := t.rows[i := PolledRow(world, i, row)]), row, PollObserves(world, i, row));
      SeenExactly(s, world, i, e.agent, e.run);
      OwnerExactly(s.agents, e.agent, row.plan, row.branch);
    }
  }

  lemma {:induction false} PollOnFile(s: State, world: World, i: nat, agent: nat, run: string)
    requires i < |s.rows| && SeenAt(s, world, i, agent, run)
    ensures OnFile(Polled(s, world, i + 1).events, agent, run)
  {
    var t, row := Polled(s, world, i), s.rows[i];
    SeenExactly(s, world, i, agent, run);
    ObservedExactly(t.(rows := t.rows[i := PolledRow(world, i, row)]), row, PollObserves(world, i, row), agent, run);
  }

  lemma {:induction false} PollKeepsEvents(s: State, world: World, m: nat, n: nat)
    requires m <= n <= |s.rows|
    ensures Polled(s, world, m).events <= Polled(s, world, n).events
  {
    if m < n {
      PollKeepsEvents(s, world, m, n - 1);
      var t, row := Polled(s, world, n - 1), s.rows[n - 1];
      ObservingKeeps(t.(rows := t.rows[n - 1 := PolledRow(world, n - 1, row)]), row, PollObserves(world, n - 1, row));
    }
  }

  // ---------------------------------------------------------------- the backfill of aggregates

  /** The lookup of row i reports a failure with that run, and the agent is at work on the row's branch. */
  ghost predicate FailedAt(s: State, world: World, i: nat, agent: nat, run: string)
    requires i < |s.rows|
  {
    && s.rows[i].sha.Some? && ReportsFailure(world.answer(i), run)
    && WorksOn(s.agents, agent, s.rows[i].plan, s.rows[i].branch)
  }

  lemma {:induction false} FailedExactly(s: State, world: World, i: nat, agent: nat, run: string)
    requires i < |s.rows|
    ensures var row := s.rows[i];
            FailedAt(s, world, i, agent, run) <==>
            && AggregateObserves(world, i, row) == Some(run)
            && row.branch.Some? && LiveOwner(s.agents, row.plan, row.branch.value) == Some(agent)
  {
    FailedRunExactly(world.answer(i), run);
    OwnerExactly(s.agents, agent, s.rows[i].plan, s.rows[i].branch);
  }

  ghost predicate RewrittenFor(s: State, world: World, i: nat, e: Event)
    requires i < |s.rows|
  {
    FailedAt(s, world, i, e.agent, e.run) && About(e, s.rows[i].plan, s.rows[i].task, s.rows[i].branch)
  }

  /** And a new one names the plan, task and branch of such a row. */
  lemma {:induction false} AggregateEventsName(s: State, world: World, n: nat, e: Event) returns (i: nat)
    requires n <= |s.rows| && e in Aggregated(s, world, n).events && e !in s.events
    ensures i < n && RewrittenFor(s, world, i, e)
  {
    var t := Aggregated(s, world, n - 1);
    if e in t.events {
      i := AggregateEventsName(s, world, n - 1, e);
    } else {
      i := n - 1;
      var row := s.rows[i];
      ObservationNames(t.(rows := t.rows[i := AggregatedRow(world, i, row)]), row, AggregateObserves(world, i, row));
      FailedExactly(s, world, i, e.agent, e.run);
      OwnerExactly(s.agents, e.agent, row.plan, row.branch);
    }
  }

  lemma {:induction false} AggregateOnFile(s: State, world: World, i: nat, agent: nat, run: string)
    requires i < |s.rows| && FailedAt(s, world, i, agent, run)
    ensures OnFile(Aggregated(s, world, i + 1).events, agent, run)
  {
    var t, row := Aggregated(s, world, i), s.rows[i];
    FailedExactly(s, world, i, agent, run);
    ObservedExactly(t.(rows := t.rows[i := AggregatedRow(world, i, row)]), row, AggregateObserves(world, i, row), agent,
                    run);
  }

  lemma {:induction false} AggregatesKeepEvents(s: State, world: World, m: nat, n: nat)
    requires m <= n <= |s.rows|
    ensures Aggregated(s, world, m).events <= Aggregated(s, world, n).events
  {
    if m < n {
      AggregatesKeepEvents(s, world, m, n - 1);
      var t, row := Aggregated(s, world, n - 1), s.rows[n - 1];
      ObservingKeeps(t.(rows := t.rows[n - 1 := AggregatedRow(world, n - 1, row)]), row,
                     AggregateObserves(world, n - 1, row));
    }
  }

  // ---------------------------------------------------------------- the backfill of missing rows

  /** A row as entered, before any verdict. */
  function Blank(m: Merge): CiRun {
    CiRun(m.plan, m.task, Some(m.sha), m.target, Pending, None, None, None)
  }

  /** The i-th audited merge is the first of its commit whose lookup reports, and the commit had no row. */
  ghost predicate FirstReported(s: State, world: World, merges: seq<Merge>, i: nat)
    requires i < |merges|
  {
    && !HasRow(s.rows, merges[i]) && world.answer(i).Report?
    && forall j :: 0 <= j < i && world.answer(j).Report? ==> !SameCommit(merges[j], merges[i])
  }

  lemma {:induction false} TurnsExactly(s: State, world: World, merges: seq<Merge>, i: nat)
    requires i < |merges|
    ensures FirstReported(s, world, merges, i) <==>
            !HasRow(Backfilled(s, world, merges, i).rows, merges[i]) && world.answer(i).Report?
  {
    var t := Backfilled(s, world, merges, i);
    BackfillGainsExactly(s, world, merges, i, merges[i]);
    CountZero(t.rows, merges[i]);
    CountZero(s.rows, merges[i]);
  }

  /** The next audited merge: its row, if it is its turn. */
  lemma {:induction false} NextMerge(s: State, world: World, merges: seq<Merge>, n: nat)
    requires n < |merges|
    ensures var t, r := Backfilled(s, world, merges, n), Backfilled(s, world, merges, n + 1);
            r.rows == if FirstReported(s, world, merges, n)
                      then t.rows + [NewRow(world, merges[n], world.answer(n).agg)] else t.rows
    ensures FirstReported(s, world, merges, n) ==>
              Carries(world, Blank(merges[n]), world.answer(n).agg, NewRow(world, merges[n], world.answer(n).agg))
  {
    TurnsExactly(s, world, merges, n);
    if world.answer(n).Report? {
      VerdictCarries(world, Blank(merges[n]), world.answer(n).agg);
    }
  }

  /** Merge i accounts for the row. */
  ghost predicate EnteredFor(s: State, world: World, merges: seq<Merge>, i: nat, row: CiRun)
    requires i < |merges|
  {
    FirstReported(s, world, merges, i) && Carries(world, Blank(merges[i]), world.answer(i).agg, row)
  }

  /** The i-th merge gets a row, and its lookup reports a failure with that run on a branch the agent is at work on. */
  ghost predicate FilledAt(s: State, world: World, merges: seq<Merge>, i: nat, agent: nat, run: string)
    requires i < |merges|
  {
    && FirstReported(s, world, merges, i) && ReportsFailure(world.answer(i), run)
    && WorksOn(s.agents, agent, merges[i].plan, merges[i].target)
  }

  /** What the pass observes at its n-th merge. */
  function Observes(s: State, world: World, merges: seq<Merge>, n: nat): Option<string>
    requires n < |merges|
  {
    if HasRow(Backfilled(s, world, merges, n).rows, merges[n]) || !world.answer(n).Report? then None
    else FailedRun(world.answer(n).agg)
  }

  lemma {:induction false} FilledExactly(s: State, world: World, merges: seq<Merge>, i: nat, agent: nat, run: string)
    requires i < |merges|
    ensures var m := merges[i];
            FilledAt(s, world, merges, i, agent, run) <==>
            && Observes(s, world, merges, i) == Some(run)
            && m.target.Some? && LiveOwner(s.agents, m.plan, m.target.value) == Some(agent)
  {
    TurnsExactly(s, world, merges, i);
    FailedRunExactly(world.answer(i), run);
    OwnerExactly(s.agents, agent, merges[i].plan, merges[i].target);
  }

  /** The events of the n-th merge are those of its observation. */
  lemma {:induction false} NextEvents(s: State, world: World, merges: seq<Merge>, n: nat)
    requires n < |merges|
    ensures var t, seen := Backfilled(s, world, merges, n), Observes(s, world, merges, n);
            t.agents == s.agents
            && Backfilled(s, world, merges, n + 1).events == ObserveIf(t, Blank(merges[n]), seen).events
    ensures Backfilled(s, world, merges, n + 1).agents == s.agents
  {
    if n > 0 {
      NextEvents(s, world, merges, n - 1);
    }
  }

  ghost predicate EnteredAs(s: State, world: World, merges: seq<Merge>, i: nat, e: Event)
    requires i < |merges|
  {
    FilledAt(s, world, merges, i, e.agent, e.run) && About(e, merges[i].plan, merges[i].task, merges[i].target)
  }

  /** A new one names the plan, task and target of such a merge. */
  lemma {:induction false} MissingEventsName(s: State, world: World, merges: seq<Merge>, n: nat, e: Event)
    returns (i: nat)
    requires n <= |merges| && e in Backfilled(s, world, merges, n).events && e !in s.events
    ensures i < n && EnteredAs(s, world, merges, i, e)
  {
    NextEvents(s, world, merges, n - 1);
    if e in Backfilled(s, world, merges, n - 1).events {
      i := MissingEventsName(s, world, merges, n - 1, e);
    } else {
      i := n - 1;
      ObservationNames(Backfilled(s, world, merges, i), Blank(merges[i]), Observes(s, world, merges, i));
      ObservedAs(s, world, merges, i, e);
    }
  }

  lemma {:induction false} ObservedAs(s: State, world: World, merges: seq<Merge>, i: nat, e: Event)
    requires i < |merges| && Observes(s, world, merges, i) == Some(e.run)
    requires var m := merges[i];
             About(e, m.plan, m.task, m.target) && WorksOn(s.agents, e.agent, m.plan, m.target)
    ensures EnteredAs(s, world, merges, i, e)
  {
    FilledExactly(s, world, merges, i, e.agent, e.run);
    OwnerExactly(s.agents, e.agent, merges[i].plan, merges[i].target);
  }

  lemma {:induction false} MissingKeepsEvents(s: State, world: World, merges: seq<Merge>, m: nat, n: nat)
    requires m <= n <= |merges|
    ensures Backfilled(s, world, merges, m).events <= Backfilled(s, world, merges, n).events
  {
    if m < n {
      MissingKeepsEvents(s, world, merges, m, n - 1);
      NextEvents(s, world, merges, n - 1);
    }
  }

  lemma {:induction false} MissingOnFile(s: State, world: World, merges: seq<Merge>, i: nat, agent: nat, run: string)
    requires i < |merges| && FilledAt(s, world, merges, i, agent, run)
    ensures OnFile(Backfilled(s, world, merges, i + 1).events, agent, run)
  {
    FilledExactly(s, world, merges, i, agent, run);
    NextEvents(s, world, merges, i);
    ObservedExactly(Backfilled(s, world, merges, i), Blank(merges[i]), Observes(s, world, merges, i), agent, run);
  }
}
