/** CI run records: polling, the two start-up backfills and the failure events (server-rs/src/ci.rs). */
module CiRecords {
  import opened Util

  datatype RunStatus = Pending | Running | Success | Failure | Cancelled | Unknown

  /** A ci_runs row; its id is its position. */
  datatype CiRun = CiRun(plan: string, task: string, sha: Option<string>, branch: Option<string>,
                         status: RunStatus, conclusion: Option<string>, runId: Option<string>, url: Option<string>)

  datatype Aggregate = Aggregate(status: string, conclusion: Option<string>, failingRun: Option<string>)

  /** The dispatch fails, finds no run for the commit, or reports the aggregate over its runs. */
  datatype Answer = Offline | NoRuns | Report(agg: Aggregate)

  /** An agents row; rows are in order of their start. */
  datatype Agent = Agent(plan: string, branch: Option<string>, live: bool)

  datatype Event = Event(agent: nat, run: string, plan: string, task: string, branch: string)

  /** A merge the audit log remembers. */
  datatype Merge = Merge(plan: string, task: string, sha: string, target: Option<string>)

  datatype Recorded = Inserted | Existing | NoLiveAgent

  datatype State = State(rows: seq<CiRun>, events: seq<Event>, agents: seq<Agent>, backfilled: bool)

  /** What one pass finds outside: the project directories, how old each row is, each lookup's answer, run links. */
  datatype World = World(dirs: map<string, string>, age: nat -> int, answer: nat -> Answer,
                         link: (string, string) -> Option<string>)

  const MaxRunAge: int := 30 * 60

  function Normalize(status: string, conclusion: Option<string>): RunStatus {
    if status == "queued" || status == "waiting" || status == "pending" || status == "requested" then Pending
    else if status == "in_progress" then Running
    else if status == "completed" then
      match conclusion
      case None => Unknown
      case Some(c) =>
        if c == "success" then Success
        else if c == "failure" || c == "timed_out" || c == "startup_failure" || c == "action_required" then Failure
        else if c == "cancelled" || c == "skipped" || c == "neutral" || c == "stale" then Cancelled
        else Unknown
    else Pending
  }

  predicate Terminal(status: RunStatus) {
    status.Success? || status.Failure? || status.Cancelled? || status.Unknown?
  }

  /** CI broke: the four conclusions that count as a failure. */
  ghost predicate Breaks(conclusion: Option<string>) {
    || conclusion == Some("failure") || conclusion == Some("timed_out")
    || conclusion == Some("startup_failure") || conclusion == Some("action_required")
  }

  /** CI was called off: the four conclusions that say nothing about the commit. */
  ghost predicate CalledOff(conclusion: Option<string>) {
    || conclusion == Some("cancelled") || conclusion == Some("skipped")
    || conclusion == Some("neutral") || conclusion == Some("stale")
  }

  /** What each status of a row says about the aggregate it was read from. */
  ghost predicate Reads(status: string, conclusion: Option<string>, verdict: RunStatus) {
    match verdict
    case Pending => status != "in_progress" && status != "completed"
    case Running => status == "in_progress"
    case Success => status == "completed" && conclusion == Some("success")
    case Failure => status == "completed" && Breaks(conclusion)
    case Cancelled => status == "completed" && CalledOff(conclusion)
    case Unknown =>
      status == "completed" && conclusion != Some("success") && !Breaks(conclusion) && !CalledOff(conclusion)
  }

  /** Every aggregate is read as the one status that fits it. */
  lemma {:induction false} ReadsExactly(status: string, conclusion: Option<string>, verdict: RunStatus)
    ensures Normalize(status, conclusion) == verdict <==> Reads(status, conclusion, verdict)
  {
    OpenSpellings(status);
    if conclusion.Some? {
      ConclusionSpellings(conclusion.value);
    }
  }

  lemma {:induction false} OpenSpellings(status: string)
    ensures status == "queued" || status == "waiting" || status == "pending" || status == "requested" ==>
              status != "in_progress" && status != "completed"
    ensures !(status == "in_progress" && status == "completed")
  {
    assert status == "in_progress" ==> status[0] == 'i';
    assert status == "completed" ==> status[0] == 'c';
  }

  lemma {:induction false} ConclusionSpellings(c: string)
    ensures Breaks(Some(c)) ==> c != "success" && !CalledOff(Some(c))
    ensures CalledOff(Some(c)) ==> c != "success"
  {
    assert c == "failure" ==> c[0] == 'f';
    assert c == "timed_out" ==> c[0] == 't';
    assert c == "startup_failure" ==> |c| == 15;
    assert c == "action_required" ==> c[0] == 'a';
    assert c == "success" ==> c[0] == 's' && c[1] == 'u';
    assert c == "cancelled" ==> c[0] == 'c';
    assert c == "skipped" ==> c[0] == 's' && c[1] == 'k';
    assert c == "neutral" ==> c[0] == 'n';
    assert c == "stale" ==> c[0] == 's' && c[1] == 't' && |c| == 5;
  }

  /** A verdict is final exactly when the aggregate has completed, whatever the spelling of its conclusion. */
  lemma {:induction false} FinalExactlyWhenCompleted(status: string, conclusion: Option<string>)
    ensures Terminal(Normalize(status, conclusion)) <==> status == "completed"
    ensures Normalize(status, conclusion) == Success <==> status == "completed" && conclusion == Some("success")
  {
    ReadsExactly(status, conclusion, Normalize(status, conclusion));
    ReadsExactly(status, conclusion, Success);
  }

  // ---------------------------------------------------------------- failure events

  predicate Owns(agent: Agent, plan: string, branch: string) {
    agent.plan == plan && agent.branch == Some(branch) && agent.live
  }

  /** The most recently started live agent on the branch. */
  function LiveOwner(agents: seq<Agent>, plan: string, branch: string): (r: Option<nat>)
    ensures r.Some? ==> r.value < |agents| && Owns(agents[r.value], plan, branch)
                        && forall i :: r.value < i < |agents| ==> !Owns(agents[i], plan, branch)
    ensures r.None? ==> forall i :: 0 <= i < |agents| ==> !Owns(agents[i], plan, branch)
  {
    if agents == [] then None
    else if Owns(agents[|agents| - 1], plan, branch) then Some(|agents| - 1)
    else LiveOwner(agents[..|agents| - 1], plan, branch)
  }

  predicate OnFile(events: seq<Event>, agent: nat, run: string) {
    exists i :: 0 <= i < |events| && events[i].agent == agent && events[i].run == run
  }

  /** The unique index on the agent and the run. */
  predicate AtMostOnce(events: seq<Event>) {
    forall i, j :: 0 <= i < j < |events| ==> events[i].agent != events[j].agent || events[i].run != events[j].run
  }

  function Observe(s: State, row: CiRun, run: string): State {
    match row.branch
    case None => s
    case Some(branch) =>
      match LiveOwner(s.agents, row.plan, branch)
      case None => s
      case Some(agent) =>
        if OnFile(s.events, agent, run) then s
        else s.(events := s.events + [Event(agent, run, row.plan, row.task, branch)])
  }

  /** The run a verdict reports as failing, if it is a failure. */
  function FailedRun(agg: Aggregate): Option<string> {
    if Normalize(agg.status, agg.conclusion) == Failure then agg.failingRun else None
  }

  function ObserveIf(s: State, row: CiRun, run: Option<string>): State {
    if run.None? then s else Observe(s, row, run.value)
  }

  // ---------------------------------------------------------------- one pass of each kind

  function Verdict(row: CiRun, agg: Aggregate, url: Option<string>): CiRun {
    row.(status := Normalize(agg.status, agg.conclusion), conclusion := agg.conclusion, runId := agg.failingRun,
      url := url)
  }

  function GiveUp(row: CiRun): CiRun {
    row.(status := Unknown, conclusion := None, runId := None, url := None)
  }

  function Link(world: World, plan: string, run: Option<string>): Option<string> {
    if run.Some? && plan in world.dirs then world.link(world.dirs[plan], run.value) else None
  }

  /** Whether a poll gets as far as asking about the row. */
  predicate Asked(world: World, row: CiRun) {
    !Terminal(row.status) && row.sha.Some? && row.plan in world.dirs
  }

  /** The run whose failure a poll observes on row i. */
  function PollObserves(world: World, i: nat, row: CiRun): Option<string> {
    if Asked(world, row) && world.answer(i).Report?
      && Normalize(world.answer(i).agg.status, world.answer(i).agg.conclusion) != row.status
    then FailedRun(world.answer(i).agg) else None
  }

  function PolledRow(world: World, i: nat, row: CiRun): CiRun {
    if Terminal(row.status) || row.sha.None? then row
    else if row.plan !in world.dirs then (if world.age(i) > MaxRunAge then GiveUp(row) else row)
    else
      match world.answer(i)
      case Offline => row
      case NoRuns => if world.age(i) > MaxRunAge then GiveUp(row) else row
      case Report(agg) =>
        if Normalize(agg.status, agg.conclusion) == row.status then row
        else Verdict(row, agg, Link(world, row.plan, agg.failingRun))
  }

  function PolledOne(s: State, world: World, i: nat, row: CiRun): State
    requires i < |s.rows|
  {
    ObserveIf(s.(rows := s.rows[i := PolledRow(world, i, row)]), row, PollObserves(world, i, row))
  }

  /** The first n rows polled. */
  function Polled(s: State, world: World, n: nat): (r: State)
    requires n <= |s.rows|
    ensures |r.rows| == |s.rows| && r.agents == s.agents && r.backfilled == s.backfilled
    ensures forall i :: 0 <= i < n ==> r.rows[i] == PolledRow(world, i, s.rows[i])
    ensures forall i :: n <= i < |s.rows| ==> r.rows[i] == s.rows[i]
  {
    if n == 0 then s
    else
      PolledOne(Polled(s, world, n - 1), world, n - 1, s.rows[n - 1])
  }

  function AggregatedRow(world: World, i: nat, row: CiRun): CiRun {
    if row.sha.Some? && world.answer(i).Report?
    then Verdict(row, world.answer(i).agg, Link(world, row.plan, world.answer(i).agg.failingRun)) else row
  }

  function AggregateObserves(world: World, i: nat, row: CiRun): Option<string> {
    if row.sha.Some? && world.answer(i).Report? then FailedRun(world.answer(i).agg) else None
  }

  function AggregatedOne(s: State, world: World, i: nat, row: CiRun): State
    requires i < |s.rows|
  {
    ObserveIf(s.(rows := s.rows[i := AggregatedRow(world, i, row)]), row, AggregateObserves(world, i, row))
  }

  /** The first n rows looked up afresh. */
  function Aggregated(s: State, world: World, n: nat): (r: State)
    requires n <= |s.rows|
    ensures |r.rows| == |s.rows| && r.agents == s.agents && r.backfilled == s.backfilled
    ensures forall i :: 0 <= i < n ==> r.rows[i] == AggregatedRow(world, i, s.rows[i])
    ensures forall i :: n <= i < |s.rows| ==> r.rows[i] == s.rows[i]
  {
    if n == 0 then s
    else
      AggregatedOne(Aggregated(s, world, n - 1), world, n - 1, s.rows[n - 1])
  }

  predicate Covers(row: CiRun, m: Merge) {
    row.plan == m.plan && row.task == m.task && row.sha == Some(m.sha)
  }

  predicate HasRow(rows: seq<CiRun>, m: Merge) {
    exists i :: 0 <= i < |rows| && Covers(rows[i], m)
  }

  function NewRow(world: World, m: Merge, agg: Aggregate): CiRun {
    Verdict(CiRun(m.plan, m.task, Some(m.sha), m.target, Pending, None, None, None), agg,
      Link(world, m.plan, agg.failingRun))
  }

  function InsertMissing(s: State, world: World, i: nat, m: Merge): State {
    if HasRow(s.rows, m) || !world.answer(i).Report? then s
    else
      var row := NewRow(world, m, world.answer(i).agg);
      ObserveIf(s.(rows := s.rows + [row]), row, FailedRun(world.answer(i).agg))
  }

  /** The first n audited merges worked through. */
  function Backfilled(s: State, world: World, merges: seq<Merge>, n: nat): State
    requires n <= |merges|
  {
    if n == 0 then s else InsertMissing(Backfilled(s, world, merges, n - 1), world, n - 1, merges[n - 1])
  }

  // ---------------------------------------------------------------- the store

  class Store {
    var rows: seq<CiRun>
    var events: seq<Event>
    var agents: seq<Agent>
    var backfilled: bool

    ghost function View(): State
      reads this
    {
      State(rows, events, agents, backfilled)
    }

    method RecordFailure(row: CiRun, run: string) returns (r: Recorded)
      modifies this
      ensures View() == Observe(old(View()), row, run)
      ensures r == NoLiveAgent <==> row.branch.None? || LiveOwner(agents, row.plan, row.branch.value).None?
      ensures r == Inserted <==> |events| == |old(events)| + 1
      ensures AtMostOnce(old(events)) ==> AtMostOnce(events)
    {
      if row.branch.None? {
        return NoLiveAgent;
      }
      var owner := LiveOwner(agents, row.plan, row.branch.value);
      if owner.None? {
        return NoLiveAgent;
      }
      var i := 0;
      while i < |events|
        invariant 0 <= i <= |events|
        invariant forall k :: 0 <= k < i ==> events[k].agent != owner.value || events[k].run != run
      {
        if events[i].agent == owner.value && events[i].run == run {
          return Existing;
        }
        i := i + 1;
      }
      events := events + [Event(owner.value, run, row.plan, row.task, row.branch.value)];
      r := Inserted;
    }

    method Poll(world: World)
      modifies this
      ensures View() == Polled(old(View()), world, |old(rows)|)
    {
      var snapshot := rows;
      ghost var s := View();
      var i := 0;
      while i < |snapshot|
        invariant 0 <= i <= |snapshot|
        invariant View() == Polled(s, world, i)
      {
        PollOne(world, i, snapshot[i]);
        i := i + 1;
      }
    }

    method PollOne(world: World, i: nat, row: CiRun)
      requires i < |rows| && rows[i] == row
      modifies this
      ensures View() == PolledOne(old(View()), world, i, row)
    {
      if Terminal(row.status) || row.sha.None? {
        return;
      }
      if row.plan !in world.dirs {
        if world.age(i) > MaxRunAge {
          rows := rows[i := GiveUp(row)];
        }
        return;
      }
      match world.answer(i)
      case Offline =>
      case NoRuns =>
        if world.age(i) > MaxRunAge {
          rows := rows[i := GiveUp(row)];
        }
      case Report(agg) =>
        if Normalize(agg.status, agg.conclusion) != row.status {
          rows := rows[i := Verdict(row, agg, Link(world, row.plan, agg.failingRun))];
          if FailedRun(agg).Some? {
            var _ := RecordFailure(row, FailedRun(agg).value);
          }
        }
    }

    /** Runs once per database: the settings flag is set at the end of the pass. */
    method BackfillAggregates(world: World)
      modifies this
      ensures View() == if old(backfilled) then old(View())
                        else Aggregated(old(View()), world, |old(rows)|).(backfilled := true)
    {
      if backfilled {
        return;
      }
      var snapshot := rows;
      ghost var s := View();
      var i := 0;
      while i < |snapshot|
        invariant 0 <= i <= |snapshot|
        invariant View() == Aggregated(s, world, i)
      {
        AggregateOne(world, i, snapshot[i]);
        i := i + 1;
      }
      backfilled := true;
    }

    method AggregateOne(world: World, i: nat, row: CiRun)
      requires i < |rows| && rows[i] == row
      modifies this
      ensures View() == AggregatedOne(old(View()), world, i, row)
    {
      if row.sha.Some? && world.answer(i).Report? {
        var agg := world.answer(i).agg;
        rows := rows[i := Verdict(row, agg, Link(world, row.plan, agg.failingRun))];
        if FailedRun(agg).Some? {
          var _ := RecordFailure(row, FailedRun(agg).value);
        }
      }
    }

    method BackfillMissing(world: World, merges: seq<Merge>)
      modifies this
      ensures View() == Backfilled(old(View()), world, merges, |merges|)
    {
      ghost var s := View();
      var i := 0;
      while i < |merges|
        invariant 0 <= i <= |merges|
        invariant View() == Backfilled(s, world, merges, i)
      {
        InsertIfMissing(world, i, merges[i]);
        i := i + 1;
      }
    }

    method InsertIfMissing(world: World, i: nat, m: Merge)
      modifies this
      ensures View() == InsertMissing(old(View()), world, i, m)
    {
      var known := RowExists(m);
      if !known && world.answer(i).Report? {
        var agg := world.answer(i).agg;
        var row := NewRow(world, m, agg);
        rows := rows + [row];
        if FailedRun(agg).Some? {
          var _ := RecordFailure(row, FailedRun(agg).value);
        }
      }
    }

    method RowExists(m: Merge) returns (found: bool)
      ensures found == HasRow(rows, m)
    {
      var i := 0;
      while i < |rows|
        invariant 0 <= i <= |rows|
        invariant forall k :: 0 <= k < i ==> !Covers(rows[k], m)
      {
        if Covers(rows[i], m) {
          return true;
        }
        i := i + 1;
      }
      found := false;
    }
  }

  // ---------------------------------------------------------------- failure events, at most once

  lemma {:induction false} ObservedAtMostOnce(s: State, row: CiRun, run: Option<string>)
    requires AtMostOnce(s.events)
    ensures AtMostOnce(ObserveIf(s, row, run).events) && ObserveIf(s, row, run).rows == s.rows
    ensures s.events <= ObserveIf(s, row, run).events
  {
  }

  lemma {:induction false} PolledAtMostOnce(s: State, world: World, n: nat)
    requires n <= |s.rows| && AtMostOnce(s.events)
    ensures AtMostOnce(Polled(s, world, n).events)
  {
    if n > 0 {
      PolledAtMostOnce(s, world, n - 1);
      var t := Polled(s, world, n - 1);
      ObservedAtMostOnce(t.(rows := t.rows[n - 1 := PolledRow(world, n - 1, s.rows[n - 1])]),
                         s.rows[n - 1], PollObserves(world, n - 1, s.rows[n - 1]));
    }
  }

  lemma {:induction false} AggregatedAtMostOnce(s: State, world: World, n: nat)
    requires n <= |s.rows| && AtMostOnce(s.events)
    ensures AtMostOnce(Aggregated(s, world, n).events)
  {
    if n > 0 {
      AggregatedAtMostOnce(s, world, n - 1);
      var t := Aggregated(s, world, n - 1);
      ObservedAtMostOnce(t.(rows := t.rows[n - 1 := AggregatedRow(world, n - 1, s.rows[n - 1])]),
                         s.rows[n - 1], AggregateObserves(world, n - 1, s.rows[n - 1]));
    }
  }

  lemma {:induction false} BackfilledAtMostOnce(s: State, world: World, merges: seq<Merge>, n: nat)
    requires n <= |merges| && AtMostOnce(s.events)
    ensures AtMostOnce(Backfilled(s, world, merges, n).events)
  {
    if n > 0 {
      BackfilledAtMostOnce(s, world, merges, n - 1);
      var t := Backfilled(s, world, merges, n - 1);
      if world.answer(n - 1).Report? {
        var row := NewRow(world, merges[n - 1], world.answer(n - 1).agg);
        ObservedAtMostOnce(t.(rows := t.rows + [row]), row, FailedRun(world.answer(n - 1).agg));
      }
    }
  }

  // ---------------------------------------------------------------- the backfill of missing rows

  function CountRows(rows: seq<CiRun>, m: Merge): nat {
    if rows == [] then 0
    else CountRows(rows[..|rows| - 1], m) + if Covers(rows[|rows| - 1], m) then 1 else 0
  }

  predicate SameCommit(a: Merge, b: Merge) {
    a.plan == b.plan && a.task == b.task && a.sha == b.sha
  }

  /** One of the first n audited merges of the commit got a report. */
  predicate Reported(world: World, merges: seq<Merge>, n: nat, m: Merge)
    requires n <= |merges|
  {
    exists i :: 0 <= i < n && SameCommit(merges[i], m) && world.answer(i).Report?
  }

  lemma {:induction false} CountZero(rows: seq<CiRun>, m: Merge)
    ensures CountRows(rows, m) == 0 <==> !HasRow(rows, m)
  {
    if rows != [] {
      CountZero(rows[..|rows| - 1], m);
      if HasRow(rows[..|rows| - 1], m) {
        var i :| 0 <= i < |rows| - 1 && Covers(rows[..|rows| - 1][i], m);
        assert Covers(rows[i], m);
      }
      if CountRows(rows[..|rows| - 1], m) == 0 && !Covers(rows[|rows| - 1], m) {
        assert forall i :: 0 <= i < |rows| - 1 ==> rows[i] == rows[..|rows| - 1][i];
      }
    }
  }

  lemma {:induction false} CountOneMore(rows: seq<CiRun>, row: CiRun, m: Merge)
    ensures CountRows(rows + [row], m) == CountRows(rows, m) + if Covers(row, m) then 1 else 0
  {
    assert (rows + [row])[..|rows|] == rows;
  }

  /** What one audited merge does to the rows of a commit. */
  lemma {:induction false} InsertCounts(s: State, world: World, i: nat, a: Merge, m: Merge)
    ensures CountRows(InsertMissing(s, world, i, a).rows, m) ==
            CountRows(s.rows, m)
            + if SameCommit(a, m) && !HasRow(s.rows, m) && world.answer(i).Report? then 1 else 0
    ensures s.rows <= InsertMissing(s, world, i, a).rows
  {
    if world.answer(i).Report? {
      CountOneMore(s.rows, NewRow(world, a, world.answer(i).agg), m);
      if SameCommit(a, m) {
        SameRows(s.rows, a, m);
      }
    }
  }

  lemma {:induction false} SameRows(rows: seq<CiRun>, a: Merge, m: Merge)
    requires SameCommit(a, m)
    ensures HasRow(rows, a) <==> HasRow(rows, m)
  {
    if HasRow(rows, a) {
      var i :| 0 <= i < |rows| && Covers(rows[i], a);
      assert Covers(rows[i], m);
    }
    if HasRow(rows, m) {
      var i :| 0 <= i < |rows| && Covers(rows[i], m);
      assert Covers(rows[i], a);
    }
  }

  /** However often the log repeats a merge: a commit that had rows keeps them, one that had none gains exactly one
      row if some lookup of it reports, and none otherwise. */
  lemma {:induction false} BackfillGainsExactly(s: State, world: World, merges: seq<Merge>, n: nat, m: Merge)
    requires n <= |merges|
    ensures CountRows(Backfilled(s, world, merges, n).rows, m) ==
            if HasRow(s.rows, m) then CountRows(s.rows, m) else if Reported(world, merges, n, m) then 1 else 0
  {
    if n == 0 {
      CountZero(s.rows, m);
    } else {
      BackfillGainsExactly(s, world, merges, n - 1, m);
      var t := Backfilled(s, world, merges, n - 1);
      InsertCounts(t, world, n - 1, merges[n - 1], m);
      CountZero(t.rows, m);
      CountZero(s.rows, m);
      ReportedOneMore(world, merges, n, m);
    }
  }

  lemma {:induction false} ReportedOneMore(world: World, merges: seq<Merge>, n: nat, m: Merge)
    requires 0 < n <= |merges|
    ensures Reported(world, merges, n, m) <==>
            Reported(world, merges, n - 1, m) || (SameCommit(merges[n - 1], m) && world.answer(n - 1).Report?)
  {
    if Reported(world, merges, n - 1, m) {
      var i :| 0 <= i < n - 1 && SameCommit(merges[i], m) && world.answer(i).Report?;
      assert SameCommit(merges[i], m) && i < n;
    }
  }

  /** Nothing left to insert: every reported merge has its row. */
  predicate Settled(s: State, world: World, merges: seq<Merge>) {
    forall i :: 0 <= i < |merges| && world.answer(i).Report? ==> HasRow(s.rows, merges[i])
  }

  lemma {:induction false} SettledStays(s: State, world: World, merges: seq<Merge>, n: nat)
    requires n <= |merges| && Settled(s, world, merges)
    ensures Backfilled(s, world, merges, n) == s
  {
    if n > 0 {
      SettledStays(s, world, merges, n - 1);
    }
  }

  /** The next boot: with the same answers a second pass changes nothing at all. */
  lemma {:induction false} BackfillIsIdempotent(s: State, world: World, merges: seq<Merge>)
    ensures var t := Backfilled(s, world, merges, |merges|);
            Settled(t, world, merges) && Backfilled(t, world, merges, |merges|) == t
  {
    var t := Backfilled(s, world, merges, |merges|);
    forall i | 0 <= i < |merges| && world.answer(i).Report? ensures HasRow(t.rows, merges[i]) {
      var m := merges[i];
      BackfillGainsExactly(s, world, merges, |merges|, m);
      assert SameCommit(merges[i], m);
      CountZero(t.rows, m);
      CountZero(s.rows, m);
    }
    SettledStays(t, world, merges, |merges|);
  }

  // ---------------------------------------------------------------- whole runs

  /** Passes in any order with any answers, rows inserted as pending after a push (or by hand, without a commit),
      agents started, stopped, or stripped of their branch. */
  datatype Op =
    | Poll(world: World)
    | Aggregates(world: World)
    | Missing(world: World, merges: seq<Merge>)
    | Push(plan: string, task: string, sha: Option<string>, branch: Option<string>)
    | AgentsChange(agents: seq<Agent>)

  function Do(s: State, op: Op): State {
    match op
    case Poll(w) => Polled(s, w, |s.rows|)
    case Aggregates(w) => if s.backfilled then s else Aggregated(s, w, |s.rows|).(backfilled := true)
    case Missing(w, merges) => Backfilled(s, w, merges, |merges|)
    case Push(plan, task, sha, branch) => s.(rows := s.rows +
      [CiRun(plan, task, sha, branch, Pending, None, None, None)])
    case AgentsChange(agents) => s.(agents := agents)
  }

  function Run(s: State, ops: seq<Op>): State {
    if ops == [] then s else Do(Run(s, ops[..|ops| - 1]), ops[|ops| - 1])
  }

  /** Across all passes of all kinds, each failing run is observed at most once per agent. */
  lemma {:induction false} EventsAtMostOnce(s: State, ops: seq<Op>)
    requires AtMostOnce(s.events)
    ensures AtMostOnce(Run(s, ops).events)
  {
    if ops != [] {
      EventsAtMostOnce(s, ops[..|ops| - 1]);
      var t := Run(s, ops[..|ops| - 1]);
      match ops[|ops| - 1]
      case Poll(w) => PolledAtMostOnce(t, w, |t.rows|);
      case Aggregates(w) => AggregatedAtMostOnce(t, w, |t.rows|);
      case Missing(w, merges) => BackfilledAtMostOnce(t, w, merges, |merges|);
      case Push(_, _, _, _) =>
      case AgentsChange(_) =>
    }
  }

  lemma {:induction false} InsertKeepsRows(s: State, world: World, i: nat, m: Merge)
    ensures s.rows <= InsertMissing(s, world, i, m).rows && InsertMissing(s, world, i, m).backfilled == s.backfilled
  {
  }

  lemma {:induction false} BackfillKeepsRows(s: State, world: World, merges: seq<Merge>, n: nat)
    requires n <= |merges|
    ensures s.rows <= Backfilled(s, world, merges, n).rows && Backfilled(s, world, merges, n).backfilled == s.backfilled
  {
    if n > 0 {
      BackfillKeepsRows(s, world, merges, n - 1);
      InsertKeepsRows(Backfilled(s, world, merges, n - 1), world, n - 1, merges[n - 1]);
    }
  }

  /** A verdict is final: once the aggregate backfill has run, no pass of any kind ever changes a row that is in a
      terminal status. */
  lemma {:induction false} VerdictsAreFinal(s: State, ops: seq<Op>, i: nat)
    requires s.backfilled && i < |s.rows| && Terminal(s.rows[i].status)
    ensures Run(s, ops).backfilled && i < |Run(s, ops).rows| && Run(s, ops).rows[i] == s.rows[i]
  {
    if ops != [] {
      VerdictsAreFinal(s, ops[..|ops| - 1], i);
      var t := Run(s, ops[..|ops| - 1]);
      if ops[|ops| - 1].Missing? {
        BackfillKeepsRows(t, ops[|ops| - 1].world, ops[|ops| - 1].merges, |ops[|ops| - 1].merges|);
      }
    }
  }

  /** A row without a commit is never touched: entered open, it stays open for ever. */
  lemma {:induction false} NoCommitStaysOpen(s: State, ops: seq<Op>, i: nat)
    requires i < |s.rows| && s.rows[i].sha.None?
    ensures i < |Run(s, ops).rows| && Run(s, ops).rows[i] == s.rows[i]
  {
    if ops != [] {
      NoCommitStaysOpen(s, ops[..|ops| - 1], i);
      var t := Run(s, ops[..|ops| - 1]);
      if ops[|ops| - 1].Missing? {
        BackfillKeepsRows(t, ops[|ops| - 1].world, ops[|ops| - 1].merges, |ops[|ops| - 1].merges|);
      }
    }
  }

  /** The row carries the verdict of the aggregate, and the link to its failing run where the project is known. */
  ghost predicate Carries(world: World, row: CiRun, agg: Aggregate, after: CiRun) {
    && Reads(agg.status, agg.conclusion, after.status)
    && after.plan == row.plan && after.task == row.task && after.sha == row.sha && after.branch == row.branch
    && after.conclusion == agg.conclusion && after.runId == agg.failingRun
    && after.url == if agg.failingRun.Some? && row.plan in world.dirs
                    then world.link(world.dirs[row.plan], agg.failingRun.value) else None
  }

  lemma {:induction false} VerdictCarries(world: World, row: CiRun, agg: Aggregate)
    ensures Carries(world, row, agg, Verdict(row, agg, Link(world, row.plan, agg.failingRun)))
  {
    ReadsExactly(agg.status, agg.conclusion, Normalize(agg.status, agg.conclusion));
  }

  /** Polling moves a row exactly when it is open, has a commit, and either a report disagrees with it, whose
      verdict it then carries, or it is too old and no lookup can be made or finds a run, when it is given up. So
      an offline runner never ages a row. */
  lemma {:induction false} PollMovesExactly(s: State, world: World, i: nat)
    requires i < |s.rows|
    ensures var row, after := s.rows[i], Polled(s, world, |s.rows|).rows[i];
            && (after.status != row.status <==>
                  && (row.status.Pending? || row.status.Running?) && row.sha.Some?
                  && if row.plan in world.dirs && world.answer(i) != NoRuns
                     then world.answer(i).Report?
                       && !Reads(world.answer(i).agg.status, world.answer(i).agg.conclusion, row.status)
                     else world.age(i) > 30 * 60)
            && (after.status == row.status ==> after == row)
            && after.plan == row.plan && after.task == row.task && after.sha == row.sha && after.branch == row.branch
            && (after.status != row.status ==>
                  if row.plan in world.dirs && world.answer(i).Report?
                  then Carries(world, row, world.answer(i).agg, after)
                  else after.status == Unknown && after.conclusion.None? && after.runId.None? && after.url.None?)
  {
    if world.answer(i).Report? {
      var agg := world.answer(i).agg;
      ReadsExactly(agg.status, agg.conclusion, s.rows[i].status);
      ReadsExactly(agg.status, agg.conclusion, Normalize(agg.status, agg.conclusion));
    }
  }
}
