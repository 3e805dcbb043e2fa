/** A pass that nothing interrupts. The machine of CiPasses takes a pass apart into steps, so that others may come in
    between; here the steps of one pass are put together again, and what they do to the database is exactly what
    CiRecords says of the whole pass, for the poll, for both backfills, and for every number of rows or merges. With
    that, what is proved of whole passes there, and of steps here, is about the same code (server-rs/src/ci.rs).
    Rows that nobody touched in between are the reason: what a pass read is then what it overwrites. */
module CiAlone {
  import opened Util
  import opened CiRecords
  import opened CiSteps

  function PollSteps(pid: Pid, world: World, n: nat): seq<Step> {
    if n == 0 then [StartPoll(pid)] else PollSteps(pid, world, n - 1) + [PollRow(pid, world)]
  }

  function PollStates(s: System, pid: Pid, world: World, n: nat): System {
    if n == 0 then DoStep(s, StartPoll(pid)) else DoStep(PollStates(s, pid, world, n - 1), PollRow(pid, world))
  }

  lemma {:induction false} PollStatesAfter(s: System, pid: Pid, world: World, n: nat)
    ensures After(s, PollSteps(pid, world, n)) == PollStates(s, pid, world, n)
  {
    if n == 0 {
      OneStep(s, StartPoll(pid));
    } else {
      PollStatesAfter(s, pid, world, n - 1);
      OneMore(s, PollSteps(pid, world, n - 1), PollRow(pid, world));
    }
  }

  ghost predicate PolledLink(s: System, world: World, trace: seq<State>, k: nat) {
    && k < |s.db.rows| && k < |trace| - 1 && k < |trace[k].rows| && trace[k].rows[k] == s.db.rows[k]
    && trace[k + 1] == PolledOne(trace[k], world, k, s.db.rows[k])
  }

  /** Row by row, whatever the states in between are called. */
  lemma {:induction false} PollTrace(s: System, pid: Pid, world: World, trace: seq<State>, n: nat)
    requires pid !in s.passes && n < |trace| && trace[0] == s.db
    requires forall k :: 0 <= k < n ==> PolledLink(s, world, trace, k)
    ensures PollStates(s, pid, world, n) == System(trace[n], s.passes[pid := Polling(s.db.rows, n)])
  {
    if n > 0 {
      PollTrace(s, pid, world, trace, n - 1);
      assert PolledLink(s, world, trace, n - 1);
      PollOneMore(s, pid, world, n - 1, trace[n - 1]);
    }
  }

  lemma {:induction false} PollStatesAre(s: System, pid: Pid, world: World, n: nat)
    requires pid !in s.passes && n <= |s.db.rows|
    ensures PollStates(s, pid, world, n) ==
            System(Polled(s.db, world, n), s.passes[pid := Polling(s.db.rows, n)])
  {
    var trace := seq(n + 1, k requires 0 <= k <= n => Polled(s.db, world, k));
    forall k | 0 <= k < n ensures PolledLink(s, world, trace, k) {
      PolledStep(s.db, world, k);
    }
    PollTrace(s, pid, world, trace, n);
  }

  lemma {:induction false} PollOneMore(s: System, pid: Pid, world: World, k: nat, db: State)
    requires k < |s.db.rows| && k < |db.rows| && db.rows[k] == s.db.rows[k]
    requires PollStates(s, pid, world, k) == System(db, s.passes[pid := Polling(s.db.rows, k)])
    ensures PollStates(s, pid, world, k + 1) ==
            System(PolledOne(db, world, k, s.db.rows[k]), s.passes[pid := Polling(s.db.rows, k + 1)])
  {
    UndisturbedRow(db, world, k);
    var next := Polling(s.db.rows, k + 1);
    assert s.passes[pid := Polling(s.db.rows, k)][pid := next] == s.passes[pid := next];
  }

  lemma {:induction false} PolledStep(s: State, world: World, k: nat)
    requires k < |s.rows|
    ensures Polled(s, world, k).rows[k] == s.rows[k]
    ensures Polled(s, world, k + 1) == PolledOne(Polled(s, world, k), world, k, s.rows[k])
  {
  }

  /** A poll that nothing interrupts is the poll of CiRecords. */
  lemma {:induction false} PollAlone(s: System, pid: Pid, world: World, n: nat)
    requires pid !in s.passes && n <= |s.db.rows|
    ensures After(s, PollSteps(pid, world, n)) ==
            System(Polled(s.db, world, n), s.passes[pid := Polling(s.db.rows, n)])
  {
    PollStatesAfter(s, pid, world, n);
    PollStatesAre(s, pid, world, n);
  }

  function AggregateSteps(pid: Pid, world: World, n: nat): seq<Step> {
    if n == 0 then [StartAggregates(pid)] else AggregateSteps(pid, world, n - 1) + [AggregateRow(pid, world)]
  }

  function AggregateStates(s: System, pid: Pid, world: World, n: nat): System {
    if n == 0 then DoStep(s, StartAggregates(pid))
    else DoStep(AggregateStates(s, pid, world, n - 1), AggregateRow(pid, world))
  }

  lemma {:induction false} AggregateStatesAfter(s: System, pid: Pid, world: World, n: nat)
    ensures After(s, AggregateSteps(pid, world, n)) == AggregateStates(s, pid, world, n)
  {
    if n == 0 {
      OneStep(s, StartAggregates(pid));
    } else {
      AggregateStatesAfter(s, pid, world, n - 1);
      OneMore(s, AggregateSteps(pid, world, n - 1), AggregateRow(pid, world));
    }
  }

  ghost predicate AggregatedLink(s: System, world: World, trace: seq<State>, k: nat) {
    && k < |s.db.rows| && k < |trace| - 1 && k < |trace[k].rows| && trace[k].rows[k] == s.db.rows[k]
    && trace[k + 1] == AggregatedOne(trace[k], world, k, s.db.rows[k])
  }

  /** Row by row, whatever the states in between are called. */
  lemma {:induction false} AggregateTrace(s: System, pid: Pid, world: World, trace: seq<State>, n: nat)
    requires pid !in s.passes && !s.db.backfilled && n < |trace| && trace[0] == s.db
    requires forall k :: 0 <= k < n ==> AggregatedLink(s, world, trace, k)
    ensures AggregateStates(s, pid, world, n) == System(trace[n], s.passes[pid := Aggregating(s.db.rows, n)])
  {
    if n > 0 {
      AggregateTrace(s, pid, world, trace, n - 1);
      assert AggregatedLink(s, world, trace, n - 1);
      AggregateOneMore(s, pid, world, n - 1, trace[n - 1]);
    }
  }

  lemma {:induction false} AggregateStatesAre(s: System, pid: Pid, world: World, n: nat)
    requires pid !in s.passes && !s.db.backfilled && n <= |s.db.rows|
    ensures AggregateStates(s, pid, world, n) ==
            System(Aggregated(s.db, world, n), s.passes[pid := Aggregating(s.db.rows, n)])
  {
    var trace := seq(n + 1, k requires 0 <= k <= n => Aggregated(s.db, world, k));
    forall k | 0 <= k < n ensures AggregatedLink(s, world, trace, k) {
      AggregatedStep(s.db, world, k);
    }
    AggregateTrace(s, pid, world, trace, n);
  }

  lemma {:induction false} AggregateOneMore(s: System, pid: Pid, world: World, k: nat, db: State)
    requires k < |s.db.rows| && k < |db.rows| && db.rows[k] == s.db.rows[k]
    requires AggregateStates(s, pid, world, k) == System(db, s.passes[pid := Aggregating(s.db.rows, k)])
    ensures AggregateStates(s, pid, world, k + 1) ==
            System(AggregatedOne(db, world, k, s.db.rows[k]), s.passes[pid := Aggregating(s.db.rows, k + 1)])
  {
    UndisturbedRow(db, world, k);
    var next := Aggregating(s.db.rows, k + 1);
    assert s.passes[pid := Aggregating(s.db.rows, k)][pid := next] == s.passes[pid := next];
  }

  lemma {:induction false} AggregatedStep(s: State, world: World, k: nat)
    requires k < |s.rows|
    ensures Aggregated(s, world, k).rows[k] == s.rows[k]
    ensures Aggregated(s, world, k + 1) == AggregatedOne(Aggregated(s, world, k), world, k, s.rows[k])
  {
  }

  /** Likewise the aggregate backfill, until it sets its flag. */
  lemma {:induction false} AggregatesAlone(s: System, pid: Pid, world: World, n: nat)
    requires pid !in s.passes && !s.db.backfilled && n <= |s.db.rows|
    ensures After(s, AggregateSteps(pid, world, n)) ==
            System(Aggregated(s.db, world, n), s.passes[pid := Aggregating(s.db.rows, n)])
  {
    AggregateStatesAfter(s, pid, world, n);
    AggregateStatesAre(s, pid, world, n);
  }

  /** And with the flag. */
  lemma {:induction false} AggregatesAloneToTheEnd(s: System, pid: Pid, world: World)
    requires pid !in s.passes && !s.db.backfilled
    ensures After(s, AggregateSteps(pid, world, |s.db.rows|) + [EndAggregates(pid)]).db ==
            Aggregated(s.db, world, |s.db.rows|).(backfilled := true)
  {
    AggregatesAlone(s, pid, world, |s.db.rows|);
    OneMore(s, AggregateSteps(pid, world, |s.db.rows|), EndAggregates(pid));
  }

  /** Look and fill, once per merge; where the look finds a row, there is nothing to fill. */
  function FillSteps(pid: Pid, world: World, merges: seq<Merge>, n: nat): seq<Step> {
    if n == 0 then [StartFill(pid, merges)]
    else FillSteps(pid, world, merges, n - 1) + [Check(pid)] + [Fill(pid, world)]
  }

  /** And the backfill of missing rows. */
  lemma {:induction false} FillAlone(s: System, pid: Pid, world: World, merges: seq<Merge>, n: nat)
    requires pid !in s.passes && n <= |merges|
    ensures After(s, FillSteps(pid, world, merges, n)) ==
            System(Backfilled(s.db, world, merges, n), s.passes[pid := Filling(merges, n, false)])
  {
    if n == 0 {
      OneStep(s, StartFill(pid, merges));
    } else {
      FillAlone(s, pid, world, merges, n - 1);
      FillOn(s, FillSteps(pid, world, merges, n - 1), FillSteps(pid, world, merges, n),
             Backfilled(s.db, world, merges, n - 1), pid, world, merges, n - 1);
    }
  }

  lemma {:induction false} FillOn(s: System, steps: seq<Step>, all: seq<Step>, db: State, pid: Pid, world: World,
                                  merges: seq<Merge>, k: nat)
    requires k < |merges| && After(s, steps) == System(db, s.passes[pid := Filling(merges, k, false)])
    requires all == steps + [Check(pid)] + [Fill(pid, world)]
    ensures After(s, all) ==
            System(InsertMissing(db, world, k, merges[k]), s.passes[pid := Filling(merges, k + 1, false)])
  {
    OneMore(s, steps, Check(pid));
    OneMore(s, steps + [Check(pid)], Fill(pid, world));
    LookAndFill(db, s.passes, pid, world, merges, k);
  }

  lemma {:induction false} LookAndFill(db: State, passes: map<Pid, Pass>, pid: Pid, world: World, merges: seq<Merge>,
                                       k: nat)
    requires k < |merges|
    ensures var s := System(db, passes[pid := Filling(merges, k, false)]);
            DoStep(DoStep(s, Check(pid)), Fill(pid, world)) ==
            System(InsertMissing(db, world, k, merges[k]), passes[pid := Filling(merges, k + 1, false)])
  {
    var s := System(db, passes[pid := Filling(merges, k, false)]);
    var t := DoStep(s, Check(pid));
    UndisturbedMerge(db, world, k, merges[k]);
    var next := Filling(merges, k + 1, false);
    assert s.passes[pid := next] == passes[pid := next];
    if HasRow(db.rows, merges[k]) {
      assert t == System(db, passes[pid := next]);
    } else {
      assert t.passes[pid := next] == passes[pid := next];
    }
  }

  /** A row nobody touched since the pass read it is treated as CiRecords says. */
  lemma {:induction false} UndisturbedRow(s: State, world: World, i: nat)
    requires i < |s.rows|
    ensures DoPollRow(s, world, i, s.rows[i]) == PolledOne(s, world, i, s.rows[i])
    ensures DoAggregateRow(s, world, i, s.rows[i]) == AggregatedOne(s, world, i, s.rows[i])
  {
    assert s.rows[i := s.rows[i]] == s.rows;
  }

  lemma {:induction false} UndisturbedMerge(s: State, world: World, i: nat, m: Merge)
    ensures (if HasRow(s.rows, m) then s else DoFill(s, world, i, m)) == InsertMissing(s, world, i, m)
  {
  }
}
