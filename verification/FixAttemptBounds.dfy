/** What the cap on fix attempts bounds, and which completions are found, when handlers race
    (server-rs/src/auto_mode.rs, server-rs/src/db.rs). */
module FixAttemptBounds {
  import opened Util
  import opened FixAttempts

  /** In every interleaving a task gets at most as many agents as the cap times the processes that ever handle it. */
  lemma {:induction false} AgentsWithinCapTimesHandlers(cap: nat, steps: seq<Step>, t: Task)
    ensures AgentsOf(After(cap, steps).agents, t) <= cap * |Handlers(steps, t)|
  {
    var s := After(cap, steps);
    var starts, pids := StartsOf(s.agents, t), Handlers(steps, t);
    RunsKeepHandlers(cap, steps);
    StartsAre(s.agents, t);
    NumbersAreUsed(s, cap, t);
    forall x | x in Elems(starts) ensures x in Pairs(cap, pids) {
      assert Agent(t, x.0, x.1) in s.agents;
      var i :| 0 <= i < |s.agents| && s.agents[i] == Agent(t, x.0, x.1);
    }
    NoDupCardinality(starts);
    SubsetCardinality(Elems(starts), Pairs(cap, pids));
    PairsCount(cap, pids);
  }

  /** The bound is attained: for every cap and every number of processes some interleaving starts that many agents. */
  lemma {:induction false} CapTimesHandlersIsAttained(cap: nat, m: nat, t: Task)
    ensures exists steps :: |Handlers(steps, t)| <= m && AgentsOf(After(cap, steps).agents, t) == cap * m
  {
    var steps := Rounds(cap, cap, m, t);
    SubsetCardinality(Handlers(steps, t), UpTo(m));
  }

  /** Whatever m processes do, the task gets no more agents than the cap. */
  ghost predicate CapHolds(cap: nat, m: nat, t: Task) {
    forall steps :: |Handlers(steps, t)| <= m ==> AgentsOf(After(cap, steps).agents, t) <= cap
  }

  /** The cap bounds agents, and not only recorded attempts, if and only if at most one process handles the task,
      or the cap is zero. */
  lemma {:induction false} CapBoundsAgentsExactly(cap: nat, m: nat, t: Task)
    ensures CapHolds(cap, m, t) <==> m <= 1 || cap == 0
  {
    if m <= 1 || cap == 0 {
      forall steps | |Handlers(steps, t)| <= m ensures AgentsOf(After(cap, steps).agents, t) <= cap {
        AgentsWithinCapTimesHandlers(cap, steps, t);
      }
    } else {
      CapTimesHandlersIsAttained(cap, m, t);
      Doubles(cap, m);
    }
  }

  lemma {:induction false} Doubles(cap: nat, m: nat)
    requires cap >= 1 && m >= 2
    ensures cap * m > cap
  {
    assert cap * m == cap * (m - 2) + cap + cap;
  }

  /** When the handlers of a task run one at a time, the cap does bound its agents, resolvers and CI fixes together,
      whatever handlers of other tasks are under way, and however many processes take turns. */
  lemma {:induction false} SequentialAgentsAreCapped(cap: nat, steps: seq<Step>, t: Task)
    requires Sequential(cap, steps, t)
    ensures AgentsOf(After(cap, steps).agents, t) <= cap
  {
    var s := After(cap, steps);
    SequentialRunsKeep(cap, steps, t);
    AttemptsOfTask(s.agents, t);
    var numbers := AttemptsOf(s.agents, t);
    NumbersAreUsed(s, cap, t);
    forall n | n in Elems(numbers) ensures n in UpTo(cap) {
      assert n in numbers;
    }
    NoDupCardinality(numbers);
    SubsetCardinality(Elems(numbers), UpTo(cap));
  }

  /** When all handlers are done, every agent's completion finds its attempt row, if and only if no insert of an attempt
      found its number taken. Of two racing agents of one number, the completion of the one stored first is dropped. */
  lemma {:induction false} CompletionsFoundExactly(cap: nat, steps: seq<Step>)
    requires forall p: nat :: PcOf(After(cap, steps), p).Idle?
    ensures (forall i :: 0 <= i < |After(cap, steps).agents| ==> Registered(After(cap, steps), i))
            <==> NoConflicts(cap, steps)
  {
    var s := After(cap, steps);
    assert forall p :: p in s.procs ==> PcOf(s, p) == s.procs[p];
    HeldOnceExactly(cap, steps);
    HeldOnceIsUsedOnce(s);
    FoundOnce(cap, steps);
  }

  lemma {:induction false} FoundOnce(cap: nat, steps: seq<Step>)
    requires forall p: nat :: PcOf(After(cap, steps), p).Idle?
    ensures (forall i :: 0 <= i < |After(cap, steps).agents| ==> Registered(After(cap, steps), i))
            <==> NumbersUsedOnce(After(cap, steps))
  {
    var s := After(cap, steps);
    RunsKeepStored(cap, steps);
    if NumbersUsedOnce(s) {
      forall i | 0 <= i < |s.agents| ensures Registered(s, i) {
        var k := (s.agents[i].task, s.agents[i].attempt);
        assert StoredOrAbout(s, i);
        assert forall p :: p in s.procs ==> PcOf(s, p).Idle?;
        assert k in s.stored && NamesOwn(s, k);
      }
    }
    if forall i :: 0 <= i < |s.agents| ==> Registered(s, i) {
      forall i, j | 0 <= i < j < |s.agents|
        ensures s.agents[i].task != s.agents[j].task || s.agents[i].attempt != s.agents[j].attempt
      {
        assert Registered(s, i) && Registered(s, j);
      }
    }
  }

  // ---------------------------------------------------------------- one handler with nobody in between

  /** The accesses of one handler, of a CI fix or a resolver. */
  function Handling(p: Pid, t: Task, resolver: bool): seq<Step> {
    (if resolver then [ResolverRead(p, t), ResolverRecheck(p)] else [CiFixRead(p, t)])
    + [InsertRow(p), StartAgent(p), StoreAgent(p)]
  }

  lemma {:induction false} ThreeMore(cap: nat, steps: seq<Step>, a: Step, b: Step, c: Step)
    ensures After(cap, steps + [a, b, c]) == Do(Do(Do(After(cap, steps), cap, a), cap, b), cap, c)
  {
    AfterOneMore(cap, steps, a);
    AfterOneMore(cap, steps + [a], b);
    AfterOneMore(cap, steps + [a] + [b], c);
    assert steps + [a, b, c] == steps + [a] + [b] + [c];
  }

  /** Reading, once or twice, with nobody in between. */
  function Read(s: State, cap: nat, p: Pid, t: Task): State {
    s.(procs := s.procs[p := if Count(s, t) >= cap then Idle else Insert(t, Count(s, t) + 1)])
  }

  lemma {:induction false} HandlerReads(cap: nat, steps: seq<Step>, p: Pid, t: Task)
    requires PcOf(After(cap, steps), p).Idle?
    ensures After(cap, steps + [CiFixRead(p, t)]) == Read(After(cap, steps), cap, p, t)
    ensures After(cap, steps + [ResolverRead(p, t), ResolverRecheck(p)]) == Read(After(cap, steps), cap, p, t)
  {
    var s := After(cap, steps);
    assert (steps + [CiFixRead(p, t)])[..|steps|] == steps;
    assert (steps + [ResolverRead(p, t), ResolverRecheck(p)])[..|steps| + 1] == steps + [ResolverRead(p, t)];
    assert (steps + [ResolverRead(p, t)])[..|steps|] == steps;
    var read := Do(s, cap, ResolverRead(p, t));
    assert read == s.(procs := s.procs[p := Recheck(t, Count(s, t) + 1)]) && Count(read, t) == Count(s, t);
    assert Do(read, cap, ResolverRecheck(p)) == Read(s, cap, p, t) by {
      assert read.procs[p := Idle] == s.procs[p := Idle];
      assert read.procs[p := Insert(t, Count(s, t) + 1)] == s.procs[p := Insert(t, Count(s, t) + 1)];
    }
  }

  /** What one handler leaves: below the cap the next attempt's agent, on record; at the cap nothing. */
  ghost predicate Handled(s: State, r: State, cap: nat, p: Pid, t: Task) {
    var n := Count(s, t) + 1;
    && PcOf(r, p).Idle? && (forall q :: q != p ==> PcOf(r, q) == PcOf(s, q))
    && if n > cap then r.rows == s.rows && r.stored == s.stored && r.agents == s.agents
       else
         && Rows(r, t) == Rows(s, t) + {n} && (forall u :: u != t ==> Rows(r, u) == Rows(s, u))
         && r.stored == s.stored[(t, n) := |s.agents|] && r.agents == s.agents + [Agent(t, n, p)]
  }

  lemma {:induction false} HandlerActs(s: State, cap: nat, p: Pid, t: Task)
    ensures Handled(s, Do(Do(Do(Read(s, cap, p, t), cap, InsertRow(p)), cap, StartAgent(p)), cap, StoreAgent(p)),
                    cap, p, t)
  {
    var u := Read(s, cap, p, t);
    if Count(s, t) < cap {
      var v := Do(u, cap, InsertRow(p));
      assert PcOf(v, p) == Spawn(t, Count(s, t) + 1);
      var w := Do(v, cap, StartAgent(p));
      assert PcOf(w, p) == Store(t, Count(s, t) + 1, |s.agents|);
    }
  }

  /** With nobody in between, a handler starts the next attempt's agent and records it, exactly below the cap; at the
      cap it changes nothing. */
  lemma {:induction false} HandlerAlone(cap: nat, steps: seq<Step>, p: Pid, t: Task, resolver: bool)
    requires PcOf(After(cap, steps), p).Idle?
    ensures Handled(After(cap, steps), After(cap, steps + Handling(p, t, resolver)), cap, p, t)
  {
    var read := if resolver then [ResolverRead(p, t), ResolverRecheck(p)] else [CiFixRead(p, t)];
    HandlerReads(cap, steps, p, t);
    ThreeMore(cap, steps + read, InsertRow(p), StartAgent(p), StoreAgent(p));
    assert steps + Handling(p, t, resolver) == steps + read + [InsertRow(p), StartAgent(p), StoreAgent(p)];
    HandlerActs(After(cap, steps), cap, p, t);
  }
}
