/** The shared fix-attempt budget under concurrency: CI fixes and at-merge resolvers read a count, compare it with the
    cap, and only later insert a numbered row, start an agent and store its id in the row (server-rs/src/auto_mode.rs,
    server-rs/src/agents/mod.rs, server-rs/src/db.rs). Processes interleave step by step; the invariants here carry what
    FixAttemptBounds says about agents. */
module FixAttempts {
  import opened Util

  type Task = string

  type Pid = nat

  /** Where a process stands that runs completion handlers, one after the other.
      CI fix: read the count and compare (`Insert`), insert the row (`Spawn`), start the agent (`Store`), store its id.
      Resolver: read the count to number the attempt (`Recheck`), read it again to compare (`Insert`), and so on. */
  datatype Pc =
    | Idle
    | Recheck(task: Task, attempt: nat)
    | Insert(task: Task, attempt: nat)
    | Spawn(task: Task, attempt: nat)
    | Store(task: Task, attempt: nat, agent: nat)

  datatype Agent = Agent(task: Task, attempt: nat, starter: Pid)

  /** `rows` holds the attempt numbers recorded per task, `stored` the agent a row names, `agents` everything ever
      started; an agent's id is its position. */
  datatype State = State(rows: map<Task, set<nat>>, stored: map<(Task, nat), nat>, procs: map<Pid, Pc>,
                         agents: seq<Agent>)

  function Rows(s: State, t: Task): set<nat> {
    if t in s.rows then s.rows[t] else {}
  }

  /** `task_fix_attempt_count`. */
  function Count(s: State, t: Task): nat {
    |Rows(s, t)|
  }

  function PcOf(s: State, p: Pid): Pc {
    if p in s.procs then s.procs[p] else Idle
  }

  datatype Step =
    | CiFixRead(p: Pid, t: Task)
    | ResolverRead(p: Pid, t: Task)
    | ResolverRecheck(p: Pid)
    | InsertRow(p: Pid)
    | StartAgent(p: Pid)
    | StoreAgent(p: Pid)

  predicate Enabled(s: State, step: Step) {
    match step
    case CiFixRead(p, _) => PcOf(s, p).Idle?
    case ResolverRead(p, _) => PcOf(s, p).Idle?
    case ResolverRecheck(p) => PcOf(s, p).Recheck?
    case InsertRow(p) => PcOf(s, p).Insert?
    case StartAgent(p) => PcOf(s, p).Spawn?
    case StoreAgent(p) => PcOf(s, p).Store?
  }

  /** One step; a handler that finds the cap reached pauses the plan and is done. A step that is not enabled is
      skipped. */
  function Do(s: State, cap: nat, step: Step): State {
    if !Enabled(s, step) then s
    else
      match step
      case CiFixRead(p, t) =>
        s.(procs := s.procs[p := if Count(s, t) >= cap then Idle else Insert(t, Count(s, t) + 1)])
      case ResolverRead(p, t) =>
        s.(procs := s.procs[p := Recheck(t, Count(s, t) + 1)])
      case ResolverRecheck(p) =>
        var pc := s.procs[p];
        s.(procs := s.procs[p := if Count(s, pc.task) >= cap then Idle else Insert(pc.task, pc.attempt)])
      case InsertRow(p) =>
        // ON CONFLICT DO NOTHING: inserting an existing number changes nothing.
        var pc := s.procs[p];
        s.(rows := s.rows[pc.task := Rows(s, pc.task) + {pc.attempt}],
           procs := s.procs[p := Spawn(pc.task, pc.attempt)])
      case StartAgent(p) =>
        var pc := s.procs[p];
        s.(agents := s.agents + [Agent(pc.task, pc.attempt, p)],
           procs := s.procs[p := Store(pc.task, pc.attempt, |s.agents|)])
      case StoreAgent(p) =>
        // An UPDATE by task and number: a second agent of the same number replaces the first.
        var pc := s.procs[p];
        s.(stored := s.stored[(pc.task, pc.attempt) := pc.agent], procs := s.procs[p := Idle])
  }

  const Init := State(map[], map[], map[], [])

  /** The state after an arbitrary interleaving of steps. */
  function After(cap: nat, steps: seq<Step>): State {
    if steps == [] then Init else Do(After(cap, steps[..|steps| - 1]), cap, steps[|steps| - 1])
  }

  // ---------------------------------------------------------------- numbers stay gapless and within the cap

  function UpTo(k: nat): (r: set<nat>)
    ensures forall n :: n in r <==> 1 <= n <= k
    ensures |r| == k
  {
    if k == 0 then {} else UpTo(k - 1) + {k}
  }

  ghost predicate TaskOk(s: State, cap: nat, t: Task) {
    Count(s, t) <= cap && Rows(s, t) == UpTo(Count(s, t))
  }

  ghost predicate ProcOk(s: State, cap: nat, pc: Pc) {
    match pc
    case Idle => true
    case Recheck(t, a) => 1 <= a <= Count(s, t) + 1
    case Insert(t, a) => 1 <= a <= Count(s, t) + 1 && a <= cap
    case Spawn(t, a) => a in Rows(s, t)
    case Store(t, a, _) => a in Rows(s, t)
  }

  ghost predicate Inv(s: State, cap: nat) {
    && (forall t :: TaskOk(s, cap, t))
    && (forall p :: p in s.procs ==> ProcOk(s, cap, s.procs[p]))
    && (forall i :: 0 <= i < |s.agents| ==> s.agents[i].attempt in Rows(s, s.agents[i].task))
  }

  lemma {:induction false} InsertKeepsGapless(s: State, cap: nat, t: Task, a: nat)
    requires TaskOk(s, cap, t) && 1 <= a <= Count(s, t) + 1 && a <= cap
    ensures var k := if a <= Count(s, t) then Count(s, t) else a;
            Rows(s, t) + {a} == UpTo(k) && |Rows(s, t) + {a}| == k && Count(s, t) <= k <= cap
  {
    var k := if a <= Count(s, t) then Count(s, t) else a;
    assert Rows(s, t) + {a} == UpTo(k);
  }

  lemma {:induction false} RowsGrow(s: State, cap: nat, step: Step, t: Task)
    requires Inv(s, cap)
    ensures TaskOk(Do(s, cap, step), cap, t)
    ensures Rows(s, t) <= Rows(Do(s, cap, step), t) && Count(s, t) <= Count(Do(s, cap, step), t)
  {
    assert TaskOk(s, cap, t);
    if step.InsertRow? && Enabled(s, step) {
      var pc := s.procs[step.p];
      assert TaskOk(s, cap, pc.task) && ProcOk(s, cap, pc);
      InsertKeepsGapless(s, cap, pc.task, pc.attempt);
    }
  }

  /** Growing rows never invalidate a handler's position. */
  lemma {:induction false} ProcGrows(s: State, r: State, cap: nat, pc: Pc)
    requires ProcOk(s, cap, pc)
    requires forall t :: Rows(s, t) <= Rows(r, t) && Count(s, t) <= Count(r, t)
    ensures ProcOk(r, cap, pc)
  {
    if !pc.Idle? {
      assert Rows(s, pc.task) <= Rows(r, pc.task) && Count(s, pc.task) <= Count(r, pc.task);
    }
  }

  /** The position a handler reaches by its own step is right. */
  lemma {:induction false} MovedProcOk(s: State, cap: nat, step: Step)
    requires Inv(s, cap) && Enabled(s, step)
    ensures step.p in Do(s, cap, step).procs && ProcOk(Do(s, cap, step), cap, Do(s, cap, step).procs[step.p])
  {
    if step.p in s.procs {
      assert ProcOk(s, cap, s.procs[step.p]);
    }
  }

  lemma {:induction false} StepKeepsInv(s: State, cap: nat, step: Step)
    requires Inv(s, cap)
    ensures Inv(Do(s, cap, step), cap)
  {
    if Enabled(s, step) {
      var r := Do(s, cap, step);
      forall t ensures TaskOk(r, cap, t) && Rows(s, t) <= Rows(r, t) && Count(s, t) <= Count(r, t) {
        RowsGrow(s, cap, step, t);
      }
      MovedProcOk(s, cap, step);
      forall p | p in r.procs ensures ProcOk(r, cap, r.procs[p]) {
        if p != step.p {
          ProcGrows(s, r, cap, s.procs[p]);
        }
      }
      AgentsRecorded(s, cap, step);
    }
  }

  lemma {:induction false} AgentsRecorded(s: State, cap: nat, step: Step)
    requires Inv(s, cap) && Enabled(s, step)
    ensures var r := Do(s, cap, step);
            forall i :: 0 <= i < |r.agents| ==> r.agents[i].attempt in Rows(r, r.agents[i].task)
  {
    var r := Do(s, cap, step);
    assert ProcOk(s, cap, PcOf(s, step.p));
    forall i | 0 <= i < |r.agents| ensures r.agents[i].attempt in Rows(r, r.agents[i].task) {
      RowsGrow(s, cap, step, r.agents[i].task);
      assert i < |s.agents| ==> r.agents[i] == s.agents[i];
    }
  }

  /** Whatever the interleaving, the attempt numbers recorded for a task are exactly 1..k with k at most the cap. */
  lemma {:induction false} AttemptsAreGaplessAndCapped(cap: nat, steps: seq<Step>)
    ensures Inv(After(cap, steps), cap)
    decreases |steps|
  {
    if steps == [] {
      assert UpTo(0) == {};
    } else {
      AttemptsAreGaplessAndCapped(cap, steps[..|steps| - 1]);
      StepKeepsInv(After(cap, steps[..|steps| - 1]), cap, steps[|steps| - 1]);
    }
  }

  lemma {:induction false} AfterOneMore(cap: nat, steps: seq<Step>, step: Step)
    ensures After(cap, steps + [step]) == Do(After(cap, steps), cap, step)
  {
    assert (steps + [step])[..|steps|] == steps;
  }

  // ---------------------------------------------------------------- how many agents the cap allows

  /** The processes that ever handle a completion of the task. */
  function Handlers(steps: seq<Step>, t: Task): set<Pid> {
    if steps == [] then {}
    else
      var last := steps[|steps| - 1];
      Handlers(steps[..|steps| - 1], t)
      + if (last.CiFixRead? || last.ResolverRead?) && last.t == t then {last.p} else {}
  }

  /** The agents started for t, as their numbers and starters. */
  ghost function StartsOf(agents: seq<Agent>, t: Task): seq<(nat, Pid)> {
    if agents == [] then []
    else
      var a := agents[|agents| - 1];
      StartsOf(agents[..|agents| - 1], t) + if a.task == t then [(a.attempt, a.starter)] else []
  }

  ghost function AgentsOf(agents: seq<Agent>, t: Task): nat {
    |StartsOf(agents, t)|
  }

  /** A process on its way to an agent has not started one of that number, or a higher one, for the task before. */
  ghost predicate Ascends(s: State, p: Pid, pc: Pc) {
    (pc.Recheck? || pc.Insert? || pc.Spawn?) ==>
      forall i :: 0 <= i < |s.agents| && s.agents[i].starter == p && s.agents[i].task == pc.task ==>
        s.agents[i].attempt < pc.attempt
  }

  ghost predicate HandlersInv(s: State, cap: nat, steps: seq<Step>) {
    && Inv(s, cap) && NoDup(s.agents)
    && (forall p :: p in s.procs ==> Ascends(s, p, s.procs[p]))
    && AllHandle(s, steps)
  }

  lemma {:induction false} StepAscends(s: State, cap: nat, step: Step)
    requires Inv(s, cap) && NoDup(s.agents) && (forall p :: p in s.procs ==> Ascends(s, p, s.procs[p]))
    ensures NoDup(Do(s, cap, step).agents)
    ensures forall p :: p in Do(s, cap, step).procs ==> Ascends(Do(s, cap, step), p, Do(s, cap, step).procs[p])
  {
    if Enabled(s, step) {
      var r := Do(s, cap, step);
      forall p | p in r.procs ensures Ascends(r, p, r.procs[p]) {
        if p in s.procs {
          assert Ascends(s, p, s.procs[p]);
        }
        if p == step.p && (step.CiFixRead? || step.ResolverRead?) {
          NumbersAreUsed(s, cap, step.t);
        }
      }
    }
  }

  lemma {:induction false} NumbersAreUsed(s: State, cap: nat, t: Task)
    requires Inv(s, cap)
    ensures forall i :: 0 <= i < |s.agents| && s.agents[i].task == t ==> 1 <= s.agents[i].attempt <= Count(s, t)
    ensures Count(s, t) <= cap
  {
    assert TaskOk(s, cap, t);
  }

  lemma {:induction false} HandlersGrow(steps: seq<Step>, step: Step, t: Task)
    ensures Handlers(steps + [step], t)
            == Handlers(steps, t) + if (step.CiFixRead? || step.ResolverRead?) && step.t == t then {step.p} else {}
  {
    assert (steps + [step])[..|steps|] == steps;
  }

  /** Whoever is at work on a task, or started an agent for it, handles it. */
  ghost predicate AllHandle(s: State, steps: seq<Step>) {
    && (forall p :: p in s.procs && !s.procs[p].Idle? ==> p in Handlers(steps, s.procs[p].task))
    && (forall i :: 0 <= i < |s.agents| ==> s.agents[i].starter in Handlers(steps, s.agents[i].task))
  }

  lemma {:induction false} StepKeepsHandlers(s: State, cap: nat, steps: seq<Step>, step: Step)
    requires AllHandle(s, steps)
    ensures AllHandle(Do(s, cap, step), steps + [step])
  {
    var r, all := Do(s, cap, step), steps + [step];
    forall p | p in r.procs && !r.procs[p].Idle? ensures p in Handlers(all, r.procs[p].task) {
      HandlersGrow(steps, step, r.procs[p].task);
    }
    forall i | 0 <= i < |r.agents| ensures r.agents[i].starter in Handlers(all, r.agents[i].task) {
      HandlersGrow(steps, step, r.agents[i].task);
    }
  }

  lemma {:induction false} RunsKeepHandlers(cap: nat, steps: seq<Step>)
    ensures HandlersInv(After(cap, steps), cap, steps)
    decreases |steps|
  {
    if steps == [] {
      AttemptsAreGaplessAndCapped(cap, []);
    } else {
      var front, last := steps[..|steps| - 1], steps[|steps| - 1];
      RunsKeepHandlers(cap, front);
      StepKeepsInv(After(cap, front), cap, last);
      StepAscends(After(cap, front), cap, last);
      StepKeepsHandlers(After(cap, front), cap, front, last);
      assert front + [last] == steps;
    }
  }

  function Pairs(cap: nat, pids: set<Pid>): set<(nat, Pid)> {
    set n, p | n in UpTo(cap) && p in pids :: (n, p)
  }

  lemma {:induction false} PairsCount(cap: nat, pids: set<Pid>)
    ensures |Pairs(cap, pids)| == cap * |pids|
  {
    if cap == 0 {
      assert Pairs(cap, pids) == {};
    } else {
      PairsCount(cap - 1, pids);
      PairsSplit(cap, pids);
      OneTimesMore(cap, |pids|);
    }
  }

  lemma {:induction false} OneTimesMore(k: nat, n: nat)
    requires k > 0
    ensures (k - 1) * n + n == k * n
  {
  }

  lemma {:induction false} PairsSplit(cap: nat, pids: set<Pid>)
    requires cap > 0
    ensures |Pairs(cap, pids)| == |Pairs(cap - 1, pids)| + |pids|
  {
    RowPairsCount(cap, pids);
    assert Pairs(cap, pids) == Pairs(cap - 1, pids) + RowPairs(cap, pids);
    assert Pairs(cap - 1, pids) !! RowPairs(cap, pids);
  }

  function RowPairs(n: nat, pids: set<Pid>): set<(nat, Pid)> {
    set p | p in pids :: (n, p)
  }

  lemma {:induction false} RowPairsCount(n: nat, pids: set<Pid>)
    ensures |RowPairs(n, pids)| == |pids|
    decreases |pids|
  {
    if pids == {} {
      assert RowPairs(n, pids) == {};
    } else {
      var p :| p in pids;
      RowPairsCount(n, pids - {p});
      assert RowPairs(n, pids) == RowPairs(n, pids - {p}) + {(n, p)};
    }
  }

  lemma {:induction false} StartsAre(agents: seq<Agent>, t: Task)
    requires NoDup(agents)
    ensures NoDup(StartsOf(agents, t))
    ensures forall n, p :: (n, p) in StartsOf(agents, t) ==> Agent(t, n, p) in agents
  {
    if agents != [] {
      StartsAre(agents[..|agents| - 1], t);
    }
  }

  // ---------------------------------------------------------------- and they can get that many

  /** m processes only, all idle; k rounds are over, in each of which all m started an agent of the same number. */
  ghost predicate RoundOver(cap: nat, steps: seq<Step>, k: nat, m: nat, t: Task) {
    var s := After(cap, steps);
    && Handlers(steps, t) <= UpTo(m) && AgentsOf(s.agents, t) == k * m
    && Rows(s, t) == (if m == 0 then {} else UpTo(k)) && forall p: nat :: PcOf(s, p) == Idle
  }

  /** Of the m processes, j have read the count. */
  ghost predicate SomeRead(cap: nat, steps: seq<Step>, base: nat, k: nat, m: nat, j: nat, t: Task) {
    var s := After(cap, steps);
    && Handlers(steps, t) <= UpTo(m) && AgentsOf(s.agents, t) == base && Rows(s, t) == UpTo(k)
    && forall p: nat :: PcOf(s, p) == if 1 <= p <= j then Insert(t, k + 1) else Idle
  }

  /** All m have read, and j of them have inserted, started and stored. */
  ghost predicate SomeDone(cap: nat, steps: seq<Step>, base: nat, k: nat, m: nat, j: nat, t: Task) {
    var s := After(cap, steps);
    && Handlers(steps, t) <= UpTo(m) && AgentsOf(s.agents, t) == base + j
    && Rows(s, t) == UpTo(if j == 0 then k else k + 1)
    && forall p: nat :: PcOf(s, p) == if j < p <= m then Insert(t, k + 1) else Idle
  }

  lemma {:induction false} AllRead(cap: nat, before: seq<Step>, base: nat, k: nat, m: nat, j: nat, t: Task)
    returns (steps: seq<Step>)
    requires SomeRead(cap, before, base, k, m, 0, t) && k < cap && j <= m
    ensures SomeRead(cap, steps, base, k, m, j, t)
  {
    if j == 0 {
      steps := before;
    } else {
      var most := AllRead(cap, before, base, k, m, j - 1, t);
      steps := most + [CiFixRead(j, t)];
      AfterOneMore(cap, most, CiFixRead(j, t));
      assert steps[..|most|] == most;
      var s, r := After(cap, most), After(cap, steps);
      assert PcOf(s, j) == Idle && Count(s, t) == k;
      assert forall p: nat :: PcOf(r, p) == if p == j then Insert(t, k + 1) else PcOf(s, p);
    }
  }

  lemma {:induction false} OneDone(cap: nat, most: seq<Step>, base: nat, k: nat, m: nat, j: nat, t: Task)
    returns (steps: seq<Step>)
    requires 0 < j <= m && SomeDone(cap, most, base, k, m, j - 1, t)
    ensures SomeDone(cap, steps, base, k, m, j, t)
  {
    steps := ThreeSteps(cap, most, j, t);
    var s := After(cap, most);
    StartOne(s, cap, j, t, k + 1);
    StartedOne(s, After(cap, steps), j, t, k + 1);
    assert Rows(After(cap, steps), t) == UpTo(k + 1);
  }

  lemma {:induction false} ThreeSteps(cap: nat, most: seq<Step>, p: Pid, t: Task) returns (steps: seq<Step>)
    ensures Handlers(steps, t) == Handlers(most, t)
    ensures After(cap, steps) == Do(Do(Do(After(cap, most), cap, InsertRow(p)), cap, StartAgent(p)), cap, StoreAgent(p))
  {
    var a, b, c := InsertRow(p), StartAgent(p), StoreAgent(p);
    AfterOneMore(cap, most, a);
    AfterOneMore(cap, most + [a], b);
    AfterOneMore(cap, most + [a] + [b], c);
    steps := most + [a] + [b] + [c];
    HandlersGrow(most, a, t);
    HandlersGrow(most + [a], b, t);
    HandlersGrow(most + [a] + [b], c, t);
  }

  lemma {:induction false} StartedOne(s: State, r: State, p: Pid, t: Task, n: nat)
    requires r.rows == s.rows[t := Rows(s, t) + {n}] && r.procs == s.procs[p := Idle]
    requires r.agents == s.agents + [Agent(t, n, p)]
    ensures AgentsOf(r.agents, t) == AgentsOf(s.agents, t) + 1 && Rows(r, t) == Rows(s, t) + {n}
    ensures forall q: nat :: PcOf(r, q) == if q == p then Idle else PcOf(s, q)
  {
    assert r.agents[..|s.agents|] == s.agents;
  }

  lemma {:induction false} StartOne(s: State, cap: nat, p: Pid, t: Task, n: nat)
    requires PcOf(s, p) == Insert(t, n)
    ensures Do(Do(Do(s, cap, InsertRow(p)), cap, StartAgent(p)), cap, StoreAgent(p))
            == State(s.rows[t := Rows(s, t) + {n}], s.stored[(t, n) := |s.agents|], s.procs[p := Idle],
                     s.agents + [Agent(t, n, p)])
  {
    var s1 := Do(s, cap, InsertRow(p));
    assert s1.procs == s.procs[p := Spawn(t, n)];
    var s2 := Do(s1, cap, StartAgent(p));
    assert s2.procs == s.procs[p := Store(t, n, |s.agents|)];
  }

  lemma {:induction false} AllDone(cap: nat, before: seq<Step>, base: nat, k: nat, m: nat, j: nat, t: Task)
    returns (steps: seq<Step>)
    requires SomeDone(cap, before, base, k, m, 0, t) && j <= m
    ensures SomeDone(cap, steps, base, k, m, j, t)
  {
    if j == 0 {
      steps := before;
    } else {
      var most := AllDone(cap, before, base, k, m, j - 1, t);
      steps := OneDone(cap, most, base, k, m, j, t);
    }
  }

  lemma {:induction false} Rounds(cap: nat, k: nat, m: nat, t: Task) returns (steps: seq<Step>)
    requires k <= cap
    ensures RoundOver(cap, steps, k, m, t)
  {
    if k == 0 || m == 0 {
      steps := [];
      assert UpTo(0) == {};
    } else {
      var before := Rounds(cap, k - 1, m, t);
      var base := (k - 1) * m;
      assert SomeRead(cap, before, base, k - 1, m, 0, t);
      var read := AllRead(cap, before, base, k - 1, m, m, t);
      assert SomeDone(cap, read, base, k - 1, m, 0, t);
      steps := AllDone(cap, read, base, k - 1, m, m, t);
      OneTimesMore(k, m);
    }
  }

  // ---------------------------------------------------------------- one handler of the task at a time

  predicate OnTask(pc: Pc, t: Task) {
    !pc.Idle? && pc.task == t
  }

  ghost predicate OneAtATime(s: State, t: Task) {
    forall p, q :: p in s.procs && q in s.procs && OnTask(s.procs[p], t) && OnTask(s.procs[q], t) ==> p == q
  }

  /** At no time are two handlers of the task under way; handlers of other tasks do not matter. */
  ghost predicate Sequential(cap: nat, steps: seq<Step>, t: Task) {
    forall k :: 0 <= k <= |steps| ==> OneAtATime(After(cap, steps[..k]), t)
  }

  ghost predicate Fresh(s: State, pc: Pc) {
    match pc
    case Idle => true
    case Store(_, _, _) => true
    case Spawn(t, a) => forall i :: 0 <= i < |s.agents| && s.agents[i].task == t ==> s.agents[i].attempt != a
    case _ => pc.attempt == Count(s, pc.task) + 1
  }

  ghost predicate DistinctAttempts(agents: seq<Agent>, t: Task) {
    forall i, j :: 0 <= i < j < |agents| && agents[i].task == t && agents[j].task == t ==>
      agents[i].attempt != agents[j].attempt
  }

  ghost predicate SequentialInv(s: State, cap: nat, t: Task) {
    && Inv(s, cap) && DistinctAttempts(s.agents, t)
    && forall p :: p in s.procs && OnTask(s.procs[p], t) ==> Fresh(s, s.procs[p])
  }

  lemma {:induction false} SequentialStep(s: State, cap: nat, step: Step, t: Task)
    requires SequentialInv(s, cap, t) && OneAtATime(s, t) && OneAtATime(Do(s, cap, step), t)
    ensures SequentialInv(Do(s, cap, step), cap, t)
  {
    StepKeepsInv(s, cap, step);
    if Enabled(s, step) {
      var r := Do(s, cap, step);
      NumbersAreUsed(s, cap, t);
      assert step.p in r.procs;
      forall p | p in r.procs && OnTask(r.procs[p], t) ensures Fresh(r, r.procs[p]) {
        if p in s.procs && OnTask(s.procs[p], t) {
          assert Fresh(s, s.procs[p]);
        }
      }
    }
  }

  lemma {:induction false} SequentialRunsKeep(cap: nat, steps: seq<Step>, t: Task)
    requires Sequential(cap, steps, t)
    ensures SequentialInv(After(cap, steps), cap, t)
    decreases |steps|
  {
    if steps == [] {
      AttemptsAreGaplessAndCapped(cap, []);
    } else {
      var front := steps[..|steps| - 1];
      forall k | 0 <= k <= |front| ensures OneAtATime(After(cap, front[..k]), t) {
        assert front[..k] == steps[..k];
      }
      SequentialRunsKeep(cap, front, t);
      assert front[..|front|] == front && steps[..|steps|] == steps;
      SequentialStep(After(cap, front), cap, steps[|steps| - 1], t);
    }
  }

  ghost function AttemptsOf(agents: seq<Agent>, t: Task): seq<nat> {
    if agents == [] then []
    else
      var a := agents[|agents| - 1];
      AttemptsOf(agents[..|agents| - 1], t) + if a.task == t then [a.attempt] else []
  }

  lemma {:induction false} AttemptsOfTask(agents: seq<Agent>, t: Task)
    requires DistinctAttempts(agents, t)
    ensures NoDup(AttemptsOf(agents, t)) && |AttemptsOf(agents, t)| == AgentsOf(agents, t)
    ensures forall n :: n in AttemptsOf(agents, t) ==>
              exists i :: 0 <= i < |agents| && agents[i].task == t && agents[i].attempt == n
  {
    if agents != [] {
      var front := agents[..|agents| - 1];
      assert forall i :: 0 <= i < |front| ==> front[i] == agents[i];
      AttemptsOfTask(front, t);
      forall n | n in AttemptsOf(agents, t)
        ensures exists i :: 0 <= i < |agents| && agents[i].task == t && agents[i].attempt == n
      {
        if n in AttemptsOf(front, t) {
          var i :| 0 <= i < |front| && front[i].task == t && front[i].attempt == n;
          assert agents[i] == front[i];
        } else {
          assert agents[|agents| - 1].attempt == n;
        }
      }
      var last := agents[|agents| - 1];
      forall n | n in AttemptsOf(front, t) && last.task == t ensures n != last.attempt {
        var i :| 0 <= i < |front| && front[i].task == t && front[i].attempt == n;
        assert agents[i] == front[i];
      }
      if last.task == t {
        assert last.attempt !in AttemptsOf(front, t);
        assert forall i :: 0 <= i < |AttemptsOf(front, t)| ==> AttemptsOf(front, t)[i] in AttemptsOf(front, t);
      }
    }
  }

  // ---------------------------------------------------------------- whose completion is found

  /** `fix_attempt_for_agent` finds the row of the agent. */
  predicate Registered(s: State, i: nat) {
    i < |s.agents| && (s.agents[i].task, s.agents[i].attempt) in s.stored
    && s.stored[(s.agents[i].task, s.agents[i].attempt)] == i
  }

  /** Every agent is stored, or about to be; a row only ever names an agent of its own number. */
  ghost predicate StoredInv(s: State) {
    && (forall k :: k in s.stored ==> NamesOwn(s, k))
    && (forall p :: p in s.procs && s.procs[p].Store? ==> StoresOwn(s, s.procs[p]))
    && (forall i :: 0 <= i < |s.agents| ==> StoredOrAbout(s, i))
  }

  ghost predicate NamesOwn(s: State, k: (Task, nat))
    requires k in s.stored
  {
    s.stored[k] < |s.agents| && (s.agents[s.stored[k]].task, s.agents[s.stored[k]].attempt) == k
  }

  ghost predicate StoresOwn(s: State, pc: Pc)
    requires pc.Store?
  {
    pc.agent < |s.agents| && s.agents[pc.agent].task == pc.task && s.agents[pc.agent].attempt == pc.attempt
  }

  ghost predicate StoredOrAbout(s: State, i: nat)
    requires i < |s.agents|
  {
    || (s.agents[i].task, s.agents[i].attempt) in s.stored
    || exists p :: p in s.procs && s.procs[p] == Store(s.agents[i].task, s.agents[i].attempt, i)
  }

  lemma {:induction false} StepKeepsStored(s: State, cap: nat, step: Step)
    requires StoredInv(s)
    ensures StoredInv(Do(s, cap, step))
  {
    if Enabled(s, step) {
      var r := Do(s, cap, step);
      forall k | k in r.stored ensures NamesOwn(r, k) {
        if step.StoreAgent? {
          assert StoresOwn(s, s.procs[step.p]);
        }
        assert k in s.stored ==> NamesOwn(s, k);
      }
      forall p | p in r.procs && r.procs[p].Store? ensures StoresOwn(r, r.procs[p]) {
        assert p in s.procs && s.procs[p].Store? ==> StoresOwn(s, s.procs[p]);
      }
      forall i | 0 <= i < |r.agents| ensures StoredOrAbout(r, i) {
        if i < |s.agents| {
          StaysStored(s, cap, step, i);
        } else {
          assert r.procs[step.p] == Store(r.agents[i].task, r.agents[i].attempt, i);
        }
      }
    }
  }

  lemma {:induction false} StaysStored(s: State, cap: nat, step: Step, i: nat)
    requires Enabled(s, step) && i < |s.agents| && StoredOrAbout(s, i)
    ensures i < |Do(s, cap, step).agents| && StoredOrAbout(Do(s, cap, step), i)
  {
    var r, a := Do(s, cap, step), s.agents[i];
    assert r.agents[i] == a;
    if (a.task, a.attempt) !in s.stored {
      var p :| p in s.procs && s.procs[p] == Store(a.task, a.attempt, i);
      assert p == step.p || (p in r.procs && r.procs[p] == s.procs[p]);
    }
  }

  lemma {:induction false} RunsKeepStored(cap: nat, steps: seq<Step>)
    ensures StoredInv(After(cap, steps))
    decreases |steps|
  {
    if steps != [] {
      RunsKeepStored(cap, steps[..|steps| - 1]);
      StepKeepsStored(After(cap, steps[..|steps| - 1]), cap, steps[|steps| - 1]);
    }
  }

  ghost predicate NumbersUsedOnce(s: State) {
    forall i, j :: 0 <= i < j < |s.agents| ==>
      s.agents[i].task != s.agents[j].task || s.agents[i].attempt != s.agents[j].attempt
  }

  // ---------------------------------------------------------------- inserts that find their number taken

  /** The insert of this step affects no row: its number is on record already. */
  predicate Conflicts(s: State, step: Step) {
    step.InsertRow? && Enabled(s, step) && s.procs[step.p].attempt in Rows(s, s.procs[step.p].task)
  }

  ghost predicate NoConflicts(cap: nat, steps: seq<Step>) {
    forall i :: 0 <= i < |steps| ==> !ConflictsAt(cap, steps, i)
  }

  predicate ConflictsAt(cap: nat, steps: seq<Step>, i: nat)
    requires i < |steps|
  {
    Conflicts(After(cap, steps[..i]), steps[i])
  }

  /** Who inserted an attempt number: an agent started with it, or a process about to start one. */
  datatype Holder = Started(i: nat) | Starting(p: Pid)

  predicate Holds(s: State, h: Holder, t: Task, n: nat) {
    match h
    case Started(i) => i < |s.agents| && s.agents[i].task == t && s.agents[i].attempt == n
    case Starting(p) => p in s.procs && s.procs[p] == Spawn(t, n)
  }

  ghost predicate HeldOnce(s: State) {
    forall t, n, g, h :: Holds(s, g, t, n) && Holds(s, h, t, n) ==> g == h
  }

  ghost predicate Held(s: State, t: Task, n: nat) {
    exists h :: Holds(s, h, t, n)
  }

  /** A number is on record exactly when somebody inserted it. */
  ghost predicate RecordedAreHeld(s: State) {
    forall t, n :: n in Rows(s, t) <==> Held(s, t, n)
  }

  /** What becomes of a holder in one step. */
  function Next(s: State, step: Step, h: Holder): Holder {
    if step.StartAgent? && Enabled(s, step) && h == Starting(step.p) then Started(|s.agents|) else h
  }

  lemma {:induction false} StaysHolder(s: State, cap: nat, step: Step, h: Holder, t: Task, n: nat)
    requires Holds(s, h, t, n)
    ensures Holds(Do(s, cap, step), Next(s, step, h), t, n)
  {
    var r := Do(s, cap, step);
    if h.Started? && Enabled(s, step) {
      assert r.agents[h.i] == s.agents[h.i];
    }
  }

  /** A holder after a step was one before, or its insert was that step. */
  lemma {:induction false} WasHolder(s: State, cap: nat, step: Step, h: Holder, t: Task, n: nat) returns (g: Holder)
    requires Holds(Do(s, cap, step), h, t, n)
    ensures (Holds(s, g, t, n) && h == Next(s, step, g))
            || (step.InsertRow? && Enabled(s, step) && h == Starting(step.p) && s.procs[step.p] == Insert(t, n))
  {
    var r := Do(s, cap, step);
    g := h;
    if Enabled(s, step) && step.StartAgent? && h == Started(|s.agents|) {
      g := Starting(step.p);
    } else if h.Started? && Enabled(s, step) {
      assert h.i < |s.agents| ==> r.agents[h.i] == s.agents[h.i];
    }
  }

  lemma {:induction false} StepKeepsRecorded(s: State, cap: nat, step: Step)
    requires RecordedAreHeld(s)
    ensures RecordedAreHeld(Do(s, cap, step))
  {
    var r := Do(s, cap, step);
    forall t, n ensures n in Rows(r, t) <==> Held(r, t, n) {
      if n in Rows(s, t) {
        assert Held(s, t, n);
        var h :| Holds(s, h, t, n);
        StaysHolder(s, cap, step, h, t, n);
      } else if n in Rows(r, t) {
        assert Holds(r, Starting(step.p), t, n);
      }
      if Held(r, t, n) {
        var h :| Holds(r, h, t, n);
        var g := WasHolder(s, cap, step, h, t, n);
        if Holds(s, g, t, n) {
          assert Held(s, t, n);
        }
      }
    }
  }

  lemma {:induction false} StepKeepsHeldOnce(s: State, cap: nat, step: Step)
    requires RecordedAreHeld(s) && HeldOnce(s) && !Conflicts(s, step)
    ensures HeldOnce(Do(s, cap, step))
  {
    var r := Do(s, cap, step);
    forall t, n, g, h | Holds(r, g, t, n) && Holds(r, h, t, n) ensures g == h {
      var g0 := WasHolder(s, cap, step, g, t, n);
      var h0 := WasHolder(s, cap, step, h, t, n);
      if Holds(s, g0, t, n) || Holds(s, h0, t, n) {
        assert Held(s, t, n) && n in Rows(s, t);
      }
    }
  }

  lemma {:induction false} HeldTwiceStays(s: State, cap: nat, step: Step)
    requires RecordedAreHeld(s) && (!HeldOnce(s) || Conflicts(s, step))
    ensures !HeldOnce(Do(s, cap, step))
  {
    var r := Do(s, cap, step);
    if !HeldOnce(s) {
      var t, n, g, h :| Holds(s, g, t, n) && Holds(s, h, t, n) && g != h;
      StaysHolder(s, cap, step, g, t, n);
      StaysHolder(s, cap, step, h, t, n);
      assert Next(s, step, g) != Next(s, step, h);
    } else {
      var pc := s.procs[step.p];
      assert Held(s, pc.task, pc.attempt);
      var h :| Holds(s, h, pc.task, pc.attempt);
      StaysHolder(s, cap, step, h, pc.task, pc.attempt);
      assert Holds(r, Starting(step.p), pc.task, pc.attempt) && h != Starting(step.p);
    }
  }

  lemma {:induction false} HeldOnceExactly(cap: nat, steps: seq<Step>)
    ensures RecordedAreHeld(After(cap, steps))
    ensures HeldOnce(After(cap, steps)) <==> NoConflicts(cap, steps)
    decreases |steps|
  {
    if steps != [] {
      var n := |steps| - 1;
      var s, step := After(cap, steps[..n]), steps[n];
      HeldOnceExactly(cap, steps[..n]);
      StepKeepsRecorded(s, cap, step);
      forall i | 0 <= i < n ensures ConflictsAt(cap, steps[..n], i) == ConflictsAt(cap, steps, i) {
        assert steps[..n][..i] == steps[..i];
      }
      assert ConflictsAt(cap, steps, n) == Conflicts(s, step);
      if HeldOnce(s) && !Conflicts(s, step) {
        StepKeepsHeldOnce(s, cap, step);
      } else {
        HeldTwiceStays(s, cap, step);
      }
    }
  }

  /** When no start is under way, the holders are the agents. */
  lemma {:induction false} HeldOnceIsUsedOnce(s: State)
    requires forall p :: p in s.procs ==> s.procs[p].Idle?
    ensures HeldOnce(s) <==> NumbersUsedOnce(s)
  {
    if HeldOnce(s) {
      forall i, j | 0 <= i < j < |s.agents|
        ensures s.agents[i].task != s.agents[j].task || s.agents[i].attempt != s.agents[j].attempt
      {
        assert Holds(s, Started(i), s.agents[i].task, s.agents[i].attempt);
        assert Holds(s, Started(j), s.agents[j].task, s.agents[j].attempt);
      }
    }
    if NumbersUsedOnce(s) {
      forall t, n, g, h | Holds(s, g, t, n) && Holds(s, h, t, n) ensures g == h {
        assert g.Started? && h.Started?;
      }
    }
  }
}
