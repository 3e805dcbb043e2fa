/** What a drain or a flush does: which rows it lists, which prefix of them it lands, and what stops it
    (server-rs/src/auto_mode.rs, the deferred lists, the drain, the flush and the merge step). */
module Batches {
  import opened Util
  import opened AutoMode

  // ---------------------------------------------------------------- the list

  /** Listed row i is the most recent row its task can be drained from. */
  ghost predicate MostRecent(agents: seq<Agent>, i: AgentId, trigger: Option<AgentId>) {
    && i < |agents| && Drainable(agents, i, agents[i].task, trigger)
    && forall j :: i < j < |agents| ==> !Drainable(agents, j, agents[i].task, trigger)
  }

  /** Listed rows keep the order in which their tasks are first declared. */
  ghost predicate DeclarationOrder(agents: seq<Agent>, order: seq<Task>, list: seq<AgentId>) {
    && (forall i :: 0 <= i < |list| ==> list[i] < |agents| && agents[list[i]].task in order)
    && (forall i, j :: 0 <= i < j < |list| ==>
          IndexOf(order, agents[list[i]].task) < IndexOf(order, agents[list[j]].task))
  }

  /** No declared task with a drainable row is missed. */
  ghost predicate CoversTasks(agents: seq<Agent>, order: seq<Task>, trigger: Option<AgentId>, list: seq<AgentId>) {
    forall i :: 0 <= i < |agents| && Drainable(agents, i, agents[i].task, trigger) && agents[i].task in order ==>
      ListsTask(agents, list, agents[i].task)
  }

  ghost predicate ListsTask(agents: seq<Agent>, list: seq<AgentId>, t: Task) {
    exists k :: 0 <= k < |list| && list[k] < |agents| && agents[list[k]].task == t
  }

  lemma {:induction false} IndexBefore(order: seq<Task>, n: nat, t: Task)
    requires n <= |order| && t in order[..n]
    ensures t in order && IndexOf(order, t) < n
    decreases n
  {
    if order[0] != t {
      assert order[..n] == [order[0]] + order[1..][..n - 1];
      IndexBefore(order[1..], n - 1, t);
    }
  }

  ghost predicate RecentRows(agents: seq<Agent>, tasks: seq<Task>, trigger: Option<AgentId>, list: seq<AgentId>) {
    forall i :: 0 <= i < |list| ==> MostRecent(agents, list[i], trigger) && agents[list[i]].task in tasks
  }

  lemma {:induction false} LatestIsMostRecent(agents: seq<Agent>, t: Task, trigger: Option<AgentId>)
    requires Latest(agents, |agents|, t, trigger).Some?
    ensures MostRecent(agents, Latest(agents, |agents|, t, trigger).value, trigger)
    ensures agents[Latest(agents, |agents|, t, trigger).value].task == t
  {
    var i := Latest(agents, |agents|, t, trigger).value;
    assert Drainable(agents, i, t, trigger);
    forall j | i < j < |agents| ensures !Drainable(agents, j, agents[i].task, trigger) {
      assert !Drainable(agents, j, t, trigger);
    }
  }

  lemma {:induction false} ListedFromPrefix(agents: seq<Agent>, order: seq<Task>, n: nat, trigger: Option<AgentId>)
    requires n <= |order|
    ensures RecentRows(agents, order[..n], trigger, Listed(agents, order, n, trigger))
  {
    if n > 0 {
      var t := order[n - 1];
      ListedFromPrefix(agents, order, n - 1, trigger);
      assert order[..n] == order[..n - 1] + [t];
      var latest := Latest(agents, |agents|, t, trigger);
      if latest.Some? {
        LatestIsMostRecent(agents, t, trigger);
      }
      var more := if t !in order[..n - 1] && latest.Some? then [latest.value] else [];
      assert RecentRows(agents, [t], trigger, more);
    }
  }

  lemma {:induction false} DeclarationOrderAppend(agents: seq<Agent>, order: seq<Task>, n: nat, list: seq<AgentId>,
                                                  i: AgentId)
    requires n < |order| && i < |agents| && agents[i].task == order[n] && order[n] !in order[..n]
    requires DeclarationOrder(agents, order, list)
    requires forall k :: 0 <= k < |list| ==> agents[list[k]].task in order[..n]
    ensures DeclarationOrder(agents, order, list + [i])
  {
    forall k | 0 <= k < |list| ensures IndexOf(order, agents[list[k]].task) < n {
      IndexBefore(order, n, agents[list[k]].task);
    }
  }

  lemma {:induction false} ListedInOrder(agents: seq<Agent>, order: seq<Task>, n: nat, trigger: Option<AgentId>)
    requires n <= |order|
    ensures DeclarationOrder(agents, order, Listed(agents, order, n, trigger))
  {
    if n > 0 {
      ListedInOrder(agents, order, n - 1, trigger);
      ListedFromPrefix(agents, order, n - 1, trigger);
      var front, t := Listed(agents, order, n - 1, trigger), order[n - 1];
      var latest := Latest(agents, |agents|, t, trigger);
      if t !in order[..n - 1] && latest.Some? {
        DeclarationOrderAppend(agents, order, n - 1, front, latest.value);
      }
    }
  }

  lemma {:induction false} ListedHas(agents: seq<Agent>, order: seq<Task>, n: nat, trigger: Option<AgentId>, t: Task)
    requires n <= |order| && t in order[..n] && Latest(agents, |agents|, t, trigger).Some?
    ensures Latest(agents, |agents|, t, trigger).value in Listed(agents, order, n, trigger)
  {
    var front := order[..n - 1];
    assert order[..n] == front + [order[n - 1]];
    if t in front {
      ListedHas(agents, order, n - 1, trigger, t);
    }
  }

  /** The list is exact: in declaration order, one row per task, its most recent drainable one, no task missed. */
  lemma {:induction false} ListIsExact(agents: seq<Agent>, order: seq<Task>, trigger: Option<AgentId>)
    ensures var list := Listed(agents, order, |order|, trigger);
            && DeclarationOrder(agents, order, list) && CoversTasks(agents, order, trigger, list)
            && (forall i :: 0 <= i < |list| ==> MostRecent(agents, list[i], trigger)) && NoDup(list)
  {
    var list := Listed(agents, order, |order|, trigger);
    assert order[..|order|] == order;
    ListedInOrder(agents, order, |order|, trigger);
    ListedFromPrefix(agents, order, |order|, trigger);
    assert RecentRows(agents, order, trigger, list);
    ListCovers(agents, order, trigger);
  }

  lemma {:induction false} ListCovers(agents: seq<Agent>, order: seq<Task>, trigger: Option<AgentId>)
    ensures CoversTasks(agents, order, trigger, Listed(agents, order, |order|, trigger))
  {
    var list := Listed(agents, order, |order|, trigger);
    assert order[..|order|] == order;
    forall i | 0 <= i < |agents| && Drainable(agents, i, agents[i].task, trigger) && agents[i].task in order
      ensures ListsTask(agents, list, agents[i].task)
    {
      ListedHas(agents, order, |order|, trigger, agents[i].task);
      var latest := Latest(agents, |agents|, agents[i].task, trigger).value;
      var k :| 0 <= k < |list| && list[k] == latest;
      assert agents[list[k]].task == agents[i].task;
    }
  }

  // ---------------------------------------------------------------- one merge

  function BranchName(agent: Agent): Branch {
    match agent.branch case Some(b) => b case None => ""
  }

  function Branches(agents: seq<Agent>, ids: seq<AgentId>): (r: seq<Branch>)
    requires forall i :: 0 <= i < |ids| ==> ids[i] < |agents|
    ensures |r| == |ids| && forall i :: 0 <= i < |r| ==> r[i] == BranchName(agents[ids[i]])
  {
    seq(|ids|, i requires 0 <= i < |ids| => BranchName(agents[ids[i]]))
  }

  /** Nothing but rows, trunk and pushes differs. */
  predicate OnlyMerging(s: State, t: State) {
    && t.enabled == s.enabled && t.paused == s.paused && t.status == s.status && t.attempts == s.attempts
    && t.awaited == s.awaited && t.advances == s.advances
  }

  /** The rows after the given ones have landed: their branches are advertised no more, their deferral is over. */
  predicate RowLanded(a: Agent, b: Agent, own: bool, landed: seq<Branch>) {
    && b.task == a.task && b.role == a.role
    && b.branch == (if a.branch.Some? && a.branch.value in landed then None else a.branch)
    && b.mergeStatus == (if own && a.mergeStatus.Deferred? then NoStatus else a.mergeStatus)
  }

  predicate RowsLanded(s: seq<Agent>, t: seq<Agent>, ids: seq<AgentId>, landed: seq<Branch>) {
    |t| == |s| && forall j :: 0 <= j < |s| ==> RowLanded(s[j], t[j], j in ids, landed)
  }

  /** Exactly the given row has landed. */
  predicate LandedOne(s: State, t: State, id: AgentId) {
    && id < |s.agents| && s.agents[id].branch.Some? && OnlyMerging(s, t)
    && t.trunk == s.trunk + [BranchName(s.agents[id])]
    && RowsLanded(s.agents, t.agents, [id], [BranchName(s.agents[id])])
  }

  lemma {:induction false} MergedStep(s: State, w: World, k: nat, id: AgentId, push: bool)
    requires id < |s.agents|
    ensures var step := MergeStep(s, w, k, id, push);
            step.outcome.StepMerged? <==> s.agents[id].branch.Some? && w.merge(k).Lands?
    ensures var step := MergeStep(s, w, k, id, push);
            step.outcome.StepMerged? ==> LandedOne(s, step.state, id)
  {
  }

  lemma {:induction false} StepPushes(s: State, w: World, k: nat, id: AgentId, push: bool)
    requires id < |s.agents|
    ensures var step := MergeStep(s, w, k, id, push);
            step.state.pushes == if push && step.outcome.StepMerged? && w.merge(k) != Lands("")
                                 then s.pushes + [|step.state.trunk|] else s.pushes
  {
  }

  /** The original row is held, and a resolver row holds the next attempt. */
  predicate ResolverAt(s: State, t: State, w: World, id: AgentId)
    requires id < |s.agents|
  {
    var task, n := s.agents[id].task, CountAttempts(s.attempts, s.agents[id].task);
    && Enabled(s) && n < w.cap && s.agents[id].role.Work? && s.agents[id].branch.Some?
    && t.agents == s.agents[id := s.agents[id].(mergeStatus := Held)] + [Agent(task, Resolver(n + 1), None, Held)]
    && t.attempts == Record(s.attempts, task, n + 1, |s.agents|)
    && t.paused == s.paused
  }

  predicate OnlyPaused(s: State, t: State, reason: Reason) {
    t.paused == Some(reason) && t.agents == s.agents && t.attempts == s.attempts
  }

  /** The k-th merge does not land: trunk is left alone, and the plan is paused, saying why, or the row handed to a
      resolver. A resolver takes over a conflict on a work agent's branch, in worktrees, short of the cap. */
  predicate Halted(s: State, t: State, w: World, k: nat, id: AgentId)
    requires id < |s.agents|
  {
    && t.enabled == s.enabled && t.status == s.status && t.trunk == s.trunk && t.pushes == s.pushes
    && t.awaited == s.awaited && t.advances == s.advances
    && var a := s.agents[id];
       if a.branch.None? || w.merge(k).Breaks? then OnlyPaused(s, t, MergeFailed)
       else
         && w.merge(k).Conflicts?
         && if !a.role.Work? || !w.resolvers || !Enabled(s) then OnlyPaused(s, t, MergeConflict)
            else if CountAttempts(s.attempts, a.task) >= w.cap then OnlyPaused(s, t, ConflictUnresolved)
            else ResolverAt(s, t, w, id)
  }

  lemma {:induction false} HaltedStep(s: State, w: World, k: nat, id: AgentId, push: bool)
    requires id < |s.agents| && !MergeStep(s, w, k, id, push).outcome.StepMerged?
    ensures Halted(s, MergeStep(s, w, k, id, push).state, w, k, id)
    ensures MergeStep(s, w, k, id, push).outcome.StepPaused? ==> MergeStep(s, w, k, id, push).state.paused.Some?
    ensures MergeStep(s, w, k, id, push).outcome.StepResolving? ==>
        ResolverAt(s, MergeStep(s, w, k, id, push).state, w, id)
  {
  }

  // ---------------------------------------------------------------- whole batches

  predicate HaveBranches(agents: seq<Agent>, ids: seq<AgentId>) {
    forall i :: 0 <= i < |ids| ==> ids[i] < |agents| && agents[ids[i]].branch.Some?
  }

  /** Every row has a branch and no two rows share one. */
  predicate OwnBranches(agents: seq<Agent>, ids: seq<AgentId>) {
    && HaveBranches(agents, ids)
    && forall i, j :: 0 <= i < j < |ids| ==> agents[ids[i]].branch != agents[ids[j]].branch
  }

  lemma {:induction false} OwnBranchesBefore(s: seq<Agent>, t: seq<Agent>, id: AgentId, rest: seq<AgentId>)
    requires id < |s| && s[id].branch.Some? && (forall i :: 0 <= i < |rest| ==> rest[i] < |s|)
    requires RowsLanded(s, t, [id], [BranchName(s[id])]) && OwnBranches(t, rest)
    ensures OwnBranches(s, [id] + rest)
  {
    var ids := [id] + rest;
    forall i | 0 <= i < |ids| ensures ids[i] < |s| && s[ids[i]].branch.Some? {
      if i > 0 {
        assert ids[i] == rest[i - 1];
      }
    }
    forall i, j | 0 <= i < j < |ids| ensures s[ids[i]].branch != s[ids[j]].branch {
      assert ids[j] == rest[j - 1] && t[rest[j - 1]].branch.Some?;
      if i > 0 {
        assert ids[i] == rest[i - 1] && t[rest[i - 1]].branch.Some?;
      }
    }
  }

  lemma {:induction false} OwnBranchesAfter(s: seq<Agent>, t: seq<Agent>, id: AgentId, rest: seq<AgentId>)
    requires id < |s| && s[id].branch.Some? && (forall i :: 0 <= i < |rest| ==> rest[i] < |s|)
    requires RowsLanded(s, t, [id], [BranchName(s[id])]) && OwnBranches(s, [id] + rest)
    ensures OwnBranches(t, rest)
  {
    var ids := [id] + rest;
    forall i | 0 <= i < |rest| ensures t[rest[i]].branch == s[rest[i]].branch && s[rest[i]].branch.Some? {
      assert ids[i + 1] == rest[i] && ids[0] == id;
    }
    forall i, j | 0 <= i < j < |rest| ensures t[rest[i]].branch != t[rest[j]].branch {
      assert s[ids[i + 1]].branch != s[ids[j + 1]].branch;
    }
  }

  /** After the batch got as far as `mid`, having landed exactly the given rows. */
  predicate LandedExactly(s: State, mid: State, ids: seq<AgentId>) {
    && OwnBranches(s.agents, ids)
    && OnlyMerging(s, mid)
    && mid.trunk == s.trunk + Branches(s.agents, ids)
    && RowsLanded(s.agents, mid.agents, ids, Branches(s.agents, ids))
  }

  /** The state just before the merge that stops the batch, or at its end. */
  ghost function Before(s: State, w: World, list: seq<AgentId>, k: nat, pushLast: bool): (r: State)
    requires k <= |list| && AllRows(s, list)
    decreases |list| - k
  {
    if k == |list| then s
    else
      var step := MergeStep(s, w, k, list[k], pushLast && k == |list| - 1);
      if step.outcome.StepMerged? then Before(step.state, w, list, k + 1, pushLast) else s
  }

  lemma {:induction false} LandOneFirst(s: State, t: State, mid: State, id: AgentId, rest: seq<AgentId>)
    requires LandedOne(s, t, id) && LandedExactly(t, mid, rest)
    ensures LandedExactly(s, mid, [id] + rest)
  {
    var b, later := BranchName(s.agents[id]), Branches(t.agents, rest);
    OwnBranchesBefore(s.agents, t.agents, id, rest);
    SameBranches(s.agents, t.agents, id, rest);
    RowsCompose(s.agents, t.agents, mid.agents, id, rest, later);
    Associate(s.trunk, [b], later);
  }

  lemma {:induction false} SameBranches(s: seq<Agent>, t: seq<Agent>, id: AgentId, rest: seq<AgentId>)
    requires id < |s| && HaveBranches(t, rest) && RowsLanded(s, t, [id], [BranchName(s[id])])
    ensures forall i :: 0 <= i < |rest| ==> rest[i] < |s|
    ensures Branches(s, [id] + rest) == [BranchName(s[id])] + Branches(t, rest)
  {
    forall i | 0 <= i < |rest| ensures rest[i] < |s| && BranchName(s[rest[i]]) == BranchName(t[rest[i]]) {
      assert RowLanded(s[rest[i]], t[rest[i]], rest[i] in [id], [BranchName(s[id])]);
    }
    assert Branches(s, [id] + rest) == [BranchName(s[id])] + Branches(t, rest);
  }

  lemma {:induction false} RowsCompose(s: seq<Agent>, t: seq<Agent>, u: seq<Agent>, id: AgentId, rest: seq<AgentId>,
                                       later: seq<Branch>)
    requires id < |s| && RowsLanded(s, t, [id], [BranchName(s[id])]) && RowsLanded(t, u, rest, later)
    ensures RowsLanded(s, u, [id] + rest, [BranchName(s[id])] + later)
  {
    var b := BranchName(s[id]);
    var ids, landed := [id] + rest, [b] + later;
    forall j | 0 <= j < |s| ensures RowLanded(s[j], u[j], j in ids, landed) {
      assert RowLanded(s[j], t[j], j in [id], [b]);
      assert RowLanded(t[j], u[j], j in rest, later);
      assert j in ids <==> j == id || j in rest;
      assert forall c :: c in landed <==> c == b || c in later;
    }
  }

  /** The batch from the k-th row on landed its rows up to b.merged, reached `mid`, and was done or stopped there. */
  ghost predicate LandedPrefix(s: State, w: World, list: seq<AgentId>, k: nat, b: Batch, mid: State) {
    && k <= b.merged <= |list| && AllRows(mid, list) && b.stopped == (b.merged < |list|)
    && LandedExactly(s, mid, list[k..b.merged])
    && (if b.stopped then Halted(mid, b.state, w, b.merged, list[b.merged]) else b.state == mid)
  }

  lemma {:induction false} PrefixOneMore(s: State, t: State, w: World, list: seq<AgentId>, k: nat, b: Batch, mid: State)
    requires k < |list| && LandedOne(s, t, list[k])
    requires LandedPrefix(t, w, list, k + 1, b, mid)
    ensures LandedPrefix(s, w, list, k, b, mid)
  {
    LandOneFirst(s, t, mid, list[k], list[k + 1..b.merged]);
    assert list[k..b.merged] == [list[k]] + list[k + 1..b.merged];
  }

  lemma {:induction false} PrefixNone(s: State, w: World, list: seq<AgentId>, k: nat, b: Batch)
    requires k <= |list| && AllRows(s, list) && b.merged == k && b.stopped == (k < |list|)
    requires if b.stopped then Halted(s, b.state, w, k, list[k]) else b.state == s
    ensures LandedPrefix(s, w, list, k, b, s)
  {
    assert list[k..k] == [];
  }

  /** A batch lands a prefix of its list, each branch once, in order; then it is done, or the next merge stopped
      it. */
  lemma {:induction false} BatchLandsPrefix(s: State, w: World, list: seq<AgentId>, k: nat, pushLast: bool)
    requires k <= |list| && AllRows(s, list)
    ensures LandedPrefix(s, w, list, k, MergeAll(s, w, list, k, pushLast), Before(s, w, list, k, pushLast))
    decreases |list| - k
  {
    if k == |list| {
      PrefixNone(s, w, list, k, Batch(s, k, false));
    } else {
      var push := pushLast && k == |list| - 1;
      var step := MergeStep(s, w, k, list[k], push);
      if step.outcome.StepMerged? {
        MergedStep(s, w, k, list[k], push);
        BatchLandsPrefix(step.state, w, list, k + 1, pushLast);
        PrefixOneMore(s, step.state, w, list, k, MergeAll(step.state, w, list, k + 1, pushLast),
                      Before(step.state, w, list, k + 1, pushLast));
      } else {
        HaltedStep(s, w, k, list[k], push);
        PrefixNone(s, w, list, k, Batch(step.state, k, true));
      }
    }
  }

  /** Git landed each of them. */
  lemma {:induction false} PrefixLands(s: State, w: World, list: seq<AgentId>, k: nat, pushLast: bool)
    requires k <= |list| && AllRows(s, list)
    ensures forall j :: k <= j < MergeAll(s, w, list, k, pushLast).merged ==> w.merge(j).Lands?
    decreases |list| - k
  {
    if k < |list| {
      var push := pushLast && k == |list| - 1;
      MergedStep(s, w, k, list[k], push);
      MergeOneMore(s, w, list, k, pushLast);
      if MergeStep(s, w, k, list[k], push).outcome.StepMerged? {
        PrefixLands(MergeStep(s, w, k, list[k], push).state, w, list, k + 1, pushLast);
      }
    }
  }

  lemma {:induction false} MergeOneMore(s: State, w: World, list: seq<AgentId>, k: nat, pushLast: bool)
    requires k < |list| && AllRows(s, list)
    ensures var step := MergeStep(s, w, k, list[k], pushLast && k == |list| - 1);
            AllRows(step.state, list)
            && MergeAll(s, w, list, k, pushLast) ==
               if step.outcome.StepMerged? then MergeAll(step.state, w, list, k + 1, pushLast)
               else Batch(step.state, k, true)
  {
  }

  /** The pushes of a batch: one, of everything landed so far, exactly when the batch pushes its last merge, is not
      empty, lands as a whole, and the last merge reports a commit. A drain never pushes. */
  lemma {:induction false} BatchPushes(s: State, w: World, list: seq<AgentId>, k: nat, pushLast: bool)
    requires k <= |list| && AllRows(s, list)
    ensures var b := MergeAll(s, w, list, k, pushLast);
            b.state.pushes == if pushLast && !b.stopped && k < |list| && w.merge(|list| - 1) != Lands("")
                              then s.pushes + [|b.state.trunk|] else s.pushes
    decreases |list| - k
  {
    if k < |list| {
      var push := pushLast && k == |list| - 1;
      var step := MergeStep(s, w, k, list[k], push);
      StepPushes(s, w, k, list[k], push);
      MergeOneMore(s, w, list, k, pushLast);
      if step.outcome.StepMerged? {
        BatchPushes(step.state, w, list, k + 1, pushLast);
      }
    }
  }

  ghost predicate AllLand(w: World) {
    forall k :: w.merge(k).Lands?
  }

  /** When git refuses nothing, a batch lands as a whole if and only if every row still has a branch and no two
      rows share one: the first of two clears the branch of the second. */
  lemma {:induction false} BatchLandsExactly(s: State, w: World, list: seq<AgentId>, k: nat, pushLast: bool)
    requires k <= |list| && AllRows(s, list) && AllLand(w)
    ensures !MergeAll(s, w, list, k, pushLast).stopped <==> OwnBranches(s.agents, list[k..])
    decreases |list| - k
  {
    if k < |list| {
      var push := pushLast && k == |list| - 1;
      var step := MergeStep(s, w, k, list[k], push);
      MergedStep(s, w, k, list[k], push);
      assert list[k..] == [list[k]] + list[k + 1..];
      if step.outcome.StepMerged? {
        BatchLandsExactly(step.state, w, list, k + 1, pushLast);
        if OwnBranches(step.state.agents, list[k + 1..]) {
          OwnBranchesBefore(s.agents, step.state.agents, list[k], list[k + 1..]);
        }
        if OwnBranches(s.agents, list[k..]) {
          OwnBranchesAfter(s.agents, step.state.agents, list[k], list[k + 1..]);
        }
      } else {
        assert !HaveBranches(s.agents, list[k..]) by {
          assert list[k..][0] == list[k];
        }
      }
    }
  }

  // ---------------------------------------------------------------- flush and drain

  /** A flush lands a prefix of all deferred rows in declaration order; it issues one CI trigger, for the whole
      trunk, exactly when the whole non-empty list landed and the last merge reported a commit. */
  lemma {:induction false} FlushMeaning(s: State, w: World)
    ensures var list, b := FlushList(s, w), Flush(s, w);
            && (forall i :: 0 <= i < |list| ==> MostRecent(s.agents, list[i], None)) && NoDup(list)
            && b.merged <= |list| && b.stopped == (b.merged < |list|) && OwnBranches(s.agents, list[..b.merged])
            && b.state.trunk == s.trunk + Branches(s.agents, list[..b.merged])
            && b.state.pushes == (if list != [] && !b.stopped && w.merge(|list| - 1) != Lands("")
                                  then s.pushes + [|b.state.trunk|] else s.pushes)
  {
    var list := FlushList(s, w);
    ListIsExact(s.agents, if w.plan.None? then [] else AllTasks(w.plan.value), None);
    BatchLandsPrefix(s, w, list, 0, true);
    BatchPushes(s, w, list, 0, true);
    assert list[0..Flush(s, w).merged] == list[..Flush(s, w).merged];
  }

  // ---------------------------------------------------------------- deferred rows are not forgotten

  /** Since s the row's branch landed, or a resolver was started for its task. */
  ghost predicate Settled(s: State, t: State, i: AgentId)
    requires i < |s.agents| && s.trunk <= t.trunk
  {
    || (s.agents[i].branch.Some? && s.agents[i].branch.value in t.trunk[|s.trunk|..])
    || (exists r :: |s.agents| <= r < |t.agents| && ResolverRow(t.agents[r], s.agents[i].task))
  }

  predicate ResolverRow(agent: Agent, task: Task) {
    agent.role.Resolver? && agent.task == task
  }

  predicate RowKept(a: Agent, b: Agent) {
    b.task == a.task && b.role == a.role && (b.branch == a.branch || b.branch.None?)
  }

  /** Rows and trunk only grow, and a row stops being deferred only by being settled. */
  ghost predicate DeferralKept(s: State, t: State) {
    && |s.agents| <= |t.agents| && s.trunk <= t.trunk
    && (forall i :: 0 <= i < |s.agents| ==> RowKept(s.agents[i], t.agents[i]))
    && forall i :: 0 <= i < |s.agents| && s.agents[i].mergeStatus.Deferred? && !t.agents[i].mergeStatus.Deferred? ==>
         Settled(s, t, i)
  }

  lemma {:induction false} KeptTransitive(s: State, t: State, u: State)
    requires DeferralKept(s, t) && DeferralKept(t, u)
    ensures DeferralKept(s, u)
  {
    forall i | 0 <= i < |s.agents| ensures RowKept(s.agents[i], u.agents[i]) {
      assert RowKept(s.agents[i], t.agents[i]) && RowKept(t.agents[i], u.agents[i]);
    }
    forall i | 0 <= i < |s.agents| && s.agents[i].mergeStatus.Deferred? && !u.agents[i].mergeStatus.Deferred?
      ensures Settled(s, u, i)
    {
      assert RowKept(s.agents[i], t.agents[i]);
    }
  }

  /** Appending a row, or writing other columns, settles nothing and forgets nothing. */
  lemma {:induction false} AppendKeeps(s: State, t: State)
    requires s.agents <= t.agents && t.trunk == s.trunk
    ensures DeferralKept(s, t)
  {
  }

  lemma {:induction false} MergeBranchKeeps(s: State, w: World, k: nat, id: AgentId, push: bool)
    requires id < |s.agents|
    ensures DeferralKept(s, MergeBranch(s, w, k, id, push).state)
  {
    var m := MergeBranch(s, w, k, id, push);
    if m.result == Conflict(Spawned) {
      assert ResolverRow(m.state.agents[|s.agents|], s.agents[id].task);
    }
  }

  lemma {:induction false} StepKeeps(s: State, w: World, k: nat, id: AgentId, push: bool)
    requires id < |s.agents|
    ensures DeferralKept(s, MergeStep(s, w, k, id, push).state)
  {
    MergeBranchKeeps(s, w, k, id, push);
    var m, t := MergeBranch(s, w, k, id, push), MergeStep(s, w, k, id, push).state;
    if m.result.Merged? {
      assert t.trunk[|s.trunk|..] == [BranchName(s.agents[id])];
      forall i | 0 <= i < |s.agents| ensures RowKept(s.agents[i], t.agents[i]) {
        assert RowKept(s.agents[i], m.state.agents[i]);
      }
    }
  }

  lemma {:induction false} BatchKeeps(s: State, w: World, list: seq<AgentId>, k: nat, pushLast: bool)
    requires k <= |list| && AllRows(s, list)
    ensures DeferralKept(s, MergeAll(s, w, list, k, pushLast).state)
    decreases |list| - k
  {
    if k == |list| {
      AppendKeeps(s, s);
    } else {
      var step := MergeStep(s, w, k, list[k], pushLast && k == |list| - 1);
      StepKeeps(s, w, k, list[k], pushLast && k == |list| - 1);
      if step.outcome.StepMerged? {
        BatchKeeps(step.state, w, list, k + 1, pushLast);
        KeptTransitive(s, step.state, MergeAll(s, w, list, k, pushLast).state);
      }
    }
  }

  lemma {:induction false} MergeBatchKeeps(s: State, w: World, id: AgentId)
    requires id < |s.agents|
    ensures DeferralKept(s, MergeBatch(s, w, id))
  {
    var list := DrainList(s, w, id);
    BatchKeeps(s, w, list, 0, false);
    var t := MergeAll(s, w, list, 0, false).state;
    if !MergeAll(s, w, list, 0, false).stopped {
      var u := MergeStep(t, w, |list|, id, true);
      StepKeeps(t, w, |list|, id, true);
      KeptTransitive(s, t, u.state);
      if u.outcome.StepMerged? {
        VerdictKeeps(u.state, w, s.agents[id].task);
        KeptTransitive(s, u.state, OnCi(AwaitCi(u.state), w, s.agents[id].task));
      }
    }
  }

  lemma {:induction false} VerdictKeeps(s: State, w: World, task: Task)
    ensures DeferralKept(s, OnCi(AwaitCi(s), w, task))
  {
    AppendKeeps(s, OnCi(AwaitCi(s), w, task));
  }

  lemma {:induction false} MachineKeeps(s: State, w: World, id: AgentId)
    requires id < |s.agents|
    ensures DeferralKept(s, RunStateMachine(s, w, id))
  {
    if Enabled(s) && ShouldMergeNow(s, w, s.agents[id].task) {
      MergeBatchKeeps(s, w, id);
      AppendKeeps(s, OnGateFailed(s, w, id));
    }
  }

  lemma {:induction false} RerunKeeps(s: State, w: World, task: Task)
    ensures DeferralKept(s, Rerun(s, w, task))
  {
    if WorkAgent(s.agents, task).Some? {
      MachineKeeps(s, w, WorkAgent(s.agents, task).value);
    }
  }

  lemma {:induction false} FixDoneKeeps(s: State, w: World, id: AgentId)
    requires id < |s.agents|
    ensures DeferralKept(s, OnFixDone(s, w, id))
  {
    if AttemptOf(s.attempts, id).Some? {
      MergeBranchKeeps(s, w, 0, id, true);
      var t := MergeBranch(s, w, 0, id, true).state;
      AppendKeeps(t, OnFixDone(s, w, id));
      KeptTransitive(s, t, OnFixDone(s, w, id));
    }
  }

  /** No handler forgets a deferred row: after any completion and any flush, whatever gate, git and CI answered, a
      row that is no longer deferred has landed since, or a resolver was started for its task. */
  lemma {:induction false} DeferredOnlyLandsOrResolves(s: State, w: World, id: AgentId)
    requires id < |s.agents|
    ensures DeferralKept(s, OnCompleted(s, w, id)) && DeferralKept(s, Flush(s, w).state)
  {
    BatchKeeps(s, w, FlushList(s, w), 0, true);
    AppendKeeps(s, s);
    match s.agents[id].role
    case Resolver(_) =>
      var i := AttemptOf(s.attempts, id);
      if i.Some? {
        var t := Close(s, i.value, if w.resolved then Resolved else Unresolved);
        AppendKeeps(s, t);
        RerunKeeps(t, w, s.attempts[i.value].task);
        KeptTransitive(s, t, Rerun(t, w, s.attempts[i.value].task));
      }
    case GateFix(_) => RerunKeeps(s, w, s.agents[id].task);
    case CiFix(_) => FixDoneKeeps(s, w, id);
    case Work => MachineKeeps(s, w, id);
  }
}
