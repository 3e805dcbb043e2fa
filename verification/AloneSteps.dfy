/** One row of a batch, done by a handler that nobody interrupts: the accesses of TwoHandlers, one after the other,
    amount to one merge of the state machine, whether it lands, conflicts, breaks, or finds no branch; no row is
    left that advertises a merged or deleted branch, and the other handler is where it was. Then the batch as a
    drain with its trigger at the end. OneHandler puts the rows together (server-rs/src/auto_mode.rs, server-
    rs/src/api/agents.rs). */
module AloneSteps {
  import opened Util
  import opened AutoMode
  import opened Batches
  import opened NoLimbo
  import opened TwoHandlers

  /** No row advertises a branch that is merged or deleted. */
  ghost predicate Clean(sys: System) {
    forall i :: 0 <= i < |sys.state.agents| && sys.state.agents[i].branch.Some? ==>
      sys.state.agents[i].branch.value !in sys.merged && sys.state.agents[i].branch.value !in sys.gone
  }

  /** The row's merge as the machine has it. */
  ghost function Merge(sys: System, t: bool): AutoMode.Step
    requires Sane(sys) && !sys.At(t).Over()
  {
    var h := sys.At(t);
    MergeStep(sys.state, h.world, h.next, h.batch[h.next], h.next == |h.batch| - 1)
  }

  /** The handler has done with its row what one merge of the machine does, and nobody else did anything. */
  ghost predicate OneMergeOn(sys: System, r: System, t: bool)
    requires Sane(sys) && !sys.At(t).Over()
  {
    var h, g := sys.At(t), r.At(t);
    var step := Merge(sys, t);
    && r.state == step.state && r.At(!t) == sys.At(!t) && Clean(r) && g.world == h.world && g.batch == h.batch
    && if step.outcome.StepMerged? then g.next == h.next + 1 && g.phase == Ready && !g.stopped else g.stopped
  }

  lemma {:induction false} RowAlone(sys: System, t: bool) returns (turns: seq<bool>)
    requires Sane(sys) && Clean(sys) && !sys.At(t).Over() && sys.At(t).phase == Ready
    ensures OneMergeOn(sys, After(sys, turns), t)
  {
    var h, s := sys.At(t), sys.state;
    var row := s.agents[h.batch[h.next]];
    match row.branch
    case None =>
      turns := [t];
      NothingToMerge(sys, t);
    case Some(b) =>
      var counted := Counts(sys, t, b);
      if h.world.merge(h.next).Lands? {
        turns := [t, t] + [t, t] + [t];
        Continue(sys, [t, t], [t, t]);
        OneMore(sys, [t, t] + [t, t], t);
        Lands(counted, t, b);
      } else {
        turns := [t, t] + [t];
        OneMore(sys, [t, t], t);
        Refused(counted, t, b);
      }
  }

  lemma {:induction false} OneTurn(sys: System, t: bool)
    requires Sane(sys)
    ensures After(sys, [t]) == TwoHandlers.Step(sys, t)
  {
    assert [t][..0] == [];
  }

  lemma {:induction false} NothingToMerge(sys: System, t: bool)
    requires Sane(sys) && Clean(sys) && !sys.At(t).Over() && sys.At(t).phase == Ready
    requires sys.state.agents[sys.At(t).batch[sys.At(t).next]].branch.None?
    ensures OneMergeOn(sys, After(sys, [t]), t)
  {
    OneTurn(sys, t);
    StopsClean(sys, t, Pause(sys.state, MergeFailed));
  }

  lemma {:induction false} TwoTurns(sys: System, t: bool)
    requires Sane(sys)
    ensures After(sys, [t, t]) == TwoHandlers.Step(TwoHandlers.Step(sys, t), t)
  {
    OneTurn(sys, t);
    assert [t, t][..1] == [t];
  }

  lemma {:induction false} Counts(sys: System, t: bool, b: Branch) returns (r: System)
    requires Sane(sys) && Clean(sys) && !sys.At(t).Over() && sys.At(t).phase == Ready
    requires sys.state.agents[sys.At(t).batch[sys.At(t).next]].branch == Some(b)
    ensures r == After(sys, [t, t]) && r == sys.Put(t, sys.At(t).(phase := Counted(b)))
    ensures r.At(t) == sys.At(t).(phase := Counted(b)) && r.At(!t) == sys.At(!t)
    ensures b !in sys.merged && b !in sys.gone
  {
    TwoTurns(sys, t);
    r := After(sys, [t, t]);
  }

  lemma {:induction false} Lands(sys: System, t: bool, b: Branch)
    requires Sane(sys) && Clean(sys) && !sys.At(t).Over() && sys.At(t).phase == Counted(b)
    requires sys.state.agents[sys.At(t).batch[sys.At(t).next]].branch == Some(b)
    requires b !in sys.merged && b !in sys.gone && sys.At(t).world.merge(sys.At(t).next).Lands?
    ensures OneMergeOn(sys, TwoHandlers.Step(After(sys, [t, t]), t), t)
  {
    var h, s := sys.At(t), sys.state;
    TwoTurns(sys, t);
    var taken := Take(sys.(state := s.(trunk := s.trunk + [b])), t, b);
    assert GitMerge(sys, t, b) == taken && TwoHandlers.Step(sys, t) == taken;
    assert taken.At(t) == h.(phase := Taken(b), took := h.took + [b]) && taken.At(!t) == sys.At(!t);
    LandsAsOne(sys, taken, t, b);
    var cleared := Clear(taken, t, b);
    assert TwoHandlers.Step(taken, t) == cleared;
    ClearedIsClean(sys, cleared, t, b);
  }

  lemma {:induction false} LandsAsOne(sys: System, taken: System, t: bool, b: Branch)
    requires Sane(sys) && Sane(taken) && !sys.At(t).Over()
    requires sys.state.agents[sys.At(t).batch[sys.At(t).next]].branch == Some(b)
    requires sys.At(t).world.merge(sys.At(t).next).Lands?
    requires taken.state == sys.state.(trunk := sys.state.trunk + [b])
    requires taken.At(t) == sys.At(t).(phase := Taken(b), took := sys.At(t).took + [b])
    ensures Clear(taken, t, b).state == Merge(sys, t).state && Merge(sys, t).outcome.StepMerged?
    ensures Clear(taken, t, b).At(t) == taken.At(t).(phase := Cleared(b))
    ensures Clear(taken, t, b).At(!t) == taken.At(!t)
    ensures Clear(taken, t, b).merged == taken.merged && Clear(taken, t, b).gone == taken.gone
  {
    assert |sys.state.trunk + [b]| == |sys.state.trunk| + 1;
  }

  lemma {:induction false} ClearedIsClean(sys: System, cleared: System, t: bool, b: Branch)
    requires Sane(sys) && Clean(sys) && !sys.At(t).Over() && Sane(cleared) && !cleared.At(t).Over()
    requires sys.state.agents[sys.At(t).batch[sys.At(t).next]].branch == Some(b) && cleared.At(t).phase == Cleared(b)
    requires cleared.merged == sys.merged + {b} && cleared.gone <= sys.gone + {b}
    requires sys.At(t).world.merge(sys.At(t).next).Lands? && cleared.state == Merge(sys, t).state
    ensures Clean(TwoHandlers.Step(cleared, t))
  {
    var h := sys.At(t);
    MergedStep(sys.state, h.world, h.next, h.batch[h.next], h.next == |h.batch| - 1);
    var r := TwoHandlers.Step(cleared, t);
    assert r.state == cleared.state && r.merged == cleared.merged && r.gone == cleared.gone + {b};
    forall i | 0 <= i < |r.state.agents| && r.state.agents[i].branch.Some?
      ensures r.state.agents[i].branch.value !in r.merged && r.state.agents[i].branch.value !in r.gone
    {
      assert RowLanded(sys.state.agents[i], r.state.agents[i], i in [h.batch[h.next]], [b]);
    }
  }

  lemma {:induction false} Refused(sys: System, t: bool, b: Branch)
    requires Sane(sys) && Clean(sys) && !sys.At(t).Over() && sys.At(t).phase == Counted(b)
    requires sys.state.agents[sys.At(t).batch[sys.At(t).next]].branch == Some(b)
    requires b !in sys.merged && b !in sys.gone && !sys.At(t).world.merge(sys.At(t).next).Lands?
    ensures OneMergeOn(sys, TwoHandlers.Step(sys, t), t)
  {
    RefusedAsOne(sys, t, b);
    StopsClean(sys, t, Merge(sys, t).state);
  }

  lemma {:induction false} RefusedAsOne(sys: System, t: bool, b: Branch)
    requires Sane(sys) && !sys.At(t).Over() && sys.At(t).phase == Counted(b)
    requires sys.state.agents[sys.At(t).batch[sys.At(t).next]].branch == Some(b)
    requires b !in sys.merged && b !in sys.gone && !sys.At(t).world.merge(sys.At(t).next).Lands?
    ensures TwoHandlers.Step(sys, t) == Stop(sys, t, Merge(sys, t).state) && !Merge(sys, t).outcome.StepMerged?
    ensures KeepsBranches(sys.state, Merge(sys, t).state)
  {
    var h := sys.At(t);
    ResolveKeepsBranches(sys.state, h.world, h.batch[h.next]);
    assert TwoHandlers.Step(sys, t) == GitMerge(sys, t, b);
  }

  lemma {:induction false} ResolveKeepsBranches(s: State, w: World, id: AgentId)
    requires id < |s.agents|
    ensures KeepsBranches(s, Resolve(s, w, id).state)
  {
  }

  ghost predicate KeepsBranches(s: State, r: State) {
    && |r.agents| >= |s.agents|
    && forall i :: 0 <= i < |r.agents| && r.agents[i].branch.Some? ==>
         i < |s.agents| && r.agents[i].branch == s.agents[i].branch
  }

  lemma {:induction false} StopsClean(sys: System, t: bool, r: State)
    requires Sane(sys) && Clean(sys) && KeepsBranches(sys.state, r)
    ensures var u := Stop(sys, t, r);
            && Clean(u) && u.state == r && u.At(!t) == sys.At(!t) && u.At(t) == sys.At(t).(stopped := true)
  {
  }

  lemma {:induction false} BatchGoesOn(sys: System, r: System, t: bool)
    requires Sane(sys) && !sys.At(t).Over() && OneMergeOn(sys, r, t)
    ensures var h := sys.At(t);
            var b := MergeAll(sys.state, h.world, h.batch, h.next, true);
            if r.At(t).stopped then b == Batch(r.state, h.next, true)
            else AllRows(r.state, h.batch) && b == MergeAll(r.state, h.world, h.batch, h.next + 1, true)
  {
    MergeOneMore(sys.state, sys.At(t).world, sys.At(t).batch, sys.At(t).next, true);
  }

  // ---------------------------------------------------------------- as the machine has it

  lemma {:induction false} DrainAndTrigger(s: State, w: World, list: seq<AgentId>, id: AgentId, k: nat)
    requires k <= |list| && AllRows(s, list) && AllRows(s, list + [id])
    ensures var whole, b := MergeAll(s, w, list + [id], k, true), MergeAll(s, w, list, k, false);
            if b.stopped then whole.stopped && whole.state == b.state
            else
              && id < |b.state.agents|
              && var step := MergeStep(b.state, w, |list|, id, true);
                 whole.state == step.state && whole.stopped == !step.outcome.StepMerged?
    decreases |list| - k
  {
    var batch := list + [id];
    assert batch[|list|] == id;
    MergeOneMore(s, w, batch, k, true);
    if k < |list| {
      assert batch[k] == list[k];
      MergeOneMore(s, w, list, k, false);
      var step := MergeStep(s, w, k, list[k], false);
      if step.outcome.StepMerged? {
        DrainAndTrigger(step.state, w, list, id, k + 1);
      }
    }
  }
}
