/** The machine of TwoBoundaries. A boundary handler works through its batch of rows; for each it reads the branch,
    counts the commits ahead of trunk, merges, clears the branch in every row, and deletes it. Each is an access of its
    own, and there is no lock around them, so those of a second handler come in between at any place. Here are the
    steps, what every interleaving of two handlers keeps, and runs put together from them (server-rs/src/auto_mode.rs,
    server-rs/src/api/agents.rs, server-rs/src/git_helpers.rs). */
module TwoHandlers {
  import opened Util
  import opened AutoMode
  import opened Batches

  /** How far a handler is with its next row: nothing done yet; its branch read; its commits counted; merged; cleared in
      the table. Then the branch is deleted. */
  datatype Phase =
    | Ready
    | HasRead(branch: Branch)
    | Counted(branch: Branch)
    | Taken(branch: Branch)
    | Cleared(branch: Branch)
  {
    /** The branch is merged, and not yet deleted by this handler. */
    predicate Past() {
      Taken? || Cleared?
    }
  }

  /** A handler works through its batch, the drained rows and then its trigger, of which only the last pushes. `took`
      are the branches it counts as landed. */
  datatype Handler = Handler(world: World, batch: seq<AgentId>, next: nat, phase: Phase, stopped: bool,
                             took: seq<Branch>)
  {
    predicate Over() {
      stopped || next >= |batch|
    }
  }

  /** The rows; whether agents have worktrees of their own; which branches git has merged, and which it has deleted. */
  datatype System = System(state: State, worktrees: bool, merged: set<Branch>, gone: set<Branch>,
                           first: Handler, second: Handler)
  {
    function At(turn: bool): Handler {
      if turn then first else second
    }

    function Put(turn: bool, h: Handler): System {
      if turn then this.(first := h) else this.(second := h)
    }
  }

  predicate Sane(sys: System) {
    AllRows(sys.state, sys.first.batch) && AllRows(sys.state, sys.second.batch)
  }

  function Stop(sys: System, turn: bool, s: State): (r: System)
    requires Sane(sys)
    ensures |s.agents| >= |sys.state.agents| ==> Sane(r)
  {
    sys.(state := s).Put(turn, sys.At(turn).(stopped := true))
  }

  /** Without a worktree that has it checked out, the branch goes as soon as it is merged. */
  function Take(sys: System, turn: bool, branch: Branch): (r: System)
    requires Sane(sys)
    ensures Sane(r)
  {
    var h := sys.At(turn);
    sys.(merged := sys.merged + {branch}, gone := if sys.worktrees then sys.gone else sys.gone + {branch})
       .Put(turn, h.(phase := Taken(branch), took := h.took + [branch]))
  }

  /** `git merge`: fails for a branch that is gone, has nothing to do for one that is merged, otherwise answers. */
  function GitMerge(sys: System, turn: bool, branch: Branch): (r: System)
    requires Sane(sys) && !sys.At(turn).Over()
    ensures Sane(r)
  {
    var h, s := sys.At(turn), sys.state;
    if branch in sys.gone then Stop(sys, turn, Pause(s, MergeFailed))
    else if branch in sys.merged then Take(sys, turn, branch)
    else
      match h.world.merge(h.next)
      case Breaks => Stop(sys, turn, Pause(s, MergeFailed))
      case Conflicts =>
        var m := Resolve(s, h.world, h.batch[h.next]);
        (match m.result
         case Conflict(Spawned) => Stop(sys, turn, m.state)
         case Conflict(CapHit) => Stop(sys, turn, Pause(m.state, ConflictUnresolved))
         case _ => Stop(sys, turn, Pause(m.state, MergeConflict)))
      case Lands(_) => Take(sys.(state := s.(trunk := s.trunk + [branch])), turn, branch)
  }

  /** After a merge: no row advertises the branch, the row is not deferred, the last one pushes. */
  function Clear(sys: System, turn: bool, branch: Branch): (r: System)
    requires Sane(sys) && !sys.At(turn).Over()
    ensures Sane(r)
  {
    var h, s := sys.At(turn), sys.state;
    var pushes := if h.next == |h.batch| - 1 && h.world.merge(h.next) != Lands("") then s.pushes + [|s.trunk|]
                  else s.pushes;
    sys.(state := Undefer(s.(agents := ClearBranch(s.agents, branch), pushes := pushes), h.batch[h.next]))
       .Put(turn, h.(phase := Cleared(branch)))
  }

  /** The next access of one of the two. There is no lock around them. */
  function Step(sys: System, turn: bool): (r: System)
    requires Sane(sys)
    ensures Sane(r)
  {
    var h, s := sys.At(turn), sys.state;
    if h.Over() then sys
    else
      match h.phase
      case Ready =>
        (match s.agents[h.batch[h.next]].branch
         case None => Stop(sys, turn, Pause(s, MergeFailed))
         case Some(b) => sys.Put(turn, h.(phase := HasRead(b))))
      case HasRead(b) =>
        // An existing branch without commits ahead of trunk is refused; for a deleted one the count fails, and is
        // skipped.
        if b in sys.merged && b !in sys.gone then Stop(sys, turn, Pause(s, MergeFailed))
        else sys.Put(turn, h.(phase := Counted(b)))
      case Counted(b) => GitMerge(sys, turn, b)
      case Taken(b) => Clear(sys, turn, b)
      case Cleared(b) => sys.(gone := sys.gone + {b}).Put(turn, h.(phase := Ready, next := h.next + 1))
  }

  function After(sys: System, turns: seq<bool>): (r: System)
    requires Sane(sys)
    ensures Sane(r)
  {
    if turns == [] then sys else Step(After(sys, turns[..|turns| - 1]), turns[|turns| - 1])
  }

  /** Both handlers are about to begin. */
  ghost predicate Begins(sys: System) {
    && Sane(sys) && sys.merged == {} && sys.gone == {}
    && forall turn :: sys.At(turn) == Handler(sys.At(turn).world, sys.At(turn).batch, 0, Ready, false, [])
  }

  predicate BothOver(sys: System) {
    sys.first.Over() && sys.second.Over()
  }

  ghost predicate GitRefusesNothing(sys: System) {
    AllLand(sys.first.world) && AllLand(sys.second.world)
  }

  // ---------------------------------------------------------------- moments of a run

  /** Both have counted the branch's commits, and neither has merged it. */
  ghost predicate BothCounted(sys: System, turns: seq<bool>, n: nat, b: Branch)
    requires Sane(sys) && n <= |turns|
  {
    After(sys, turns[..n]).first.phase == Counted(b) && After(sys, turns[..n]).second.phase == Counted(b)
  }

  /** Both have merged the branch, and neither has deleted it. */
  ghost predicate BothTaken(sys: System, turns: seq<bool>, n: nat, b: Branch)
    requires Sane(sys) && n <= |turns|
  {
    IsPast(After(sys, turns[..n]).first, b) && IsPast(After(sys, turns[..n]).second, b)
  }

  predicate IsPast(h: Handler, b: Branch) {
    h.phase == Taken(b) || h.phase == Cleared(b)
  }

  /** The two handlers do the branch side by side: both read it and count its commits before either merges it, and both
      merge it before either deletes it. */
  ghost predicate SideBySide(sys: System, turns: seq<bool>, b: Branch)
    requires Sane(sys)
  {
    exists m, n :: 0 <= m < n <= |turns| && BothCounted(sys, turns, m, b) && BothTaken(sys, turns, n, b)
  }

  // ---------------------------------------------------------------- what every interleaving keeps

  /** What a handler took are the branches its first rows had at the start. */
  ghost predicate HandlerOk(sys: System, r: System, turn: bool) {
    var h, agents := r.At(turn), sys.state.agents;
    && h.world == sys.At(turn).world && h.batch == sys.At(turn).batch
    && AllRows(sys.state, h.batch) && h.next <= |h.batch|
    && |h.took| == h.next + (if h.phase.Past() then 1 else 0) && |h.took| <= |h.batch|
    && (forall i :: 0 <= i < |h.took| ==> agents[h.batch[i]].branch == Some(h.took[i]))
    && (!h.phase.Ready? ==>
          h.next < |h.batch| && agents[h.batch[h.next]].branch == Some(h.phase.branch))
    && (h.stopped ==> !h.phase.Past() && h.next < |h.batch|)
    && NoDup(h.took)
  }

  predicate Took(r: System, b: Branch) {
    b in r.first.took || b in r.second.took
  }

  /** A row's branch changes only by being cleared, after somebody took it. */
  ghost predicate RowOk(sys: System, r: System, i: AgentId)
    requires i < |sys.state.agents| && i < |r.state.agents|
  {
    var was, now := sys.state.agents[i].branch, r.state.agents[i].branch;
    now == was || (now.None? && was.Some? && Took(r, was.value))
  }

  /** What a handler took is merged, and deleted once the handler is past it. */
  ghost predicate TookOk(r: System, turn: bool, b: Branch) {
    b in r.At(turn).took ==> b in r.merged && (b in r.gone || (r.worktrees && IsPast(r.At(turn), b)))
  }

  ghost predicate Inv(sys: System, r: System) {
    && Sane(r) && r.worktrees == sys.worktrees
    && HandlerOk(sys, r, true) && HandlerOk(sys, r, false)
    && |r.state.agents| >= |sys.state.agents|
    && (forall i :: 0 <= i < |sys.state.agents| ==> RowOk(sys, r, i))
    && (forall b :: b in r.merged || b in r.gone ==> Took(r, b))
    && (forall turn, b :: TookOk(r, turn, b))
  }

  lemma {:induction false} RunKeeps(sys: System, turns: seq<bool>)
    requires Begins(sys)
    ensures Inv(sys, After(sys, turns))
  {
    if turns == [] {
      assert sys.At(true) == sys.first && sys.At(false) == sys.second;
    } else {
      RunKeeps(sys, turns[..|turns| - 1]);
      StepKeeps(sys, After(sys, turns[..|turns| - 1]), turns[|turns| - 1]);
    }
  }

  lemma {:induction false} StepKeeps(sys: System, s: System, turn: bool)
    requires Inv(sys, s)
    ensures Inv(sys, Step(s, turn))
  {
    var h := s.At(turn);
    if !h.Over() {
      assert HandlerOk(sys, s, turn);
      match h.phase
      case Ready =>
        assert RowOk(sys, s, h.batch[h.next]);
        if s.state.agents[h.batch[h.next]].branch.None? {
          StopKeeps(sys, s, turn, Pause(s.state, MergeFailed));
        } else {
          MoveKeeps(sys, s, turn, HasRead(s.state.agents[h.batch[h.next]].branch.value));
        }
      case HasRead(b) =>
        if b in s.merged && b !in s.gone {
          StopKeeps(sys, s, turn, Pause(s.state, MergeFailed));
        } else {
          MoveKeeps(sys, s, turn, Counted(b));
        }
      case Counted(b) => MergeKeeps(sys, s, turn, b);
      case Taken(b) => ClearKeeps(sys, s, turn, b);
      case Cleared(b) => DeleteKeeps(sys, s, turn, b);
    }
  }

  predicate SameBranches(s: State, t: State) {
    && |t.agents| >= |s.agents|
    && forall i :: 0 <= i < |s.agents| ==> t.agents[i].branch == s.agents[i].branch
  }

  lemma {:induction false} StopKeeps(sys: System, s: System, turn: bool, t: State)
    requires Inv(sys, s) && !s.At(turn).Over() && !s.At(turn).phase.Past() && SameBranches(s.state, t)
    ensures Inv(sys, Stop(s, turn, t))
  {
    var r := Stop(s, turn, t);
    assert HandlerOk(sys, s, turn) && HandlerOk(sys, s, !turn);
    assert HandlerOk(sys, r, turn) && HandlerOk(sys, r, !turn);
    RowsKept(sys, s, r);
    forall u, b ensures TookOk(r, u, b) {
      assert TookOk(s, u, b);
    }
  }

  /** Rows that still say what they said. */
  lemma {:induction false} RowsKept(sys: System, s: System, r: System)
    requires Inv(sys, s) && SameBranches(s.state, r.state) && forall b :: Took(s, b) ==> Took(r, b)
    ensures forall i :: 0 <= i < |sys.state.agents| ==> RowOk(sys, r, i)
  {
    forall i | 0 <= i < |sys.state.agents| ensures RowOk(sys, r, i) {
      assert RowOk(sys, s, i);
    }
  }

  /** The handler reads, or counts. */
  lemma {:induction false} MoveKeeps(sys: System, s: System, turn: bool, phase: Phase)
    requires Inv(sys, s) && !s.At(turn).Over() && !s.At(turn).phase.Past() && (phase.HasRead? || phase.Counted?)
    requires var h := s.At(turn);
             AllRows(sys.state, h.batch) && sys.state.agents[h.batch[h.next]].branch == Some(phase.branch)
    ensures Inv(sys, s.Put(turn, s.At(turn).(phase := phase)))
  {
    var r := s.Put(turn, s.At(turn).(phase := phase));
    assert HandlerOk(sys, s, turn) && HandlerOk(sys, s, !turn);
    assert HandlerOk(sys, r, turn) && HandlerOk(sys, r, !turn);
    RowsKept(sys, s, r);
    forall u, b ensures TookOk(r, u, b) {
      assert TookOk(s, u, b);
    }
  }

  lemma {:induction false} MergeKeeps(sys: System, s: System, turn: bool, b: Branch)
    requires Inv(sys, s) && !s.At(turn).Over() && s.At(turn).phase == Counted(b)
    ensures Inv(sys, GitMerge(s, turn, b))
  {
    var h := s.At(turn);
    if b in s.gone {
      StopKeeps(sys, s, turn, Pause(s.state, MergeFailed));
    } else if b in s.merged {
      TakeKeeps(sys, s, s.state, turn, b);
    } else {
      match h.world.merge(h.next)
      case Breaks => StopKeeps(sys, s, turn, Pause(s.state, MergeFailed));
      case Conflicts =>
        var m := Resolve(s.state, h.world, h.batch[h.next]);
        assert SameBranches(s.state, m.state);
        StopKeeps(sys, s, turn, m.state);
        StopKeeps(sys, s, turn, Pause(m.state, ConflictUnresolved));
        StopKeeps(sys, s, turn, Pause(m.state, MergeConflict));
      case Lands(_) => TakeKeeps(sys, s, s.state.(trunk := s.state.trunk + [b]), turn, b);
    }
  }

  lemma {:induction false} TakeKeeps(sys: System, s: System, t: State, turn: bool, b: Branch)
    requires Inv(sys, s) && !s.At(turn).Over() && s.At(turn).phase == Counted(b) && b !in s.gone
    requires t.agents == s.state.agents
    ensures Inv(sys, Take(s.(state := t), turn, b))
  {
    var h, r := s.At(turn), Take(s.(state := t), turn, b);
    assert HandlerOk(sys, s, turn) && TookOk(s, turn, b);
    TakerOk(sys, s, t, turn, b);
    assert HandlerOk(sys, s, !turn) && r.At(!turn) == s.At(!turn);
    assert forall c :: c in r.At(turn).took <==> c in h.took || c == b;
    assert forall c :: Took(r, c) <==> Took(s, c) || c == b;
    RowsKept(sys, s, r);
    forall u, c ensures TookOk(r, u, c) {
      assert TookOk(s, u, c);
    }
  }

  lemma {:induction false} TakerOk(sys: System, s: System, t: State, turn: bool, b: Branch)
    requires Sane(s) && t.agents == s.state.agents && HandlerOk(sys, s, turn) && TookOk(s, turn, b)
    requires !s.At(turn).Over() && s.At(turn).phase == Counted(b) && b !in s.gone
    ensures HandlerOk(sys, Take(s.(state := t), turn, b), turn)
  {
    var h, r := s.At(turn), Take(s.(state := t), turn, b);
    assert b !in h.took;
    assert r.At(turn).took == h.took + [b];
  }

  lemma {:induction false} ClearKeeps(sys: System, s: System, turn: bool, b: Branch)
    requires Inv(sys, s) && !s.At(turn).Over() && s.At(turn).phase == Taken(b)
    ensures Inv(sys, Clear(s, turn, b))
  {
    var h, r := s.At(turn), Clear(s, turn, b);
    assert HandlerOk(sys, s, turn) && HandlerOk(sys, s, !turn);
    assert HandlerOk(sys, r, turn) && HandlerOk(sys, r, !turn);
    assert h.took[h.next] == b;
    forall i | 0 <= i < |sys.state.agents| ensures RowOk(sys, r, i) {
      assert RowOk(sys, s, i);
    }
    forall u, c ensures TookOk(r, u, c) {
      assert TookOk(s, u, c);
    }
  }

  lemma {:induction false} DeleteKeeps(sys: System, s: System, turn: bool, b: Branch)
    requires Inv(sys, s) && !s.At(turn).Over() && s.At(turn).phase == Cleared(b)
    ensures Inv(sys, s.(gone := s.gone + {b}).Put(turn, s.At(turn).(phase := Ready, next := s.At(turn).next + 1)))
  {
    var h := s.At(turn);
    var r := s.(gone := s.gone + {b}).Put(turn, h.(phase := Ready, next := h.next + 1));
    assert HandlerOk(sys, s, turn) && HandlerOk(sys, s, !turn);
    assert HandlerOk(sys, r, turn) && HandlerOk(sys, r, !turn);
    assert h.took[h.next] == b;
    RowsKept(sys, s, r);
    forall u, c ensures TookOk(r, u, c) {
      assert TookOk(s, u, c);
    }
  }

  // ---------------------------------------------------------------- side by side

  lemma {:induction false} PastTook(sys: System, r: System, b: Branch)
    requires Inv(sys, r) && IsPast(r.first, b) && IsPast(r.second, b)
    ensures b in r.first.took && b in r.second.took
  {
    assert HandlerOk(sys, r, true) && HandlerOk(sys, r, false);
    assert r.first.took[r.first.next] == b && r.second.took[r.second.next] == b;
  }

  lemma {:induction false} TookGrows(sys: System, turns: seq<bool>, n: nat)
    requires Sane(sys) && n <= |turns|
    ensures forall turn :: After(sys, turns[..n]).At(turn).took <= After(sys, turns).At(turn).took
  {
    if n == |turns| {
      assert turns[..n] == turns;
    } else {
      var front := turns[..|turns| - 1];
      TookGrows(sys, front, n);
      assert front[..n] == turns[..n];
      StepEffect(After(sys, front), turns[|turns| - 1]);
      TookMore(After(sys, front), After(sys, turns), turns[|turns| - 1]);
    }
  }

  /** What a step may do to the branches: the handler that moves may take the one it has counted, if it is still
      there. */
  ghost predicate Effect(s: System, r: System, turn: bool) {
    var h, k := s.At(turn), r.At(turn);
    && r.At(!turn) == s.At(!turn) && s.gone <= r.gone
    && (if k.took == h.took then r.merged == s.merged
        else h.phase.Counted? && h.phase.branch !in s.gone && k.phase == Taken(h.phase.branch)
             && k.took == h.took + [h.phase.branch] && r.merged == s.merged + {h.phase.branch})
    && (k.phase.Counted? ==>
          k.phase == h.phase
          || (h.phase == HasRead(k.phase.branch) && (k.phase.branch in s.merged ==> k.phase.branch in s.gone)))
  }

  lemma {:induction false} StepEffect(s: System, turn: bool)
    requires Sane(s)
    ensures Effect(s, Step(s, turn), turn)
  {
    var h := s.At(turn);
    if !h.Over() && h.phase.Counted? {
      MergeEffect(s, turn, h.phase.branch);
    }
  }

  lemma {:induction false} MergeEffect(s: System, turn: bool, b: Branch)
    requires Sane(s) && !s.At(turn).Over() && s.At(turn).phase == Counted(b)
    ensures Effect(s, GitMerge(s, turn, b), turn)
  {
    if b !in s.gone && (b in s.merged || s.At(turn).world.merge(s.At(turn).next).Lands?) {
      TakeEffect(s, s.state, turn, b);
      TakeEffect(s, s.state.(trunk := s.state.trunk + [b]), turn, b);
    }
  }

  lemma {:induction false} TakeEffect(s: System, t: State, turn: bool, b: Branch)
    requires Sane(s) && s.At(turn).phase == Counted(b) && b !in s.gone && t.agents == s.state.agents
    ensures Effect(s, Take(s.(state := t), turn, b), turn)
  {
  }

  lemma {:induction false} TookMore(s: System, r: System, turn: bool)
    requires Effect(s, r, turn)
    ensures forall u :: s.At(u).took <= r.At(u).took
  {
    assert s.At(turn).took <= r.At(turn).took && s.At(!turn).took <= r.At(!turn).took;
  }

  ghost predicate WasBothCounted(sys: System, turns: seq<bool>, b: Branch)
    requires Sane(sys)
  {
    exists m :: 0 <= m < |turns| && BothCounted(sys, turns, m, b)
  }

  /** A handler is about to merge what the other has merged. */
  predicate Late(r: System, u: bool, b: Branch) {
    r.At(u).phase == Counted(b) && b in r.merged && b !in r.gone
  }

  ghost predicate History(sys: System, turns: seq<bool>, b: Branch, r: System)
    requires Sane(sys)
  {
    && (b in r.first.took && b in r.second.took ==> SideBySide(sys, turns, b))
    && (forall u :: Late(r, u, b) ==> WasBothCounted(sys, turns, b))
  }

  lemma {:induction false} HistoryHolds(sys: System, turns: seq<bool>, b: Branch)
    requires Begins(sys)
    ensures History(sys, turns, b, After(sys, turns))
  {
    if turns == [] {
      assert sys.At(true) == sys.first && sys.At(false) == sys.second;
    } else {
      var front, turn := turns[..|turns| - 1], turns[|turns| - 1];
      HistoryHolds(sys, front, b);
      RunKeeps(sys, front);
      StepEffect(After(sys, front), turn);
      HistoryStep(sys, turns, b, After(sys, front), After(sys, turns));
    }
  }

  lemma {:induction false} HistoryStep(sys: System, turns: seq<bool>, b: Branch, s: System, r: System)
    requires Sane(sys) && turns != [] && s == After(sys, turns[..|turns| - 1]) && r == After(sys, turns)
    requires Inv(sys, s) && Effect(s, r, turns[|turns| - 1]) && History(sys, turns[..|turns| - 1], b, s)
    ensures History(sys, turns, b, r)
  {
    HistoryGrows(sys, turns, b);
    forall u | Late(r, u, b) ensures WasBothCounted(sys, turns, b) {
      LateHistory(sys, turns, b, s, r, u);
    }
    if b in r.first.took && b in r.second.took && !(b in s.first.took && b in s.second.took) {
      SecondTake(sys, s, r, turns[|turns| - 1], b);
      NowSideBySide(sys, turns, b, r);
    }
  }

  lemma {:induction false} LateHistory(sys: System, turns: seq<bool>, b: Branch, s: System, r: System, u: bool)
    requires Sane(sys) && turns != [] && s == After(sys, turns[..|turns| - 1])
    requires Effect(s, r, turns[|turns| - 1]) && Late(r, u, b)
    requires Late(s, u, b) ==> WasBothCounted(sys, turns, b)
    ensures WasBothCounted(sys, turns, b)
  {
    LateWas(s, r, turns[|turns| - 1], u, b);
    assert !Late(s, u, b) ==> BothCounted(sys, turns, |turns| - 1, b);
  }

  lemma {:induction false} NowSideBySide(sys: System, turns: seq<bool>, b: Branch, r: System)
    requires Sane(sys) && r == After(sys, turns) && WasBothCounted(sys, turns, b)
    requires IsPast(r.first, b) && IsPast(r.second, b)
    ensures SideBySide(sys, turns, b)
  {
    assert turns[..|turns|] == turns;
    assert BothTaken(sys, turns, |turns|, b);
  }

  lemma {:induction false} HistoryGrows(sys: System, turns: seq<bool>, b: Branch)
    requires Sane(sys) && turns != []
    ensures WasBothCounted(sys, turns[..|turns| - 1], b) ==> WasBothCounted(sys, turns, b)
    ensures SideBySide(sys, turns[..|turns| - 1], b) ==> SideBySide(sys, turns, b)
  {
    var front := turns[..|turns| - 1];
    forall m | 0 <= m <= |front|
      ensures BothCounted(sys, front, m, b) == BothCounted(sys, turns, m, b)
      ensures BothTaken(sys, front, m, b) == BothTaken(sys, turns, m, b)
    {
      assert front[..m] == turns[..m];
    }
  }

  /** Whoever is about to merge what the other has merged was so before, or counted it before the other merged. */
  lemma {:induction false} LateWas(s: System, r: System, turn: bool, u: bool, b: Branch)
    requires Effect(s, r, turn) && Late(r, u, b)
    ensures Late(s, u, b) || (s.first.phase == Counted(b) && s.second.phase == Counted(b))
  {
    assert u == turn || u == !turn;
  }

  /** Whoever takes what the other has taken finds it merged and not deleted, and the other not past it. */
  lemma {:induction false} SecondTake(sys: System, s: System, r: System, turn: bool, b: Branch)
    requires Inv(sys, s) && Effect(s, r, turn)
    requires b in r.first.took && b in r.second.took && !(b in s.first.took && b in s.second.took)
    ensures Late(s, turn, b) && IsPast(r.first, b) && IsPast(r.second, b)
  {
    assert TookOk(s, turn, b) && TookOk(s, !turn, b);
    assert b in r.At(turn).took && b in r.At(!turn).took && b !in s.At(turn).took;
  }

  // ---------------------------------------------------------------- why a handler stops

  /** The row it stopped at had no branch, or somebody took its branch. */
  ghost predicate StopOk(sys: System, r: System, turn: bool) {
    var h, agents := r.At(turn), sys.state.agents;
    h.stopped ==> h.next < |h.batch| && h.batch[h.next] < |agents|
                  && match agents[h.batch[h.next]].branch case None => true case Some(b) => Took(r, b)
  }

  lemma {:induction false} StopsHold(sys: System, turns: seq<bool>)
    requires Begins(sys) && GitRefusesNothing(sys) && sys.state.paused.None?
    ensures var r := After(sys, turns);
            && StopOk(sys, r, true) && StopOk(sys, r, false)
            && (r.state.paused.Some? <==> r.first.stopped || r.second.stopped)
  {
    if turns == [] {
      assert sys.At(true) == sys.first && sys.At(false) == sys.second;
    } else {
      var front := turns[..|turns| - 1];
      StopsHold(sys, front);
      RunKeeps(sys, front);
      StepStops(sys, After(sys, front), turns[|turns| - 1]);
    }
  }

  lemma {:induction false} StepStops(sys: System, s: System, turn: bool)
    requires Inv(sys, s) && GitRefusesNothing(sys) && StopOk(sys, s, true) && StopOk(sys, s, false)
    requires s.state.paused.Some? <==> s.first.stopped || s.second.stopped
    ensures var r := Step(s, turn);
            && StopOk(sys, r, true) && StopOk(sys, r, false)
            && (r.state.paused.Some? <==> r.first.stopped || r.second.stopped)
  {
    var h, r := s.At(turn), Step(s, turn);
    StepEffect(s, turn);
    TookMore(s, r, turn);
    assert StopOk(sys, s, turn) && StopOk(sys, s, !turn);
    if !h.Over() {
      assert HandlerOk(sys, s, turn) && h.world.merge(h.next).Lands?;
      PausesWithStop(s, turn);
      if r.At(turn).stopped {
        StopReason(sys, s, turn);
      }
    }
    StopStays(sys, s, r, !turn);
    assert StopOk(sys, r, turn) && StopOk(sys, r, !turn);
    assert r.first == r.At(true) && r.second == r.At(false) && s.first == s.At(true) && s.second == s.At(false);
  }

  lemma {:induction false} StopStays(sys: System, s: System, r: System, u: bool)
    requires StopOk(sys, s, u) && r.At(u) == s.At(u) && forall b :: Took(s, b) ==> Took(r, b)
    ensures StopOk(sys, r, u)
  {
  }

  lemma {:induction false} StopReason(sys: System, s: System, turn: bool)
    requires Inv(sys, s) && !s.At(turn).Over() && s.At(turn).world.merge(s.At(turn).next).Lands?
    requires Step(s, turn).At(turn).stopped
    ensures var h, agents := s.At(turn), sys.state.agents;
            h.next < |h.batch| && h.batch[h.next] < |agents|
            && match agents[h.batch[h.next]].branch case None => true case Some(b) => Took(s, b)
  {
    assert HandlerOk(sys, s, turn);
    assert RowOk(sys, s, s.At(turn).batch[s.At(turn).next]);
    PausesWithStop(s, turn);
  }

  /** When git refuses nothing, a stop pauses, and nothing else does. */
  lemma {:induction false} PausesWithStop(s: System, turn: bool)
    requires Sane(s) && !s.At(turn).Over() && s.At(turn).world.merge(s.At(turn).next).Lands?
    ensures var h, r := s.At(turn), Step(s, turn);
            && r.At(turn).next >= h.next && r.At(!turn) == s.At(!turn)
            && (if r.At(turn).stopped then
                  && r.state.paused.Some? && r.At(turn).next == h.next
                  && match h.phase
                     case Ready => s.state.agents[h.batch[h.next]].branch.None?
                     case HasRead(b) => b in s.merged
                     case Counted(b) => b in s.gone
                     case _ => false
                else r.state.paused == s.state.paused)
  {
  }

  /** The next access fails: the row has no branch any more, or its branch no commits, or it is deleted. */
  predicate Fails(s: System, turn: bool)
    requires Sane(s)
  {
    var h := s.At(turn);
    !h.Over()
    && match h.phase
       case Ready => s.state.agents[h.batch[h.next]].branch.None?
       case HasRead(b) => b in s.merged && b !in s.gone
       case Counted(b) => b in s.gone
       case _ => false
  }

  ghost predicate FailsAt(sys: System, turns: seq<bool>, k: nat)
    requires Sane(sys) && k < |turns|
  {
    Fails(After(sys, turns[..k]), turns[k])
  }

  lemma {:induction false} StopIsFailure(sys: System, s: System, turn: bool)
    requires Inv(sys, s) && GitRefusesNothing(sys)
    ensures var r := Step(s, turn);
            r.first.stopped || r.second.stopped <==> s.first.stopped || s.second.stopped || Fails(s, turn)
  {
    var h, r := s.At(turn), Step(s, turn);
    assert HandlerOk(sys, s, turn);
    if !h.Over() {
      assert h.world.merge(h.next).Lands?;
      StoppedByFailure(s, turn);
    }
    assert s.first == s.At(true) && s.second == s.At(false) && r.first == r.At(true) && r.second == r.At(false);
  }

  lemma {:induction false} StoppedByFailure(s: System, turn: bool)
    requires Sane(s) && !s.At(turn).Over() && s.At(turn).world.merge(s.At(turn).next).Lands?
    ensures Step(s, turn).At(turn).stopped <==> Fails(s, turn)
    ensures Step(s, turn).At(!turn) == s.At(!turn)
  {
  }

  lemma {:induction false} AllTook(sys: System, r: System, turn: bool)
    requires Inv(sys, r) && r.At(turn).Over() && !r.At(turn).stopped
    ensures OwnBranches(sys.state.agents, sys.At(turn).batch)
    ensures forall b :: b in Branches(sys.state.agents, sys.At(turn).batch) ==> b in r.At(turn).took
  {
    var h, agents := r.At(turn), sys.state.agents;
    assert HandlerOk(sys, r, turn);
    assert |h.took| == |h.batch|;
    forall b | b in Branches(agents, h.batch) ensures b in h.took {
      var i :| 0 <= i < |h.batch| && Branches(agents, h.batch)[i] == b;
      assert h.took[i] == b;
    }
  }

  lemma {:induction false} NotTakenYet(sys: System, r: System, turn: bool, b: Branch)
    requires HandlerOk(sys, r, turn) && r.At(turn).stopped && OwnBranches(sys.state.agents, r.At(turn).batch)
    requires sys.state.agents[r.At(turn).batch[r.At(turn).next]].branch == Some(b)
    ensures b !in r.At(turn).took
  {
  }

  lemma {:induction false} TookInBatch(sys: System, r: System, turn: bool, b: Branch)
    requires HandlerOk(sys, r, turn) && b in r.At(turn).took
    ensures b in Branches(sys.state.agents, r.At(turn).batch)
  {
    var h := r.At(turn);
    var i :| 0 <= i < |h.took| && h.took[i] == b;
    assert Branches(sys.state.agents, h.batch)[i] == b;
  }

  // ---------------------------------------------------------------- without worktrees, and disjoint batches

  lemma {:induction false} NeverBoth(sys: System, turns: seq<bool>, b: Branch)
    requires Begins(sys) && !sys.worktrees
    ensures !(b in After(sys, turns).first.took && b in After(sys, turns).second.took)
  {
    if turns == [] {
      assert sys.At(true) == sys.first;
    } else {
      var front, turn := turns[..|turns| - 1], turns[|turns| - 1];
      var s, r := After(sys, front), After(sys, turns);
      NeverBoth(sys, front, b);
      RunKeeps(sys, front);
      StepEffect(s, turn);
      NoSecondTake(sys, s, r, turn, b);
    }
  }

  lemma {:induction false} NoSecondTake(sys: System, s: System, r: System, turn: bool, b: Branch)
    requires Inv(sys, s) && Effect(s, r, turn) && !s.worktrees && !(b in s.first.took && b in s.second.took)
    ensures !(b in r.first.took && b in r.second.took)
  {
    assert TookOk(s, !turn, b) && r.At(!turn) == s.At(!turn);
    if b in r.first.took && b in r.second.took {
      SecondTake(sys, s, r, turn, b);
    }
  }

  lemma {:induction false} OwnTogether(agents: seq<Agent>, a: seq<AgentId>, b: seq<AgentId>)
    requires (forall i :: 0 <= i < |a| ==> a[i] < |agents|) && (forall i :: 0 <= i < |b| ==> b[i] < |agents|)
    ensures OwnBranches(agents, a + b) <==>
            && OwnBranches(agents, a) && OwnBranches(agents, b)
            && forall c :: c in Branches(agents, a) ==> c !in Branches(agents, b)
  {
    var whole := a + b;
    if OwnBranches(agents, whole) {
      forall i | 0 <= i < |a| ensures whole[i] == a[i] && agents[a[i]].branch.Some? {
      }
      forall i | 0 <= i < |b| ensures whole[|a| + i] == b[i] && agents[b[i]].branch.Some? {
      }
      forall c | c in Branches(agents, a) ensures c !in Branches(agents, b) {
        var i :| 0 <= i < |a| && Branches(agents, a)[i] == c;
        forall j | 0 <= j < |b| ensures Branches(agents, b)[j] != c {
          assert agents[whole[i]].branch != agents[whole[|a| + j]].branch;
        }
      }
    }
    if OwnBranches(agents, a) && OwnBranches(agents, b)
      && forall c :: c in Branches(agents, a) ==> c !in Branches(agents, b)
    {
      forall i, j | 0 <= i < j < |whole| ensures agents[whole[i]].branch != agents[whole[j]].branch {
        if i < |a| <= j {
          assert Branches(agents, a)[i] in Branches(agents, a);
          assert Branches(agents, b)[j - |a|] in Branches(agents, b);
        }
      }
    }
  }

  // ---------------------------------------------------------------- runs composed

  lemma {:induction false} OneMore(sys: System, turns: seq<bool>, turn: bool)
    requires Sane(sys)
    ensures After(sys, turns + [turn]) == Step(After(sys, turns), turn)
  {
    assert (turns + [turn])[..|turns|] == turns;
  }

  lemma {:induction false} Continue(sys: System, a: seq<bool>, b: seq<bool>)
    requires Sane(sys)
    ensures After(sys, a + b) == After(After(sys, a), b)
    decreases |b|
  {
    if b == [] {
      assert a + b == a;
    } else {
      Continue(sys, a, b[..|b| - 1]);
      assert (a + b)[..|a + b| - 1] == a + b[..|b| - 1];
    }
  }

  lemma {:induction false} TwoSteps(sys: System, t: bool, u: bool)
    requires Sane(sys)
    ensures After(sys, [t, u]) == Step(Step(sys, t), u)
  {
    OneMore(sys, [], t);
    OneMore(sys, [t], u);
    assert [] + [t] == [t] && [t] + [u] == [t, u];
  }

  /** The row the handler is at still has its branch. */
  predicate AtRow(sys: System, turn: bool, id: AgentId, b: Branch)
    requires Sane(sys)
  {
    var h := sys.At(turn);
    && !h.Over() && h.phase.Ready? && h.batch[h.next] == id && sys.state.agents[id].branch == Some(b)
    && h.world.merge(h.next).Lands?
  }

  function Phased(sys: System, turn: bool, phase: Phase): System {
    sys.Put(turn, sys.At(turn).(phase := phase))
  }

  lemma {:induction false} ReadStep(sys: System, turn: bool, id: AgentId, b: Branch)
    requires Sane(sys) && AtRow(sys, turn, id, b)
    ensures Step(sys, turn) == Phased(sys, turn, HasRead(b))
  {
  }

  lemma {:induction false} CountStep(sys: System, turn: bool, b: Branch)
    requires Sane(sys) && !sys.At(turn).Over() && sys.At(turn).phase == HasRead(b) && b !in sys.merged
    ensures Step(sys, turn) == Phased(sys, turn, Counted(b))
  {
  }

  lemma {:induction false} FirstMerge(sys: System, turn: bool, b: Branch)
    requires Sane(sys) && !sys.At(turn).Over() && sys.At(turn).phase == Counted(b)
    requires b !in sys.gone && b !in sys.merged && sys.At(turn).world.merge(sys.At(turn).next).Lands?
    ensures Step(sys, turn) == Take(sys.(state := sys.state.(trunk := sys.state.trunk + [b])), turn, b)
  {
  }

  /** Git has nothing to do, and says so with success. */
  lemma {:induction false} SecondMerge(sys: System, turn: bool, b: Branch)
    requires Sane(sys) && !sys.At(turn).Over() && sys.At(turn).phase == Counted(b) && b !in sys.gone && b in sys.merged
    ensures Step(sys, turn) == Take(sys, turn, b)
  {
  }

  /** Since s, exactly branch b has landed, and `pushes` more pushes were made. */
  predicate Landed(s: State, r: State, b: Branch, pushes: seq<nat>) {
    && r.paused == s.paused && r.trunk == s.trunk + [b] && r.pushes == s.pushes + pushes
    && |r.agents| == |s.agents|
    && forall i :: 0 <= i < |s.agents| ==>
         r.agents[i].branch == if s.agents[i].branch == Some(b) then None else s.agents[i].branch
  }

  /** The handler is one row on. */
  predicate OneRowOn(h: Handler, k: Handler, b: Branch) {
    k.batch == h.batch && k.next == h.next + 1 && k.phase.Ready? && k.stopped == h.stopped && k.took == h.took + [b]
  }

  predicate Last(h: Handler) {
    h.next == |h.batch| - 1
  }

  /** A handler does a row with nobody in between. */
  lemma {:induction false} Alone(sys: System, t: bool, id: AgentId, b: Branch)
    requires Sane(sys) && AtRow(sys, t, id, b) && b !in sys.merged && b !in sys.gone
    requires sys.At(t).world.merge(sys.At(t).next) != Lands("")
    ensures var r := After(sys, [t, t] + [t, t] + [t]);
            && OneRowOn(sys.At(t), r.At(t), b) && r.At(t).world == sys.At(t).world && r.At(!t) == sys.At(!t)
            && Landed(sys.state, r.state, b, if Last(sys.At(t)) then [|sys.state.trunk| + 1] else [])
            && r.merged == sys.merged + {b} && r.gone == sys.gone + {b} && r.worktrees == sys.worktrees
  {
    var counted := AloneCounts(sys, t, id, b);
    var cleared := AloneMerges(counted, t, b);
    Continue(sys, [t, t], [t, t]);
    OneMore(sys, [t, t] + [t, t], t);
    AloneDeletes(cleared, t, b);
    assert [|sys.state.trunk + [b]|] == [|sys.state.trunk| + 1];
  }

  lemma {:induction false} AloneCounts(sys: System, t: bool, id: AgentId, b: Branch) returns (r: System)
    requires Sane(sys) && AtRow(sys, t, id, b) && b !in sys.merged
    ensures r == Phased(sys, t, Counted(b)) && After(sys, [t, t]) == r
  {
    TwoSteps(sys, t, t);
    ReadStep(sys, t, id, b);
    CountStep(Phased(sys, t, HasRead(b)), t, b);
    r := Phased(sys, t, Counted(b));
  }

  lemma {:induction false} AloneMerges(sys: System, t: bool, b: Branch) returns (r: System)
    requires Sane(sys) && !sys.At(t).Over() && sys.At(t).phase == Counted(b) && b !in sys.merged && b !in sys.gone
    requires sys.At(t).world.merge(sys.At(t).next).Lands? && sys.At(t).world.merge(sys.At(t).next) != Lands("")
    ensures Sane(r) && r == After(sys, [t, t])
    ensures var h := sys.At(t);
            && r.At(t) == h.(phase := Cleared(b), took := h.took + [b]) && r.At(!t) == sys.At(!t)
            && Landed(sys.state, r.state, b, if Last(h) then [|sys.state.trunk + [b]|] else [])
            && r.merged == sys.merged + {b} && r.worktrees == sys.worktrees
            && r.gone == if sys.worktrees then sys.gone else sys.gone + {b}
  {
    TwoSteps(sys, t, t);
    FirstMerge(sys, t, b);
    var taken := Take(sys.(state := sys.state.(trunk := sys.state.trunk + [b])), t, b);
    r := Clear(taken, t, b);
  }

  lemma {:induction false} AloneDeletes(sys: System, t: bool, b: Branch)
    requires Sane(sys) && !sys.At(t).Over() && sys.At(t).phase == Cleared(b)
    ensures var h := sys.At(t);
            Step(sys, t) == sys.(gone := sys.gone + {b}).Put(t, h.(phase := Ready, next := h.next + 1))
  {
  }

  /** Two handlers do the same row side by side. */
  lemma {:induction false} Together(sys: System, id: AgentId, b: Branch)
    requires Sane(sys) && sys.worktrees && AtRow(sys, true, id, b) && AtRow(sys, false, id, b)
    requires b !in sys.merged && b !in sys.gone && !Last(sys.first) && !Last(sys.second)
    ensures var r := After(sys, [true, false] + [true, false] + [true, false] + [true, false] + [true, false]);
            && OneRowOn(sys.first, r.first, b) && OneRowOn(sys.second, r.second, b)
            && r.first.world == sys.first.world && r.second.world == sys.second.world
            && Landed(sys.state, r.state, b, [])
            && r.merged == sys.merged + {b} && r.gone == sys.gone + {b} && r.worktrees
  {
    var counted := BothCount(sys, id, b);
    var taken := BothTake(counted, b);
    BothClear(taken, id, b);
    Continue(sys, [true, false] + [true, false], [true, false]);
    Continue(sys, [true, false] + [true, false] + [true, false], [true, false] + [true, false]);
    assert [true, false] + [true, false] + [true, false] + ([true, false] + [true, false])
           == [true, false] + [true, false] + [true, false] + [true, false] + [true, false];
  }

  lemma {:induction false} BothCount(sys: System, id: AgentId, b: Branch) returns (r: System)
    requires Sane(sys) && AtRow(sys, true, id, b) && AtRow(sys, false, id, b) && b !in sys.merged
    ensures r == sys.(first := sys.first.(phase := Counted(b)), second := sys.second.(phase := Counted(b)))
    ensures After(sys, [true, false] + [true, false]) == r
  {
    TwoSteps(sys, true, false);
    ReadStep(sys, true, id, b);
    ReadStep(Phased(sys, true, HasRead(b)), false, id, b);
    var read := Phased(Phased(sys, true, HasRead(b)), false, HasRead(b));
    Continue(sys, [true, false], [true, false]);
    TwoSteps(read, true, false);
    CountStep(read, true, b);
    CountStep(Phased(read, true, Counted(b)), false, b);
    r := Phased(Phased(read, true, Counted(b)), false, Counted(b));
  }

  lemma {:induction false} BothTake(sys: System, b: Branch) returns (r: System)
    requires Sane(sys) && sys.worktrees && !sys.first.Over() && !sys.second.Over()
    requires sys.first.phase == Counted(b) && sys.second.phase == Counted(b)
    requires b !in sys.merged && b !in sys.gone && sys.first.world.merge(sys.first.next).Lands?
    ensures r == sys.(state := sys.state.(trunk := sys.state.trunk + [b]), merged := sys.merged + {b},
                      first := sys.first.(phase := Taken(b), took := sys.first.took + [b]),
                      second := sys.second.(phase := Taken(b), took := sys.second.took + [b]))
    ensures Sane(r) && After(sys, [true, false]) == r
  {
    TwoSteps(sys, true, false);
    FirstMerge(sys, true, b);
    var once := Take(sys.(state := sys.state.(trunk := sys.state.trunk + [b])), true, b);
    SecondMerge(once, false, b);
    r := Take(once, false, b);
    assert sys.merged + {b} + {b} == sys.merged + {b};
  }

  lemma {:induction false} BothClear(sys: System, id: AgentId, b: Branch)
    requires Sane(sys) && !sys.first.Over() && !sys.second.Over() && !Last(sys.first) && !Last(sys.second)
    requires sys.first.phase == Taken(b) && sys.second.phase == Taken(b)
    requires sys.first.batch[sys.first.next] == id && sys.second.batch[sys.second.next] == id
    ensures var r, h, k := After(sys, [true, false] + [true, false]), sys.first, sys.second;
            && r.first == h.(phase := Ready, next := h.next + 1) && r.second == k.(phase := Ready, next := k.next + 1)
            && r.state.paused == sys.state.paused && r.state.trunk == sys.state.trunk
            && r.state.pushes == sys.state.pushes && |r.state.agents| == |sys.state.agents|
            && (forall i :: 0 <= i < |sys.state.agents| ==>
                  r.state.agents[i].branch ==
                  if sys.state.agents[i].branch == Some(b) then None else sys.state.agents[i].branch)
            && r.merged == sys.merged && r.gone == sys.gone + {b} && r.worktrees == sys.worktrees
  {
    TwoSteps(sys, true, false);
    var once := Clear(sys, true, b);
    var twice := Clear(once, false, b);
    assert After(sys, [true, false]) == twice;
    Continue(sys, [true, false], [true, false]);
    TwoSteps(twice, true, false);
    assert sys.gone + {b} + {b} == sys.gone + {b};
  }

  const SideBySideTurns: seq<bool> :=
    [true, false] + [true, false] + [true, false] + [true, false] + [true, false]

  function Five(t: bool): seq<bool> {
    [t, t] + [t, t] + [t]
  }

  lemma {:induction false} ThreeBranches(sys: System, id: AgentId, x: AgentId, y: AgentId)
    requires Begins(sys) && GitRefusesNothing(sys)
    requires sys.first.batch == [id, x] && sys.second.batch == [id, y] && OwnBranches(sys.state.agents, [id, x, y])
    requires id < |sys.state.agents| && x < |sys.state.agents| && y < |sys.state.agents|
    ensures var agents := sys.state.agents;
            var b, c, d := BranchName(agents[id]), BranchName(agents[x]), BranchName(agents[y]);
            && agents[id].branch == Some(b) && agents[x].branch == Some(c) && agents[y].branch == Some(d)
            && b != c && c != d && b != d && AtRow(sys, true, id, b) && AtRow(sys, false, id, b)
  {
    var agents, whole := sys.state.agents, [id, x, y];
    assert whole[0] == id && whole[1] == x && whole[2] == y;
    assert agents[whole[0]].branch != agents[whole[1]].branch && agents[whole[1]].branch != agents[whole[2]].branch
           && agents[whole[0]].branch != agents[whole[2]].branch;
    assert sys.At(true) == sys.first && sys.At(false) == sys.second;
  }

  /** After the sibling, each handler does its trigger alone. */
  lemma {:induction false} OwnTriggersLand(sys: System, x: AgentId, y: AgentId, c: Branch, d: Branch)
    requires Sane(sys) && AtRow(sys, true, x, c) && AtRow(sys, false, y, d) && c != d
    requires c !in sys.merged + sys.gone && d !in sys.merged + sys.gone && Last(sys.first) && Last(sys.second)
    requires sys.first.world.merge(sys.first.next) != Lands("") && sys.second.world.merge(sys.second.next) != Lands("")
    ensures var r := After(sys, Five(true) + Five(false));
            && OneRowOn(sys.first, r.first, c) && OneRowOn(sys.second, r.second, d)
            && r.state.paused == sys.state.paused && r.state.trunk == sys.state.trunk + [c, d]
            && r.state.pushes == sys.state.pushes + [|sys.state.trunk| + 1, |sys.state.trunk| + 2]
  {
    Alone(sys, true, x, c);
    var s := After(sys, Five(true));
    assert s.first == s.At(true) && s.second == s.At(false);
    Alone(s, false, y, d);
    Continue(sys, Five(true), Five(false));
    assert sys.state.trunk + [c] + [d] == sys.state.trunk + [c, d];
    assert sys.state.pushes + [|sys.state.trunk| + 1] + [|sys.state.trunk| + 2]
           == sys.state.pushes + [|sys.state.trunk| + 1, |sys.state.trunk| + 2];
  }
}
