/** Two boundary handlers of one plan at once: when a branch lands in both, and when both land their batches
    (server-rs/src/auto_mode.rs, server-rs/src/api/agents.rs). */
module TwoBoundaries {
  import opened Util
  import opened AutoMode
  import opened Batches
  import opened NoLimbo
  import opened Decisions
  import opened TwoHandlers

  /** Whatever git answers: a branch counts as landed in both handlers if and only if they do it side by side. */
  lemma {:induction false} LandsInBothExactly(sys: System, turns: seq<bool>, b: Branch)
    requires Begins(sys)
    ensures var r := After(sys, turns);
            b in r.first.took && b in r.second.took <==> SideBySide(sys, turns, b)
  {
    HistoryHolds(sys, turns, b);
    if m, n :| 0 <= m < n <= |turns| && BothCounted(sys, turns, m, b) && BothTaken(sys, turns, n, b) {
      RunKeeps(sys, turns[..n]);
      PastTook(sys, After(sys, turns[..n]), b);
      TookGrows(sys, turns, n);
    }
  }

  /** When git refuses nothing of its own accord, both batches land if and only if no batch has two rows of one branch,
      or a row without, and every branch in both is done side by side. Otherwise one of the two finds a branch cleared,
      without commits, or deleted, and pauses the plan. */
  lemma {:induction false} BothLandExactly(sys: System, turns: seq<bool>)
    requires Begins(sys) && GitRefusesNothing(sys) && sys.state.paused.None? && BothOver(After(sys, turns))
    ensures var r, agents := After(sys, turns), sys.state.agents;
            && (!r.first.stopped && !r.second.stopped <==>
                  && OwnBranches(agents, sys.first.batch) && OwnBranches(agents, sys.second.batch)
                  && forall b :: b in Branches(agents, sys.first.batch) && b in Branches(agents, sys.second.batch) ==>
                       SideBySide(sys, turns, b))
            && (r.state.paused.Some? <==> r.first.stopped || r.second.stopped)
  {
    var r, agents := After(sys, turns), sys.state.agents;
    RunKeeps(sys, turns);
    StopsHold(sys, turns);
    if !r.first.stopped && !r.second.stopped {
      AllTook(sys, r, true);
      AllTook(sys, r, false);
      forall b | b in Branches(agents, sys.first.batch) && b in Branches(agents, sys.second.batch)
        ensures SideBySide(sys, turns, b)
      {
        LandsInBothExactly(sys, turns, b);
      }
    }
    if OwnBranches(agents, sys.first.batch) && OwnBranches(agents, sys.second.batch)
      && forall b :: b in Branches(agents, sys.first.batch) && b in Branches(agents, sys.second.batch) ==>
           SideBySide(sys, turns, b)
    {
      forall turn ensures !r.At(turn).stopped {
        NeverStops(sys, turns, turn);
      }
      assert !r.At(true).stopped && !r.At(false).stopped;
    }
  }

  /** Without worktrees of their own, agents leave no way for two handlers to take one branch: the first merge deletes
      it. */
  lemma {:induction false} OnlyWithWorktrees(sys: System, turns: seq<bool>, b: Branch)
    requires Begins(sys) && !sys.worktrees
    ensures !SideBySide(sys, turns, b)
  {
    LandsInBothExactly(sys, turns, b);
    NeverBoth(sys, turns, b);
  }

  /** So without them the two land both batches exactly when no two rows of the two share a branch. */
  lemma {:induction false} DisjointExactly(sys: System, turns: seq<bool>)
    requires Begins(sys) && GitRefusesNothing(sys) && sys.state.paused.None? && BothOver(After(sys, turns))
    requires !sys.worktrees
    ensures !After(sys, turns).first.stopped && !After(sys, turns).second.stopped <==>
            OwnBranches(sys.state.agents, sys.first.batch + sys.second.batch)
  {
    var agents, a, b := sys.state.agents, sys.first.batch, sys.second.batch;
    BothLandExactly(sys, turns);
    forall c ensures !SideBySide(sys, turns, c) {
      OnlyWithWorktrees(sys, turns, c);
    }
    OwnTogether(agents, a, b);
  }

  /** Both handlers list the same deferred sibling, do it side by side, and then their own triggers. Git refuses
      nothing, nobody pauses, the sibling counts as landed in both, and both push. */
  lemma {:induction false} SharedSiblingUnnoticed(sys: System, id: AgentId, x: AgentId, y: AgentId)
    requires Begins(sys) && GitRefusesNothing(sys) && sys.worktrees && sys.state.paused.None?
    requires sys.first.world.merge(1) != Lands("") && sys.second.world.merge(1) != Lands("")
    requires sys.first.batch == [id, x] && sys.second.batch == [id, y] && OwnBranches(sys.state.agents, [id, x, y])
    requires id < |sys.state.agents| && x < |sys.state.agents| && y < |sys.state.agents|
    ensures var agents := sys.state.agents;
            var b, c, d := BranchName(agents[id]), BranchName(agents[x]), BranchName(agents[y]);
            var r := After(sys, SideBySideTurns + Five(true) + Five(false));
            && BothOver(r) && !r.first.stopped && !r.second.stopped && r.state.paused.None?
            && r.first.took == [b, c] && r.second.took == [b, d]
            && r.state.trunk == sys.state.trunk + [b, c, d]
            && r.state.pushes == sys.state.pushes + [|sys.state.trunk| + 2, |sys.state.trunk| + 3]
  {
    var agents := sys.state.agents;
    ThreeBranches(sys, id, x, y);
    var b, c, d := BranchName(agents[id]), BranchName(agents[x]), BranchName(agents[y]);
    Together(sys, id, b);
    var s1 := After(sys, SideBySideTurns);
    OwnTriggersLand(s1, x, y, c, d);
    Continue(sys, SideBySideTurns, Five(true) + Five(false));
    assert SideBySideTurns + (Five(true) + Five(false)) == SideBySideTurns + Five(true) + Five(false);
    assert sys.state.trunk + [b] + [c, d] == sys.state.trunk + [b, c, d];
  }

  lemma {:induction false} NeverStops(sys: System, turns: seq<bool>, turn: bool)
    requires Begins(sys) && GitRefusesNothing(sys) && sys.state.paused.None?
    requires var agents := sys.state.agents;
             && OwnBranches(agents, sys.first.batch) && OwnBranches(agents, sys.second.batch)
             && forall b :: b in Branches(agents, sys.first.batch) && b in Branches(agents, sys.second.batch) ==>
                  SideBySide(sys, turns, b)
    ensures !After(sys, turns).At(turn).stopped
  {
    var r, agents := After(sys, turns), sys.state.agents;
    RunKeeps(sys, turns);
    StopsHold(sys, turns);
    if r.At(turn).stopped {
      var h, other := r.At(turn), r.At(!turn);
      assert HandlerOk(sys, r, turn) && HandlerOk(sys, r, !turn) && StopOk(sys, r, turn);
      var b := BranchName(agents[h.batch[h.next]]);
      assert OwnBranches(agents, h.batch) && agents[h.batch[h.next]].branch == Some(b);
      NotTakenYet(sys, r, turn, b);
      assert b in other.took;
      TookInBatch(sys, r, !turn, b);
      assert Branches(agents, h.batch)[h.next] == b;
      LandsInBothExactly(sys, turns, b);
    }
  }

  /** The same, access by access: nobody stops if and only if every row still has its branch when it is read, commits
      ahead of trunk when they are counted, and an existing branch when it is merged. */
  lemma {:induction false} StopsExactlyAt(sys: System, turns: seq<bool>)
    requires Begins(sys) && GitRefusesNothing(sys)
    ensures !After(sys, turns).first.stopped && !After(sys, turns).second.stopped <==>
            NothingFails(sys, turns)
  {
    if turns == [] {
      assert sys.first == sys.At(true) && sys.second == sys.At(false);
    } else {
      var n := |turns| - 1;
      var front := turns[..n];
      StopsExactlyAt(sys, front);
      RunKeeps(sys, front);
      StopIsFailure(sys, After(sys, front), turns[n]);
      NothingMoreFails(sys, turns);
    }
  }

  ghost predicate NothingFails(sys: System, turns: seq<bool>)
    requires Sane(sys)
  {
    forall k :: 0 <= k < |turns| ==> !FailsAt(sys, turns, k)
  }

  lemma {:induction false} NothingMoreFails(sys: System, turns: seq<bool>)
    requires Sane(sys) && turns != []
    ensures var n := |turns| - 1;
            NothingFails(sys, turns) <==> NothingFails(sys, turns[..n]) && !Fails(After(sys, turns[..n]), turns[n])
  {
    var n := |turns| - 1;
    forall k | 0 <= k < n ensures FailsAt(sys, turns[..n], k) == FailsAt(sys, turns, k) {
      assert turns[..n][..k] == turns[..k];
    }
    assert FailsAt(sys, turns, n) == Fails(After(sys, turns[..n]), turns[n]);
  }

  /** Three tasks of one phase: one agent's row is deferred, the other two complete when every status is in. */
  const Three := State(true, None,
                       [Agent("1", Work, Some("b1"), Deferred), Agent("2", Work, Some("b2"), NoStatus),
                        Agent("3", Work, Some("b3"), NoStatus)],
                       map["1" := Completed, "2" := Completed, "3" := Completed], [], [], [], [], [])

  function Landing(): World {
    World(Some([["1", "2", "3"]]), PerPhase, 0, false, false, true, Pass, _ => Lands("sha"), CiGreen, false)
  }

  const Start := System(Three, true, {}, {}, Handler(Landing(), [0, 1], 0, Ready, false, []),
                        Handler(Landing(), [0, 2], 0, Ready, false, []))

  /** So nobody notices. */
  lemma {:induction false} ThreeUnnoticed()
    ensures var r := After(Start, SideBySideTurns + Five(true) + Five(false));
            && BothOver(r) && r.state.paused.None? && r.first.took == ["b1", "b2"] && r.second.took == ["b1", "b3"]
            && r.state.trunk == ["b1", "b2", "b3"] && r.state.pushes == [2, 3]
  {
    ThreeOwn();
    assert forall turn :: Start.At(turn) == Handler(Start.At(turn).world, Start.At(turn).batch, 0, Ready, false, []);
    SharedSiblingUnnoticed(Start, 0, 1, 2);
    assert [] + ["b1", "b2", "b3"] == ["b1", "b2", "b3"] && [] + [2, 3] == [2, 3];
  }

  /** Both completions are at the boundary and list the same sibling; so that run is theirs. */
  lemma {:induction false} ThreeShareSibling()
    ensures Due(Three, Landing(), "2") && Due(Three, Landing(), "3")
    ensures WholeBatch(Three, Landing(), 1) == [0, 1] && WholeBatch(Three, Landing(), 2) == [0, 2]
    ensures OwnBranches(Three.agents, [0, 1, 2])
  {
    OnePhase("2");
    OnePhase("3");
    OneListed(1);
    OneListed(2);
    ThreeOwn();
  }

  lemma {:induction false} OnePhase(t: Task)
    requires t in ["1", "2", "3"]
    ensures PhaseOf([["1", "2", "3"]], t) == Some(["1", "2", "3"])
    ensures Due(Three, Landing(), t) && DrainScope(Landing(), t) == ["1", "2", "3"]
  {
    var plan := [["1", "2", "3"]];
    assert plan[0] == ["1", "2", "3"];
    DueExactly(Three, Landing(), t);
  }

  lemma {:induction false} ThreeOwn()
    ensures OwnBranches(Three.agents, [0, 1, 2])
  {
    assert "b1"[1] != "b2"[1] && "b2"[1] != "b3"[1] && "b1"[1] != "b3"[1];
  }

  lemma {:induction false} OneListed(trigger: AgentId)
    requires trigger == 1 || trigger == 2
    ensures Listed(Three.agents, ["1", "2", "3"], 3, Some(trigger)) == [0]
  {
    var agents, order := Three.agents, ["1", "2", "3"];
    assert Latest(agents, 3, "2", Some(trigger)) == None && Latest(agents, 3, "3", Some(trigger)) == None;
    assert Drainable(agents, 0, "1", Some(trigger));
    assert Latest(agents, 3, "1", Some(trigger)) == Some(0);
    assert order[..0] == [] && order[..1] == ["1"] && order[..2] == ["1", "2"];
    assert Listed(agents, order, 0, Some(trigger)) == [];
    assert Listed(agents, order, 1, Some(trigger)) == [0];
    assert Listed(agents, order, 2, Some(trigger)) == [0];
  }
}
