/** Which plans with sub-plans can finish, and where the others stop (server-rs/src/dag_scheduler.rs). */
module SubPlans {
  import opened Util
  import opened FlatGraph
  import opened Kahn
  import opened DagPlan
  import opened SubPlanGraph

  ghost predicate Finished(nodes: seq<DagNode>, steps: seq<Id>) {
    Ids(Flatten(nodes)) <= Elems(steps)
  }

  ghost predicate CanFinish(nodes: seq<DagNode>) {
    exists steps :: SchedulerRun(nodes, steps) && Finished(nodes, steps)
  }

  ghost predicate Maximal(nodes: seq<DagNode>, steps: seq<Id>) {
    SchedulerRun(nodes, steps) && forall id :: !Progresses(nodes, Elems(steps), id)
  }

  /** A run of a validated plan stops exactly when what is left is the greatest set of nodes that wait on one another:
      so every run that cannot go on leaves the same nodes undone, whatever the order. */
  lemma {:induction false} StopsExactly(nodes: seq<DagNode>, steps: seq<Id>)
    requires Fresh(nodes) && SchedulerRun(nodes, steps)
    ensures Maximal(nodes, steps) <==> GreatestStuck(Waits(nodes), Ids(Flatten(nodes)) - Elems(steps))
  {
    var waits, rest := Waits(nodes), Ids(Flatten(nodes)) - Elems(steps);
    SameNodes(nodes);
    RunKeepsWaits(nodes, steps);
    if Maximal(nodes, steps) {
      NothingProgresses(nodes, steps);
      GreatestIsRest(waits, steps, rest);
    }
    if GreatestStuck(waits, rest) {
      forall id ensures !Progresses(nodes, Elems(steps), id) {
        ProgressMeaning(nodes, Elems(steps), id);
        assert id in rest ==> WaitsOn(waits, id, rest);
      }
    }
  }

  /** A validated plan can finish if and only if nobody waits, through any number of others, for themselves. If so,
      every run that cannot go on has finished. */
  lemma {:induction false} FinishesExactly(nodes: seq<DagNode>)
    requires Fresh(nodes)
    ensures CanFinish(nodes) <==> Acyclic(Waits(nodes))
    ensures CanFinish(nodes) ==> forall steps :: Maximal(nodes, steps) ==> Finished(nodes, steps)
  {
    if CanFinish(nodes) {
      var steps :| SchedulerRun(nodes, steps) && Finished(nodes, steps);
      FinishedRanks(nodes, steps);
    }
    if Acyclic(Waits(nodes)) {
      forall steps | Maximal(nodes, steps) ensures Finished(nodes, steps) {
        RankedFinishes(nodes, steps);
      }
      var all := GoOn(nodes, []);
      assert Finished(nodes, all);
    }
  }

  lemma {:induction false} FinishedRanks(nodes: seq<DagNode>, steps: seq<Id>)
    requires Fresh(nodes) && SchedulerRun(nodes, steps) && Finished(nodes, steps)
    ensures Acyclic(Waits(nodes))
  {
    SameNodes(nodes);
    RunKeepsWaits(nodes, steps);
    TopoOrderGivesRank(Waits(nodes), steps);
  }

  lemma {:induction false} RankedFinishes(nodes: seq<DagNode>, steps: seq<Id>)
    requires Fresh(nodes) && Acyclic(Waits(nodes)) && Maximal(nodes, steps)
    ensures Finished(nodes, steps)
  {
    StopsExactly(nodes, steps);
    RankLeavesNothing(Waits(nodes), Ids(Flatten(nodes)) - Elems(steps));
  }

  /** When nothing progresses, whatever is left waits for something left. */
  lemma {:induction false} NothingProgresses(nodes: seq<DagNode>, steps: seq<Id>)
    requires Fresh(nodes) && Maximal(nodes, steps)
    ensures Stuck(Waits(nodes), Ids(Flatten(nodes)) - Elems(steps))
  {
    var waits, rest := Waits(nodes), Ids(Flatten(nodes)) - Elems(steps);
    SameNodes(nodes);
    RunKeepsWaits(nodes, steps);
    forall a | a in rest ensures WaitsOn(waits, a, rest) {
      ProgressMeaning(nodes, Elems(steps), a);
      var e :| e in waits && e.id == a;
      assert !Unblocked(e, Elems(steps), a);
      var d :| d in e.deps && d !in Elems(steps);
      assert DependsOn(waits, a, d);
    }
  }

  /** Every run can be continued to one that cannot. */
  lemma {:induction false} GoOn(nodes: seq<DagNode>, steps: seq<Id>) returns (all: seq<Id>)
    requires Fresh(nodes) && SchedulerRun(nodes, steps)
    ensures steps <= all && Maximal(nodes, all)
    decreases |Flatten(nodes)| - |steps|
  {
    all := steps;
    if id :| Progresses(nodes, Elems(steps), id) {
      var more := steps + [id];
      assert more[..|steps|] == steps;
      RunIsShort(nodes, more);
      all := GoOn(nodes, more);
    }
  }

  lemma {:induction false} RunIsShort(nodes: seq<DagNode>, steps: seq<Id>)
    requires Fresh(nodes) && SchedulerRun(nodes, steps)
    ensures |steps| <= |Flatten(nodes)|
  {
    RunKeepsWaits(nodes, steps);
    SameNodes(nodes);
    NoDupCardinality(steps);
    SubsetCardinality(Elems(steps), Ids(Flatten(nodes)));
    IdsCardinality(Flatten(nodes));
  }

  /** A child that waits for a node which waits for the sub-plan. */
  const Waiting := DagNode("c", Task, ["X"], None, [], None)

  const Crossed := [DagNode("S", SubPlan, [], None, [Waiting], None), DagNode("X", Task, ["S"], None, [], None)]

  /** Validation accepts it, and it cannot finish. */
  lemma {:induction false} ValidatedButStuck()
    ensures Fresh(Crossed) && !CanFinish(Crossed)
  {
    CrossedFlat();
    CrossedIsValid(Flatten(Crossed));
    CrossedWaits();
    CrossedIsStuck(Waits(Crossed));
    FinishesExactly(Crossed);
    assert "S" in {"S", "X", "S.c"};
    if Acyclic(Waits(Crossed)) {
      RankLeavesNothing(Waits(Crossed), {"S", "X", "S.c"});
    }
  }

  lemma {:induction false} CrossedIsValid(flat: seq<Entry>)
    requires flat == [Entry("S", []), Entry("S.c", ["X"]), Entry("X", ["S"])]
    ensures TopoOrder(flat, ["S", "X", "S.c"])
  {
    var order := ["S", "X", "S.c"];
    assert order[..0] == [] && order[..1] == ["S"] && order[..2] == ["S", "X"];
    assert "S.c"[0] == 'S' && |"S.c"| == 3;
  }

  lemma {:induction false} CrossedIsStuck(waits: seq<Entry>)
    requires waits == [Entry("S.c", ["X"]), Entry("X", ["S"]), Entry("S", ["S.c"])]
    ensures Stuck(waits, {"S", "X", "S.c"})
  {
    var all := {"S", "X", "S.c"};
    assert waits[0] in waits && waits[1] in waits && waits[2] in waits;
    assert DependsOn(waits, "S.c", "X") && DependsOn(waits, "X", "S") && DependsOn(waits, "S", "S.c");
    assert WaitsOn(waits, "S.c", all) && WaitsOn(waits, "X", all) && WaitsOn(waits, "S", all);
  }

  lemma {:induction false} CrossedFlat()
    ensures Flatten(Crossed) == [Entry("S", []), Entry("S.c", ["X"]), Entry("X", ["S"])]
    ensures AllActionable(Crossed, {})
  {
    var s, x := Crossed[0], Crossed[1];
    assert Crossed[1..] == [x] && [x][1..] == [] && [Waiting][1..] == [];
    assert Scope(Some("S"), "c") == "S.c";
    NoSibling();
    assert ScopeDeps(Crossed, None, []) == [] && ScopeDeps(Crossed, None, ["S"]) == ["S"];
    assert VisitsFrom([Waiting], [Waiting], Some("S")) == [Visit(Entry("S.c", ["X"]), Waiting)];
    assert VisitsFrom([x], Crossed, None) == [Visit(Entry("X", ["S"]), x)];
  }

  lemma {:induction false} NoSibling()
    ensures ScopeDeps([Waiting], Some("S"), ["X"]) == ["X"]
  {
    assert "c"[0] != "X"[0];
    assert !IsSibling([Waiting], "X");
  }

  lemma {:induction false} CrossedWaits()
    ensures Waits(Crossed) == [Entry("S.c", ["X"]), Entry("X", ["S"]), Entry("S", ["S.c"])]
  {
    var s, x := Crossed[0], Crossed[1];
    assert Crossed[1..] == [x] && [x][1..] == [] && [Waiting][1..] == [];
    assert Scope(Some("S"), "c") == "S.c";
    NoSibling();
    assert ScopeDeps(Crossed, None, []) == [] && ScopeDeps(Crossed, None, ["S"]) == ["S"];
    assert [] + ["X"] == ["X"] && [] + ["S"] == ["S"];
    assert Leaves([Waiting], [Waiting], Some("S"), []) == [Entry("S.c", ["X"])];
    assert Leaves([x], Crossed, None, []) == [Entry("X", ["S"])];
    assert Children(s, "S") == ["S.c"];
    NoPlans(Waiting, Some("S"));
    NoPlans(x, None);
  }

  lemma {:induction false} NoPlans(n: DagNode, prefix: Option<Id>)
    requires !n.nodeType.SubPlan?
    ensures Plans([n], prefix) == []
  {
    assert [n][1..] == [];
  }
}
