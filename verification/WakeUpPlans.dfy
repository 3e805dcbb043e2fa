/** The declared side of a plan, read off its node tree, for the wake-up protocol (server-rs/src/dag_scheduler.rs). */
module WakeUpPlans {
  import opened Util
  import opened FlatGraph
  import opened DagPlan
  import opened Artifacts
  import NodeGraph
  import SubPlanGraph
  import SubPlans
  import WakeUp
  import WakeUpRuns

  /** The scoped ids of the gates of a kind. */
  ghost function GatesOfKind(nodes: seq<DagNode>, kind: GateKind): set<Id> {
    set v | v in Visits(nodes, None) && v.node.nodeType.Gate? && v.node.gateKind == Some(kind) :: v.entry.id
  }

  /** What a node waits for: its dependencies, those of the sub-plans around it, or, for a sub-plan, its children. */
  ghost function NeedsIn(waits: seq<Entry>, id: Id): set<Id> {
    set e, d | e in waits && d in e.deps && e.id == id :: d
  }

  ghost function InfoOf(inputs: seq<PlanArtifact>, outputs: set<Name>, nodes: seq<DagNode>, reported: set<Id>):
    WakeUp.PlanInfo
  {
    var waits := SubPlanGraph.Waits(nodes);
    WakeUp.PlanInfo(inputs, outputs, GatesOfKind(nodes, Init), GatesOfKind(nodes, End),
                    GatesOfKind(nodes, Ci) + GatesOfKind(nodes, Approval),
                    map id | id in Ids(waits) :: NeedsIn(waits, id), reported)
  }

  /** In a plan that is validated and can finish, every Init gate can run without its approval, whatever else is
      reported or approved, and every End gate can run. So of the conditions of the wake-up protocol two are left there:
      an input nobody produces, and an End gate that can run without the approval of a gate with an input of its own. */
  lemma {:induction false} FinishingPlansRun(inputs: seq<PlanArtifact>, outputs: set<Name>, nodes: seq<DagNode>,
                                             reported: set<Id>, u: Id)
    requires SubPlanGraph.Fresh(nodes) && SubPlans.CanFinish(nodes)
    ensures var info := InfoOf(inputs, outputs, nodes, reported);
            && (u in info.gates ==> info.CanRun({u}, u))
            && (u in info.ends ==> info.CanRun({}, u))
  {
    var info, waits := InfoOf(inputs, outputs, nodes, reported), SubPlanGraph.Waits(nodes);
    SubPlans.FinishesExactly(nodes);
    SubPlanGraph.SameNodes(nodes);
    var rank :| FlatGraph.Ranked(waits, rank);
    forall n | n in info.needs
      ensures n in rank && forall d :: d in info.needs[n] ==> d in info.needs && d in rank && rank[d] < rank[n]
    {
      forall d | d in info.needs[n] ensures d in info.needs && d in rank && rank[d] < rank[n] {
        assert DependsOn(waits, n, d);
      }
    }
    assert NodeGraph.Ranked(info.Graph(), rank);
    GatesAreNodes(nodes);
    WakeUpRuns.SoundGatesRun(info, u);
  }

  lemma {:induction false} GatesAreNodes(nodes: seq<DagNode>)
    ensures forall kind :: GatesOfKind(nodes, kind) <= Ids(Flatten(nodes))
  {
    forall v | v in Visits(nodes, None) ensures v.entry.id in Ids(Flatten(nodes)) {
      var i :| 0 <= i < |Visits(nodes, None)| && Visits(nodes, None)[i] == v;
      assert Flatten(nodes)[i] == v.entry && v.entry in Flatten(nodes);
    }
  }
}
