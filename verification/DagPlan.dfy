/** The node tree of a plan: flattening with scoped ids, look-ups and ready sets (server-rs/src/dag.rs). */
module DagPlan {
  import opened Util
  import opened FlatGraph
  import opened Kahn

  datatype NodeType = Task | Gate | SubPlan

  datatype GateKind = Init | End | Ci | Approval

  datatype DagNode = DagNode(
    id: Id,
    nodeType: NodeType,
    dependsOn: seq<Id>,
    gateKind: Option<GateKind>,
    nodes: seq<DagNode>,
    status: Option<string>)
  {
    /** `status` pending (also when absent) or failed. */
    predicate Actionable() {
      status == None || status == Some("pending") || status == Some("failed")
    }

    predicate IsInitGate() {
      nodeType == Gate && gateKind == Some(Init)
    }
  }

  /** Not yet started, or to be tried again. */
  ghost predicate MayStart(n: DagNode) {
    n.status == None || n.status == Some("pending") || n.status == Some("failed")
  }

  ghost predicate InitGate(n: DagNode) {
    n.nodeType == Gate && n.gateKind == Some(Init)
  }

  // ---------------------------------------------------------------- scoping

  function Scope(prefix: Option<Id>, id: Id): Id {
    match prefix
    case Some(p) => p + "." + id
    case None => id
  }

  predicate IsSibling(siblings: seq<DagNode>, d: Id) {
    exists n :: n in siblings && n.id == d
  }

  /** A dependency on a sibling is scoped; anything else is taken as already scoped. */
  function ScopeDep(siblings: seq<DagNode>, prefix: Option<Id>, d: Id): Id {
    if IsSibling(siblings, d) then Scope(prefix, d) else d
  }

  function ScopeDeps(siblings: seq<DagNode>, prefix: Option<Id>, deps: seq<Id>): (r: seq<Id>)
    ensures |r| == |deps| && forall i :: 0 <= i < |deps| ==> r[i] == ScopeDep(siblings, prefix, deps[i])
    ensures forall d :: d in r <==> exists e :: e in deps && d == ScopeDep(siblings, prefix, e)
  {
    var r := seq(|deps|, i requires 0 <= i < |deps| => ScopeDep(siblings, prefix, deps[i]));
    assert forall i :: 0 <= i < |deps| ==> r[i] == ScopeDep(siblings, prefix, deps[i]);
    r
  }

  // ---------------------------------------------------------------- flattening

  /** One node of the tree together with the entry it contributes to the flat graph. */
  datatype Visit = Visit(entry: Entry, node: DagNode)

  ghost function VisitOf(node: DagNode, siblings: seq<DagNode>, prefix: Option<Id>): Visit {
    Visit(Entry(Scope(prefix, node.id), ScopeDeps(siblings, prefix, node.dependsOn)), node)
  }

  /** Preorder walk over `rest` (a suffix of `siblings`) and the sub-plans below. */
  ghost function VisitsFrom(rest: seq<DagNode>, siblings: seq<DagNode>, prefix: Option<Id>): seq<Visit>
    decreases rest
  {
    if rest == [] then []
    else
      var below := if rest[0].nodeType.SubPlan?
                   then VisitsFrom(rest[0].nodes, rest[0].nodes, Some(Scope(prefix, rest[0].id)))
                   else [];
      [VisitOf(rest[0], siblings, prefix)] + below + VisitsFrom(rest[1..], siblings, prefix)
  }

  ghost function Visits(nodes: seq<DagNode>, prefix: Option<Id>): seq<Visit> {
    VisitsFrom(nodes, nodes, prefix)
  }

  ghost function Entries(visits: seq<Visit>): (r: seq<Entry>)
    ensures |r| == |visits| && forall i :: 0 <= i < |visits| ==> r[i] == visits[i].entry
  {
    seq(|visits|, i requires 0 <= i < |visits| => visits[i].entry)
  }

  lemma {:induction false} EntriesConcat(a: seq<Visit>, b: seq<Visit>)
    ensures Entries(a + b) == Entries(a) + Entries(b)
  {
  }

  ghost function Flatten(nodes: seq<DagNode>): seq<Entry> {
    Entries(Visits(nodes, None))
  }

  ghost function Below(node: DagNode, prefix: Option<Id>): seq<Visit> {
    if node.nodeType.SubPlan? then Visits(node.nodes, Some(Scope(prefix, node.id))) else []
  }

  lemma {:induction false} EntriesStep(nodes: seq<DagNode>, i: nat, prefix: Option<Id>)
    requires i < |nodes|
    ensures Entries(VisitsFrom(nodes[i..], nodes, prefix)) ==
            [VisitOf(nodes[i], nodes, prefix).entry] + Entries(Below(nodes[i], prefix))
            + Entries(VisitsFrom(nodes[i + 1..], nodes, prefix))
  {
    var rest := nodes[i..];
    assert rest[0] == nodes[i] && rest[1..] == nodes[i + 1..];
    var here := [VisitOf(nodes[i], nodes, prefix)];
    EntriesConcat(here + Below(nodes[i], prefix), VisitsFrom(nodes[i + 1..], nodes, prefix));
    EntriesConcat(here, Below(nodes[i], prefix));
    assert Entries(here) == [here[0].entry];
  }

  /** `flatten_nodes`. */
  method FlattenNodes(nodes: seq<DagNode>, prefix: Option<Id>) returns (out: seq<Entry>)
    ensures out == Entries(Visits(nodes, prefix))
    decreases nodes
  {
    out := [];
    assert nodes[0..] == nodes;
    for i := 0 to |nodes|
      invariant Entries(Visits(nodes, prefix)) == out + Entries(VisitsFrom(nodes[i..], nodes, prefix))
    {
      EntriesStep(nodes, i, prefix);
      var node := nodes[i];
      var scoped := Scope(prefix, node.id);
      var entry := Entry(scoped, ScopeDeps(nodes, prefix, node.dependsOn));
      var children := [];
      if node.nodeType.SubPlan? && node.nodes != [] {
        children := FlattenNodes(node.nodes, Some(scoped));
      }
      assert children == Entries(Below(node, prefix));
      Regroup(out, [entry], children, Entries(VisitsFrom(nodes[i + 1..], nodes, prefix)));
      out := out + [entry] + children;
    }
  }

  /** `validate_dag` and `topological_order`. */
  method ValidateDag(nodes: seq<DagNode>) returns (r: Result<seq<Id>, GraphError>)
    ensures r.Ok? <==> Closed(Flatten(nodes)) && DistinctIds(Flatten(nodes)) && Acyclic(Flatten(nodes))
    ensures r.Ok? ==> FifoOrder(Flatten(nodes), r.value)
    ensures r.Err? && r.error.Dangling? <==> !Closed(Flatten(nodes))
    ensures r.Err? && r.error.Dangling? ==> FirstDanglingIs(Flatten(nodes), r.error)
    ensures r.Err? && r.error.Cycle? ==>
              GreatestStuck(Flatten(nodes), r.error.involved)
              && (r.error.involved == {} <==> Acyclic(Flatten(nodes)))
  {
    var flat := FlattenNodes(nodes, None);
    r := ValidateFlatGraph(flat);
  }

  // ---------------------------------------------------------------- membership

  /** Where a visit comes from: this level, or the children of a sub-plan at this level. */
  lemma {:induction false} VisitsByLevel(rest: seq<DagNode>, siblings: seq<DagNode>, prefix: Option<Id>, v: Visit)
    ensures v in VisitsFrom(rest, siblings, prefix) <==>
            exists n :: n in rest &&
                        (v == VisitOf(n, siblings, prefix) ||
                         (n.nodeType.SubPlan? && v in Visits(n.nodes, Some(Scope(prefix, n.id)))))
    decreases rest
  {
    if rest != [] {
      VisitsByLevel(rest[1..], siblings, prefix, v);
      assert rest == [rest[0]] + rest[1..];
    }
  }

  // ---------------------------------------------------------------- ready sets

  /** `ready_nodes`: the filter over the top level. */
  function ReadyNodes(nodes: seq<DagNode>, done: set<Id>): (r: seq<DagNode>)
    ensures forall n :: n in r <==>
        n in nodes && n.id !in done && MayStart(n) && forall d :: d in n.dependsOn ==> d in done
  {
    if nodes == [] then []
    else
      var n := nodes[0];
      var ready := n.id !in done && n.Actionable() && forall d :: d in n.dependsOn ==> d in done;
      (if ready then [n] else []) + ReadyNodes(nodes[1..], done)
  }

  /** `ready_sub_plan_nodes`: the filter over the children of sub-plan `parent`. */
  function ReadySubPlanNodes(parent: Id, children: seq<DagNode>, done: set<Id>): seq<DagNode> {
    ReadySubPlanFrom(parent, children, children, done)
  }

  function ReadySubPlanFrom(parent: Id, rest: seq<DagNode>, children: seq<DagNode>, done: set<Id>): (r: seq<DagNode>)
    ensures forall n :: n in r <==> n in rest && MayStart(n) && parent + "." + n.id !in done &&
                                    forall d :: d in n.dependsOn ==>
                                                  (if IsSibling(children, d) then parent + "." + d else d) in done
  {
    if rest == [] then []
    else
      var n := rest[0];
      var ready :=
        && n.Actionable()
        && (forall d :: d in n.dependsOn ==> (if IsSibling(children, d) then parent + "." + d else d) in done)
        && parent + "." + n.id !in done;
      (if ready then [n] else []) + ReadySubPlanFrom(parent, rest[1..], children, done)
  }

  function ReadyAt(nodes: seq<DagNode>, prefix: Option<Id>, done: set<Id>): seq<DagNode> {
    match prefix
    case None => ReadyNodes(nodes, done)
    case Some(p) => ReadySubPlanNodes(p, nodes, done)
  }

  /** Node `n` is returned, under scoped id `id`, by the ready function of its own nesting level. */
  ghost predicate ReadyAnywhere(nodes: seq<DagNode>, prefix: Option<Id>, done: set<Id>, id: Id, n: DagNode)
    decreases nodes
  {
    || (n in ReadyAt(nodes, prefix, done) && id == Scope(prefix, n.id))
    || exists i :: 0 <= i < |nodes| && nodes[i].nodeType.SubPlan?
                   && ReadyAnywhere(nodes[i].nodes, Some(Scope(prefix, nodes[i].id)), done, id, n)
  }

  /** What "ready" means on the flat graph. */
  ghost predicate Runnable(v: Visit, done: set<Id>) {
    && v.entry.id !in done
    && MayStart(v.node)
    && forall d :: d in v.entry.deps ==> d in done
  }

  /** The ready functions, applied at every nesting level, return exactly the actionable nodes that are not done
      and whose scoped dependencies are all done. */
  lemma {:induction false} ReadyRefinesFlatGraph(nodes: seq<DagNode>, prefix: Option<Id>, done: set<Id>, id: Id,
                                                 n: DagNode)
    ensures ReadyAnywhere(nodes, prefix, done, id, n) <==>
            exists v :: v in Visits(nodes, prefix) && v.entry.id == id && v.node == n && Runnable(v, done)
    decreases nodes
  {
    forall v ensures v in Visits(nodes, prefix) <==>
                     exists m :: m in nodes &&
                                 (v == VisitOf(m, nodes, prefix) ||
                                  (m.nodeType.SubPlan? && v in Visits(m.nodes, Some(Scope(prefix, m.id)))))
    {
      VisitsByLevel(nodes, nodes, prefix, v);
    }
    forall i | 0 <= i < |nodes| && nodes[i].nodeType.SubPlan?
      ensures ReadyAnywhere(nodes[i].nodes, Some(Scope(prefix, nodes[i].id)), done, id, n) <==>
              exists v :: v in Visits(nodes[i].nodes, Some(Scope(prefix, nodes[i].id)))
                          && v.entry.id == id && v.node == n && Runnable(v, done)
    {
      ReadyRefinesFlatGraph(nodes[i].nodes, Some(Scope(prefix, nodes[i].id)), done, id, n);
    }
    if n in ReadyAt(nodes, prefix, done) && id == Scope(prefix, n.id) {
      assert VisitOf(n, nodes, prefix) in Visits(nodes, prefix);
    }
  }

  // ---------------------------------------------------------------- progress

  ghost predicate Valid(nodes: seq<DagNode>) {
    exists order :: TopoOrder(Flatten(nodes), order)
  }

  /** Every node not yet done may be started. */
  ghost predicate AllActionable(nodes: seq<DagNode>, done: set<Id>) {
    forall v :: v in Visits(nodes, None) && v.entry.id !in done ==> MayStart(v.node)
  }

  ghost predicate ReadyId(nodes: seq<DagNode>, done: set<Id>, id: Id) {
    exists n :: ReadyAnywhere(nodes, None, done, id, n)
  }

  lemma {:induction false} ReadyIdMeaning(nodes: seq<DagNode>, done: set<Id>, id: Id)
    ensures ReadyId(nodes, done, id) <==>
            exists v :: v in Visits(nodes, None) && v.entry.id == id && Runnable(v, done)
  {
    forall n ensures ReadyAnywhere(nodes, None, done, id, n) <==>
                     exists v :: v in Visits(nodes, None) && v.entry.id == id && v.node == n && Runnable(v, done)
    {
      ReadyRefinesFlatGraph(nodes, None, done, id, n);
    }
    if v :| v in Visits(nodes, None) && v.entry.id == id && Runnable(v, done) {
      assert ReadyAnywhere(nodes, None, done, id, v.node);
    }
  }

  lemma {:induction false} EntryOfId(nodes: seq<DagNode>, id: Id) returns (v: Visit)
    requires id in Ids(Flatten(nodes))
    ensures v in Visits(nodes, None) && v.entry.id == id
    ensures forall d :: d in v.entry.deps ==> DependsOn(Flatten(nodes), id, d)
  {
    var flat, visits := Flatten(nodes), Visits(nodes, None);
    var e :| e in flat && e.id == id;
    var i :| 0 <= i < |flat| && flat[i] == e;
    v := visits[i];
    assert flat[i] in flat;
  }

  /** In a validated plan whose unfinished nodes are all actionable, some node is ready until all are done. */
  lemma {:induction false} SomeNodeIsReady(nodes: seq<DagNode>, done: set<Id>)
    requires Valid(nodes) && AllActionable(nodes, done)
    requires !(Ids(Flatten(nodes)) <= done)
    ensures exists id :: ReadyId(nodes, done, id)
  {
    var flat := Flatten(nodes);
    var order :| TopoOrder(flat, order);
    var k := FirstNotDone(order, done);
    var v := EntryOfId(nodes, order[k]);
    forall d | d in v.entry.deps ensures d in done {
      assert d in order[..k];
    }
    assert Runnable(v, done);
    ReadyIdMeaning(nodes, done, order[k]);
  }

  lemma {:induction false} FirstNotDone(order: seq<Id>, done: set<Id>) returns (k: nat)
    requires !(Elems(order) <= done)
    ensures k < |order| && order[k] !in done && forall x :: x in order[..k] ==> x in done
  {
    var x :| x in Elems(order) && x !in done;
    var m :| 0 <= m < |order| && order[m] == x;
    k := 0;
    while order[k] in done
      invariant k <= m && forall x :: x in order[..k] ==> x in done
      decreases m - k
    {
      assert order[..k + 1] == order[..k] + [order[k]];
      k := k + 1;
    }
  }

  /** Nodes are finished one at a time, each while it is ready given those before it. */
  ghost predicate ReadyRun(nodes: seq<DagNode>, steps: seq<Id>) {
    forall i :: 0 <= i < |steps| ==> ReadyId(nodes, Elems(steps[..i]), steps[i])
  }

  /** A run never repeats a node, and what is done is closed under dependencies at every moment. */
  lemma {:induction false} RunIsDependencyClosed(nodes: seq<DagNode>, steps: seq<Id>)
    requires Valid(nodes) && ReadyRun(nodes, steps)
    ensures NoDup(steps) && Elems(steps) <= Ids(Flatten(nodes))
    ensures DepsBefore(Flatten(nodes), steps)
    ensures |steps| <= |Flatten(nodes)|
  {
    var flat := Flatten(nodes);
    var order :| TopoOrder(flat, order);
    forall i | 0 <= i < |steps|
      ensures steps[i] in Ids(flat) && steps[i] !in steps[..i]
      ensures forall b :: DependsOn(flat, steps[i], b) ==> b in steps[..i]
    {
      ReadyIdMeaning(nodes, Elems(steps[..i]), steps[i]);
      var v :| v in Visits(nodes, None) && v.entry.id == steps[i] && Runnable(v, Elems(steps[..i]));
      forall b | DependsOn(flat, steps[i], b) ensures b in steps[..i] {
        var e :| e in flat && e.id == steps[i] && b in e.deps;
        SameIdSameEntry(flat, order, e, v.entry);
      }
    }
    NoDupFromPrefixes(steps);
    NoDupCardinality(steps);
    IdsCardinality(flat);
    SubsetCardinality(Elems(steps), Ids(flat));
  }

  lemma {:induction false} NoDupFromPrefixes(steps: seq<Id>)
    requires forall i :: 0 <= i < |steps| ==> steps[i] !in steps[..i]
    ensures NoDup(steps)
  {
    forall i, j | 0 <= i < j < |steps| ensures steps[i] != steps[j] {
      assert steps[..j][i] == steps[i];
    }
  }

  lemma {:induction false} SameIdSameEntry(flat: seq<Entry>, order: seq<Id>, e: Entry, f: Entry)
    requires TopoOrder(flat, order) && e in flat && f in flat && e.id == f.id
    ensures e == f
  {
    NoDupCardinality(order);
    IdsCardinality(flat);
    assert DistinctIds(flat);
  }

  /** The complete ready-driven runs are exactly the topological orders: every run can be continued until all nodes
      are done, it is then a topological order, and every topological order arises this way. */
  lemma {:induction false} ReadyRunsAreTopologicalOrders(nodes: seq<DagNode>, steps: seq<Id>)
    requires Valid(nodes) && AllActionable(nodes, {})
    ensures ReadyRun(nodes, steps) && |steps| == |Flatten(nodes)| <==> TopoOrder(Flatten(nodes), steps)
    ensures ReadyRun(nodes, steps) && |steps| < |Flatten(nodes)| ==> exists id :: ReadyRun(nodes, steps + [id])
  {
    var flat := Flatten(nodes);
    var order :| TopoOrder(flat, order);
    NoDupCardinality(order);
    IdsCardinality(flat);
    if ReadyRun(nodes, steps) {
      RunIsDependencyClosed(nodes, steps);
      NoDupCardinality(steps);
      SubsetCardinality(Elems(steps), Ids(flat));
      if |steps| < |flat| {
        RunExtends(nodes, steps);
      }
    }
    if TopoOrder(flat, steps) {
      TopologicalOrderRuns(nodes, steps);
    }
  }

  lemma {:induction false} RunExtends(nodes: seq<DagNode>, steps: seq<Id>)
    requires Valid(nodes) && AllActionable(nodes, {})
    requires ReadyRun(nodes, steps) && NoDup(steps) && |steps| < |Flatten(nodes)|
    ensures exists id :: ReadyRun(nodes, steps + [id])
  {
    SomethingIsLeft(nodes, steps);
    SomeNodeIsReady(nodes, Elems(steps));
    var id :| ReadyId(nodes, Elems(steps), id);
    forall i | 0 <= i < |steps + [id]| ensures ReadyId(nodes, Elems((steps + [id])[..i]), (steps + [id])[i]) {
      if i < |steps| {
        assert (steps + [id])[..i] == steps[..i];
      } else {
        assert (steps + [id])[..i] == steps;
      }
    }
    assert ReadyRun(nodes, steps + [id]);
  }

  lemma {:induction false} SomethingIsLeft(nodes: seq<DagNode>, steps: seq<Id>)
    requires Valid(nodes) && NoDup(steps) && |steps| < |Flatten(nodes)|
    ensures !(Ids(Flatten(nodes)) <= Elems(steps))
  {
    var order :| TopoOrder(Flatten(nodes), order);
    NoDupCardinality(order);
    NoDupCardinality(steps);
    if Ids(Flatten(nodes)) <= Elems(steps) {
      SubsetCardinality(Ids(Flatten(nodes)), Elems(steps));
    }
  }

  lemma {:induction false} TopologicalOrderRuns(nodes: seq<DagNode>, order: seq<Id>)
    requires AllActionable(nodes, {}) && TopoOrder(Flatten(nodes), order)
    ensures ReadyRun(nodes, order)
  {
    forall i | 0 <= i < |order| ensures ReadyId(nodes, Elems(order[..i]), order[i]) {
      assert order[i] in Elems(order);
      var v := EntryOfId(nodes, order[i]);
      assert order[i] !in order[..i];
      assert Runnable(v, Elems(order[..i]));
      ReadyIdMeaning(nodes, Elems(order[..i]), order[i]);
    }
  }

  // ---------------------------------------------------------------- look-ups

  /** `find_node_scoped`: walks into the children of every node, whatever its type. */
  function FindNodeScoped(nodes: seq<DagNode>, prefix: Option<Id>, target: Id): Option<DagNode>
    decreases nodes
  {
    if nodes == [] then None
    else
      var scoped := Scope(prefix, nodes[0].id);
      if scoped == target then Some(nodes[0])
      else
        var below := FindNodeScoped(nodes[0].nodes, Some(scoped), target);
        if below.Some? then below else FindNodeScoped(nodes[1..], prefix, target)
  }

  /** Some node of the tree has this scoped id. */
  ghost predicate Occurs(nodes: seq<DagNode>, prefix: Option<Id>, target: Id)
    decreases nodes
  {
    exists i :: 0 <= i < |nodes|
                && (Scope(prefix, nodes[i].id) == target
                    || Occurs(nodes[i].nodes, Some(Scope(prefix, nodes[i].id)), target))
  }

  /** A node with this scoped id sits below a node that is no sub-plan, where flattening does not go. */
  ghost predicate Hidden(nodes: seq<DagNode>, prefix: Option<Id>, target: Id)
    decreases nodes
  {
    exists i :: 0 <= i < |nodes|
                && if nodes[i].nodeType.SubPlan? then Hidden(nodes[i].nodes, Some(Scope(prefix, nodes[i].id)), target)
                   else Occurs(nodes[i].nodes, Some(Scope(prefix, nodes[i].id)), target)
  }

  lemma {:induction false} FindsExactlyOccurring(nodes: seq<DagNode>, prefix: Option<Id>, target: Id)
    ensures FindNodeScoped(nodes, prefix, target).Some? <==> Occurs(nodes, prefix, target)
    decreases nodes
  {
    if nodes != [] {
      FindsExactlyOccurring(nodes[0].nodes, Some(Scope(prefix, nodes[0].id)), target);
      FindsExactlyOccurring(nodes[1..], prefix, target);
      OccursSplit(nodes, prefix, target);
    }
  }

  lemma {:induction false} OccursSplit(nodes: seq<DagNode>, prefix: Option<Id>, target: Id)
    requires nodes != []
    ensures Occurs(nodes, prefix, target) <==>
            Scope(prefix, nodes[0].id) == target || Occurs(nodes[0].nodes, Some(Scope(prefix, nodes[0].id)), target)
            || Occurs(nodes[1..], prefix, target)
  {
    assert forall i :: 0 <= i < |nodes[1..]| ==> nodes[1..][i] == nodes[i + 1];
    assert forall i :: 0 < i < |nodes| ==> nodes[i] == nodes[1..][i - 1];
  }

  lemma {:induction false} HiddenSplit(nodes: seq<DagNode>, prefix: Option<Id>, target: Id)
    requires nodes != []
    ensures Hidden(nodes, prefix, target) <==>
            (if nodes[0].nodeType.SubPlan? then Hidden(nodes[0].nodes, Some(Scope(prefix, nodes[0].id)), target)
             else Occurs(nodes[0].nodes, Some(Scope(prefix, nodes[0].id)), target))
            || Hidden(nodes[1..], prefix, target)
  {
    assert forall i :: 0 <= i < |nodes[1..]| ==> nodes[1..][i] == nodes[i + 1];
    assert forall i :: 0 < i < |nodes| ==> nodes[i] == nodes[1..][i - 1];
  }

  ghost function FirstWithId(visits: seq<Visit>, target: Id): Option<DagNode> {
    if visits == [] then None
    else if visits[0].entry.id == target then Some(visits[0].node)
    else FirstWithId(visits[1..], target)
  }

  lemma {:induction false} FirstWithIdConcat(a: seq<Visit>, b: seq<Visit>, target: Id)
    ensures FirstWithId(a + b, target) ==
            if FirstWithId(a, target).Some? then FirstWithId(a, target) else FirstWithId(b, target)
  {
    if a == [] {
      assert a + b == b;
    } else {
      FirstWithIdConcat(a[1..], b, target);
      assert (a + b)[1..] == a[1..] + b;
    }
  }

  /** The look-up finds something exactly for the scoped ids of the flattening and of the nodes hidden below a node
      that is no sub-plan; without a hidden one it finds the first node the flattening lists. */
  lemma {:induction false} FindNodeAgreesWithFlattening(nodes: seq<DagNode>, siblings: seq<DagNode>,
                                                        prefix: Option<Id>, target: Id)
    ensures var found, listed := FindNodeScoped(nodes, prefix, target),
                                 FirstWithId(VisitsFrom(nodes, siblings, prefix), target);
            (found.Some? <==> listed.Some? || Hidden(nodes, prefix, target))
            && (!Hidden(nodes, prefix, target) ==> found == listed)
    decreases nodes
  {
    if nodes != [] {
      var n := nodes[0];
      var scoped := Scope(prefix, n.id);
      var here := [VisitOf(n, siblings, prefix)];
      var below := if n.nodeType.SubPlan? then VisitsFrom(n.nodes, n.nodes, Some(scoped)) else [];
      var after := VisitsFrom(nodes[1..], siblings, prefix);
      FindNodeAgreesWithFlattening(n.nodes, n.nodes, Some(scoped), target);
      FindNodeAgreesWithFlattening(nodes[1..], siblings, prefix, target);
      FirstWithIdConcat(here + below, after, target);
      FirstWithIdConcat(here, below, target);
      assert FirstWithId(here, target) == if scoped == target then Some(n) else FirstWithId(here[1..], target);
      FindsExactlyOccurring(n.nodes, Some(scoped), target);
      HiddenSplit(nodes, prefix, target);
    }
  }

  /** `collect_init_gate_ids` (server-rs/src/artifacts.rs): append the scoped id of every init gate. */
  method CollectInitGateIds(nodes: seq<DagNode>, prefix: Option<Id>, out0: seq<Id>) returns (out: seq<Id>)
    ensures out == out0 + InitGateIds(Visits(nodes, prefix))
    decreases nodes
  {
    out := out0;
    assert nodes[0..] == nodes;
    for i := 0 to |nodes|
      invariant out0 + InitGateIds(Visits(nodes, prefix)) == out + InitGateIds(VisitsFrom(nodes[i..], nodes, prefix))
    {
      InitGateIdsStep(nodes, i, prefix);
      var node := nodes[i];
      var scoped := Scope(prefix, node.id);
      var here := if node.IsInitGate() then [scoped] else [];
      Regroup(out, here, InitGateIds(Below(node, prefix)), InitGateIds(VisitsFrom(nodes[i + 1..], nodes, prefix)));
      out := out + here;
      if node.nodeType.SubPlan? && node.nodes != [] {
        out := CollectInitGateIds(node.nodes, Some(scoped), out);
      } else {
        assert Below(node, prefix) == [];
        assert out + [] == out;
      }
    }
    assert out + [] == out;
  }

  lemma {:induction false} InitGateIdsStep(nodes: seq<DagNode>, i: nat, prefix: Option<Id>)
    requires i < |nodes|
    ensures InitGateIds(VisitsFrom(nodes[i..], nodes, prefix)) ==
            (if nodes[i].IsInitGate() then [Scope(prefix, nodes[i].id)] else []) + InitGateIds(Below(nodes[i], prefix))
            + InitGateIds(VisitsFrom(nodes[i + 1..], nodes, prefix))
  {
    var rest := nodes[i..];
    assert rest[0] == nodes[i] && rest[1..] == nodes[i + 1..];
    var here := [VisitOf(nodes[i], nodes, prefix)];
    InitGateIdsConcat(here + Below(nodes[i], prefix), VisitsFrom(nodes[i + 1..], nodes, prefix));
    InitGateIdsConcat(here, Below(nodes[i], prefix));
    assert here[1..] == [];
  }

  ghost function InitGateIds(visits: seq<Visit>): seq<Id> {
    if visits == [] then []
    else (if visits[0].node.IsInitGate() then [visits[0].entry.id] else []) + InitGateIds(visits[1..])
  }

  lemma {:induction false} InitGateIdsConcat(a: seq<Visit>, b: seq<Visit>)
    ensures InitGateIds(a + b) == InitGateIds(a) + InitGateIds(b)
  {
    if a == [] {
      assert a + b == b;
    } else {
      var head := if a[0].node.IsInitGate() then [a[0].entry.id] else [];
      InitGateIdsConcat(a[1..], b);
      assert (a + b)[1..] == a[1..] + b && (a + b)[0] == a[0];
      Associate(head, InitGateIds(a[1..]), InitGateIds(b));
    }
  }
}
