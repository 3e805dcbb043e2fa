/** Kahn's algorithm over a flat list of (scoped id, dependencies) pairs
    (`validate_flat_graph` in server-rs/src/dag.rs). */
module Kahn {
  import opened Util
  import opened FlatGraph
  import opened Lines

  datatype GraphError = Dangling(id: Id, dep: Id) | Cycle(involved: set<Id>)

  /** The first reference, reading entries and their dependencies in order, to an id that does not exist. */
  ghost predicate FirstDangling(nodes: seq<Entry>, i: nat, j: nat) {
    && i < |nodes| && j < |nodes[i].deps|
    && nodes[i].deps[j] !in Ids(nodes)
    && (forall k, l :: 0 <= k < i && 0 <= l < |nodes[k].deps| ==> nodes[k].deps[l] in Ids(nodes))
    && (forall l :: 0 <= l < j ==> nodes[i].deps[l] in Ids(nodes))
  }

  /** The error names that reference. */
  ghost predicate FirstDanglingIs(nodes: seq<Entry>, error: GraphError) {
    exists i: nat, j: nat :: FirstDangling(nodes, i, j) && error == Dangling(nodes[i].id, nodes[i].deps[j])
  }

  // ---------------------------------------------------------------- the algorithm

  method FindDangling(nodes: seq<Entry>, ids: set<Id>) returns (r: Option<GraphError>)
    requires ids == Ids(nodes)
    ensures r.None? <==> Closed(nodes)
    ensures r.Some? ==> FirstDanglingIs(nodes, r.value)
  {
    for i := 0 to |nodes|
      invariant forall k, l :: 0 <= k < i && 0 <= l < |nodes[k].deps| ==> nodes[k].deps[l] in ids
    {
      for j := 0 to |nodes[i].deps|
        invariant forall l :: 0 <= l < j ==> nodes[i].deps[l] in ids
      {
        if nodes[i].deps[j] !in ids {
          assert FirstDangling(nodes, i, j);
          assert DependsOn(nodes, nodes[i].id, nodes[i].deps[j]);
          return Some(Dangling(nodes[i].id, nodes[i].deps[j]));
        }
      }
    }
    return None;
  }

  /** The maps agree with the edges seen so far. */
  ghost predicate Tallies(inDegree: map<Id, nat>, adj: map<Id, seq<Id>>, edges: seq<Edge>) {
    && inDegree.Keys == adj.Keys
    && (forall v :: v in inDegree ==> inDegree[v] == InCount(edges, v, {}))
    && (forall u :: u in adj ==> adj[u] == Succs(edges, u))
  }

  lemma {:induction false} TallyNext(inDegree: map<Id, nat>, adj: map<Id, seq<Id>>, edges: seq<Edge>, e: Edge)
    requires Tallies(inDegree, adj, edges) && e.src in adj && e.dst in adj
    ensures Tallies(inDegree[e.dst := inDegree[e.dst] + 1], adj[e.src := adj[e.src] + [e.dst]], edges + [e])
  {
    AppendEdge(edges, e);
  }

  /** Build the in-degree and adjacency maps. */
  method BuildGraph(nodes: seq<Entry>)
    returns (inDegree: map<Id, nat>, adj: map<Id, seq<Id>>, ghost edges: seq<Edge>)
    requires Closed(nodes)
    ensures EdgesOf(nodes, edges)
    ensures inDegree.Keys == Ids(nodes) && Tallies(inDegree, adj, edges)
    ensures InDeclaredOrder(nodes, adj)
  {
    inDegree, adj := ZeroDegrees(nodes);
    edges := [];
    for i := 0 to |nodes|
      invariant inDegree.Keys == Ids(nodes) && Tallies(inDegree, adj, edges)
      invariant EdgesOf(nodes[..i], edges)
      invariant InDeclaredOrder(nodes[..i], adj)
    {
      DependsOnNext(nodes, i);
      DeclaredAll(nodes[..i], nodes[i], adj);
      inDegree, adj, edges := AddDependencies(nodes[i], inDegree, adj, edges, nodes[..i + 1]);
    }
    assert nodes[..|nodes|] == nodes;
  }

  method ZeroDegrees(nodes: seq<Entry>) returns (inDegree: map<Id, nat>, adj: map<Id, seq<Id>>)
    ensures inDegree.Keys == Ids(nodes) && Tallies(inDegree, adj, [])
    ensures forall u :: u in adj ==> adj[u] == []
  {
    inDegree, adj := map[], map[];
    for i := 0 to |nodes|
      invariant inDegree.Keys == Ids(nodes[..i]) && Tallies(inDegree, adj, [])
      invariant forall u :: u in adj ==> adj[u] == []
    {
      inDegree, adj := inDegree[nodes[i].id := 0], adj[nodes[i].id := []];
      assert nodes[..i + 1] == nodes[..i] + [nodes[i]];
    }
    assert nodes[..|nodes|] == nodes;
  }

  /** The edges on file are those of before and the first j dependencies of the entry. */
  ghost predicate EdgesUpTo(entry: Entry, j: nat, edges0: seq<Edge>, edges: seq<Edge>)
    requires j <= |entry.deps|
  {
    forall e :: e in edges <==> e in edges0 || (e.dst == entry.id && e.src in entry.deps[..j])
  }

  lemma {:induction false} EdgesNext(entry: Entry, j: nat, edges0: seq<Edge>, edges: seq<Edge>)
    requires j < |entry.deps| && EdgesUpTo(entry, j, edges0, edges)
    ensures EdgesUpTo(entry, j + 1, edges0, edges + [Edge(entry.deps[j], entry.id)])
  {
    assert entry.deps[..j + 1] == entry.deps[..j] + [entry.deps[j]];
  }

  method AddDependencies(entry: Entry, inDegree0: map<Id, nat>, adj0: map<Id, seq<Id>>, ghost edges0: seq<Edge>,
                         ghost nodes: seq<Entry>)
    returns (inDegree: map<Id, nat>, adj: map<Id, seq<Id>>, ghost edges: seq<Edge>)
    requires Tallies(inDegree0, adj0, edges0)
    requires entry.id in inDegree0 && forall d :: d in entry.deps ==> d in inDegree0
    requires nodes != [] && nodes[|nodes| - 1] == entry && InDeclaredOrder(nodes, adj0)
    ensures Tallies(inDegree, adj, edges) && inDegree.Keys == inDegree0.Keys
    ensures forall e :: e in edges <==> e in edges0 || (e.dst == entry.id && e.src in entry.deps)
    ensures InDeclaredOrder(nodes, adj)
  {
    inDegree, adj, edges := inDegree0, adj0, edges0;
    for j := 0 to |entry.deps|
      invariant InDeclaredOrder(nodes, adj)
      invariant Tallies(inDegree, adj, edges) && inDegree.Keys == inDegree0.Keys
      invariant EdgesUpTo(entry, j, edges0, edges)
    {
      var dep := entry.deps[j];
      TallyNext(inDegree, adj, edges, Edge(dep, entry.id));
      DeclaredNext(nodes, adj, dep);
      EdgesNext(entry, j, edges0, edges);
      adj := adj[dep := adj[dep] + [entry.id]];
      inDegree := inDegree[entry.id := inDegree[entry.id] + 1];
      edges := edges + [Edge(dep, entry.id)];
    }
    assert entry.deps[..|entry.deps|] == entry.deps;
  }

  /** Collect the ids without dependencies, in whatever order the hash map yields its keys. */
  method InitialQueue(inDegree: map<Id, nat>) returns (queue: seq<Id>)
    ensures NoDup(queue)
    ensures forall v :: v in queue <==> v in inDegree && inDegree[v] == 0
  {
    queue := [];
    var left := inDegree.Keys;
    while left != {}
      invariant left <= inDegree.Keys
      invariant NoDup(queue)
      invariant forall v :: v in queue <==> v in inDegree && v !in left && inDegree[v] == 0
    {
      var v :| v in left;
      left := left - {v};
      if inDegree[v] == 0 {
        queue := queue + [v];
      }
    }
  }

  /** What the main loop keeps: in-degrees count the edges from ids not yet ordered, and the queue holds
      exactly the unordered ids whose dependencies are all ordered. */
  ghost predicate Inv(nodes: seq<Entry>, edges: seq<Edge>, inDegree: map<Id, nat>, queue: seq<Id>, order: seq<Id>) {
    && inDegree.Keys == Ids(nodes)
    && NoDup(order + queue)
    && DepsBefore(nodes, order)
    && (forall v :: v in inDegree ==> inDegree[v] == InCount(edges, v, Elems(order)))
    && (forall v :: v in order + queue <==> v in inDegree && inDegree[v] == 0)
  }

  ghost predicate Relaxable(succs: seq<Id>, inDegree: map<Id, nat>, queue: seq<Id>, order: seq<Id>) {
    && (forall v :: v in succs ==> v in inDegree)
    && (forall v :: v in inDegree ==> inDegree[v] >= Count(succs, v))
    && NoDup(order + queue)
    && (forall v :: v in order + queue <==> v in inDegree && inDegree[v] == 0)
  }

  ghost predicate Relaxed(succs: seq<Id>, inDegree: map<Id, nat>, queue: seq<Id>, order: seq<Id>,
                          inDegree': map<Id, nat>, queue': seq<Id>) {
    && inDegree'.Keys == inDegree.Keys
    && (forall v :: v in inDegree ==> inDegree'[v] == inDegree[v] - Count(succs, v))
    && NoDup(order + queue')
    && (forall v :: v in order + queue' <==> v in inDegree' && inDegree'[v] == 0)
    && queue <= queue' && Follows(succs, queue'[|queue|..])
  }

  /** One pass over the successors of `u`: every in-degree drops by the number of edges from `u`, none underflows,
      and exactly the ids that reach zero are enqueued. */
  method Relax(succs: seq<Id>, inDegree: map<Id, nat>, queue: seq<Id>, ghost order: seq<Id>)
    returns (inDegree': map<Id, nat>, queue': seq<Id>)
    requires Relaxable(succs, inDegree, queue, order)
    ensures Relaxed(succs, inDegree, queue, order, inDegree', queue')
  {
    inDegree', queue' := inDegree, queue;
    for k := 0 to |succs|
      invariant inDegree'.Keys == inDegree.Keys
      invariant forall v :: v in inDegree ==> inDegree'[v] == inDegree[v] - Count(succs[..k], v)
      invariant NoDup(order + queue')
      invariant forall v :: v in order + queue' <==> v in inDegree' && inDegree'[v] == 0
      invariant queue <= queue' && Follows(succs[..k], queue'[|queue|..])
    {
      var next := succs[k];
      FollowsNext(succs, k, queue'[|queue|..]);
      forall v ensures Count(succs[..k + 1], v) == Count(succs[..k], v) + if next == v then 1 else 0
      {
        CountAppend(succs, v, k);
      }
      CountAppend(succs, next, k);
      assert inDegree'[next] >= 1;
      inDegree' := inDegree'[next := inDegree'[next] - 1];
      if inDegree'[next] == 0 {
        assert next !in order + queue';
        assert order + (queue' + [next]) == (order + queue') + [next];
        queue' := queue' + [next];
        assert queue'[|queue|..] == queue'[|queue|..|queue'| - 1] + [next];
      }
    }
    assert succs[..|succs|] == succs;
  }

  lemma {:induction false} InvPop(nodes: seq<Entry>, edges: seq<Edge>, inDegree: map<Id, nat>, queue: seq<Id>,
                                  order: seq<Id>)
    requires EdgesOf(nodes, edges) && Inv(nodes, edges, inDegree, queue, order) && queue != []
    ensures var u := queue[0];
            && u !in order
            && Elems(order + [u]) == Elems(order) + {u}
            && (order + [u]) + queue[1..] == order + queue
            && DepsBefore(nodes, order + [u])
  {
    var u := queue[0];
    assert (order + [u]) + queue[1..] == order + queue;
    assert (order + queue)[|order|] == u;
    forall i | 0 <= i < |order| ensures order[i] != u {
      assert (order + queue)[i] != (order + queue)[|order|];
    }
    assert u in order + queue;
    InCountZero(edges, u, Elems(order));
    forall i, b | 0 <= i < |order + [u]| && DependsOn(nodes, (order + [u])[i], b)
      ensures b in (order + [u])[..i]
    {
      if i < |order| {
        assert (order + [u])[..i] == order[..i];
      } else {
        assert Edge(b, u) in edges;
        assert (order + [u])[..i] == order;
      }
    }
  }

  lemma {:induction false} PopCounts(nodes: seq<Entry>, edges: seq<Edge>, inDegree: map<Id, nat>, queue: seq<Id>,
                                     order: seq<Id>)
    requires EdgesOf(nodes, edges) && Inv(nodes, edges, inDegree, queue, order) && queue != []
    ensures var u := queue[0];
            && u in inDegree && (forall v :: v in Succs(edges, u) ==> v in inDegree)
            && forall v :: InCount(edges, v, Elems(order)) ==
                           InCount(edges, v, Elems(order + [u])) + Count(Succs(edges, u), v)
  {
    var u := queue[0];
    InvPop(nodes, edges, inDegree, queue, order);
    forall v ensures InCount(edges, v, Elems(order)) ==
        InCount(edges, v, Elems(order + [u])) + Count(Succs(edges, u), v)
    {
      RemoveSource(edges, u, v, Elems(order));
    }
    assert (order + queue)[|order|] == u && u in order + queue;
    forall v | v in Succs(edges, u) ensures v in inDegree {
      SuccsAreTargets(edges, u, v);
      assert DependsOn(nodes, v, u);
    }
  }

  lemma {:induction false} InvStart(nodes: seq<Entry>, edges: seq<Edge>, inDegree: map<Id, nat>, queue: seq<Id>)
    requires inDegree.Keys == Ids(nodes)
    requires forall v :: v in inDegree ==> inDegree[v] == InCount(edges, v, {})
    requires NoDup(queue) && forall v :: v in queue <==> v in inDegree && inDegree[v] == 0
    ensures Inv(nodes, edges, inDegree, queue, [])
  {
    assert [] + queue == queue;
    assert Elems<Id>([]) == {};
  }

  /** The breadth-first loop. */
  method Order(nodes: seq<Entry>, inDegree0: map<Id, nat>, adj: map<Id, seq<Id>>, ghost edges: seq<Edge>)
    returns (order: seq<Id>, inDegree: map<Id, nat>)
    requires Closed(nodes) && EdgesOf(nodes, edges)
    requires inDegree0.Keys == Ids(nodes) && Tallies(inDegree0, adj, edges) && InDeclaredOrder(nodes, adj)
    ensures Inv(nodes, edges, inDegree, [], order) && Served(nodes, order, [])
  {
    inDegree, order := inDegree0, [];
    var queue := InitialQueue(inDegree);
    InvStart(nodes, edges, inDegree, queue);
    NobodyServed(nodes, edges, inDegree, queue);
    while queue != []
      invariant Inv(nodes, edges, inDegree, queue, order) && Served(nodes, order, queue)
      decreases |Ids(nodes)| - |order|
    {
      var u := queue[0];
      Poppable(nodes, edges, inDegree, queue, order);
      assert DeclaredList(nodes, adj[u]);
      var inDegree', queue' := Relax(adj[u], inDegree, queue[1..], order + [u]);
      Turn(nodes, edges, inDegree, queue, order, inDegree', queue');
      inDegree, queue, order := inDegree', queue', order + [u];
    }
  }

  lemma {:induction false} Poppable(nodes: seq<Entry>, edges: seq<Edge>, inDegree: map<Id, nat>, queue: seq<Id>,
                                    order: seq<Id>)
    requires EdgesOf(nodes, edges) && Inv(nodes, edges, inDegree, queue, order) && queue != []
    ensures queue[0] in inDegree
    ensures Relaxable(Succs(edges, queue[0]), inDegree, queue[1..], order + [queue[0]])
  {
    InvPop(nodes, edges, inDegree, queue, order);
    PopCounts(nodes, edges, inDegree, queue, order);
  }

  /** One turn of the loop. */
  lemma {:induction false} Turn(nodes: seq<Entry>, edges: seq<Edge>, inDegree0: map<Id, nat>, queue0: seq<Id>,
                                order0: seq<Id>, inDegree: map<Id, nat>, queue: seq<Id>)
    requires EdgesOf(nodes, edges) && Inv(nodes, edges, inDegree0, queue0, order0) && queue0 != []
    requires Relaxed(Succs(edges, queue0[0]), inDegree0, queue0[1..], order0 + [queue0[0]], inDegree, queue)
    requires Served(nodes, order0, queue0) && DeclaredList(nodes, Succs(edges, queue0[0]))
    ensures var order := order0 + [queue0[0]];
            Inv(nodes, edges, inDegree, queue, order) && Served(nodes, order, queue) && |order| <= |Ids(nodes)|
  {
    var order := order0 + [queue0[0]];
    assert Inv(nodes, edges, inDegree, queue, order) by {
      InvPop(nodes, edges, inDegree0, queue0, order0);
      PopCounts(nodes, edges, inDegree0, queue0, order0);
    }
    BoundedOrder(nodes, inDegree, order, queue);
    assert order[..|order| - 1] == order0;
    ServeNext(nodes, edges, Succs(edges, queue0[0]), inDegree0, inDegree, queue0, queue, order);
  }

  /** Those in the line are those whose dependencies have been served. */
  lemma {:induction false} InLineIffReady(nodes: seq<Entry>, edges: seq<Edge>, inDegree: map<Id, nat>, queue: seq<Id>,
                                          order: seq<Id>, v: Id)
    requires EdgesOf(nodes, edges) && Inv(nodes, edges, inDegree, queue, order) && v in Ids(nodes)
    ensures v in order + queue <==> ReadyBy(nodes, v, Elems(order))
  {
    InCountZero(edges, v, Elems(order));
    forall b | DependsOn(nodes, v, b) ensures Edge(b, v) in edges {
    }
  }

  lemma {:induction false} NobodyServed(nodes: seq<Entry>, edges: seq<Edge>, inDegree: map<Id, nat>, queue: seq<Id>)
    requires EdgesOf(nodes, edges) && Inv(nodes, edges, inDegree, queue, [])
    ensures Served(nodes, [], queue)
  {
    assert [] + queue == queue && queue[..0] == [];
    forall v | v in queue ensures ReadyBy(nodes, v, {}) {
      InLineIffReady(nodes, edges, inDegree, queue, [], v);
    }
    NobodyYet(nodes, queue);
  }

  /** The first in the queue is served; those it makes ready join at the end. */
  lemma {:induction false} ServeNext(nodes: seq<Entry>, edges: seq<Edge>, succs: seq<Id>, inDegree0: map<Id, nat>,
                                     inDegree: map<Id, nat>, queue0: seq<Id>, queue: seq<Id>, order: seq<Id>)
    requires EdgesOf(nodes, edges) && queue0 != [] && order != [] && order[|order| - 1] == queue0[0]
    requires var before := order[..|order| - 1];
             Inv(nodes, edges, inDegree0, queue0, before) && Served(nodes, before, queue0)
    requires Inv(nodes, edges, inDegree, queue, order) && queue0[1..] <= queue
    requires DeclaredList(nodes, succs) && Follows(succs, queue[|queue0| - 1..])
    ensures Served(nodes, order, queue)
  {
    var before, joined := order[..|order| - 1], queue[|queue0| - 1..];
    var line := before + queue0;
    LineGrows(order, queue0, queue);
    forall v | v in line ensures ReadyBy(nodes, v, Elems(before)) {
      InLineIffReady(nodes, edges, inDegree0, queue0, before, v);
    }
    forall v | v in joined ensures ReadyBy(nodes, v, Elems(order)) && !ReadyBy(nodes, v, Elems(before)) {
      JoinedIsNew(line, joined, v);
      InLineIffReady(nodes, edges, inDegree, queue, order, v);
      InLineIffReady(nodes, edges, inDegree0, queue0, before, v);
    }
    JoinedDeclared(nodes, succs, line, joined);
    JoinTheLine(nodes, line, joined, |before|);
  }

  lemma {:induction false} BoundedOrder(nodes: seq<Entry>, inDegree: map<Id, nat>, order: seq<Id>, queue: seq<Id>)
    requires inDegree.Keys == Ids(nodes) && NoDup(order + queue)
    requires forall v :: v in order + queue ==> v in inDegree
    ensures |order| <= |Ids(nodes)|
  {
    assert order == (order + queue)[..|order|];
    NoDupCardinality(order);
    SubsetCardinality(Elems(order), Ids(nodes));
  }

  /** `validate_flat_graph`: an order is returned exactly for closed graphs with distinct ids and a rank function;
      otherwise the first dangling reference, or the largest set of nodes waiting on one another, is reported. */
  method ValidateFlatGraph(nodes: seq<Entry>) returns (r: Result<seq<Id>, GraphError>)
    ensures r.Ok? <==> Closed(nodes) && DistinctIds(nodes) && Acyclic(nodes)
    ensures r.Ok? ==> FifoOrder(nodes, r.value)
    ensures r.Err? && r.error.Dangling? <==> !Closed(nodes)
    ensures r.Err? && r.error.Dangling? ==> FirstDanglingIs(nodes, r.error)
    ensures r.Err? && r.error.Cycle? ==> GreatestStuck(nodes, r.error.involved)
    ensures r.Err? && r.error.Cycle? ==> (r.error.involved == {} <==> Acyclic(nodes))
  {
    var ids := set e | e in nodes :: e.id;
    var dangling := FindDangling(nodes, ids);
    if dangling.Some? {
      return Err(dangling.value);
    }
    var inDegree, adj, edges := BuildGraph(nodes);
    var order, left := Order(nodes, inDegree, adj, edges);
    Outcome(nodes, edges, left, order);
    assert order + [] == order;
    if |order| != |nodes| {
      return Err(Cycle(set v | v in left && left[v] > 0));
    }
    return Ok(order);
  }

  // ---------------------------------------------------------------- why the outcome is right

  /** When the queue runs dry, what is left over is the greatest stuck set, and nothing is left over of a
      ranked graph. */
  lemma {:induction false} Outcome(nodes: seq<Entry>, edges: seq<Edge>, left: map<Id, nat>, order: seq<Id>)
    requires Closed(nodes) && EdgesOf(nodes, edges) && Inv(nodes, edges, left, [], order)
    ensures GreatestStuck(nodes, set v | v in left && left[v] > 0)
    ensures |order| == |nodes| <==> DistinctIds(nodes) && Acyclic(nodes)
    ensures |order| == |nodes| ==> TopoOrder(nodes, order)
    ensures (set v | v in left && left[v] > 0) == {} <==> Acyclic(nodes)
  {
    var rest := set v | v in left && left[v] > 0;
    assert order + [] == order;
    assert rest == Ids(nodes) - Elems(order);
    assert Elems(order) <= Ids(nodes);
    RestIsStuck(nodes, edges, left, order, rest);
    GreatestIsRest(nodes, order, rest);
    Sizes(nodes, order, rest);
    if rest == {} {
      TopoOrderGivesRank(nodes, order);
    }
    if Acyclic(nodes) {
      RankLeavesNothing(nodes, rest);
    }
  }

  lemma {:induction false} RestIsStuck(nodes: seq<Entry>, edges: seq<Edge>, left: map<Id, nat>, order: seq<Id>,
                                       rest: set<Id>)
    requires Closed(nodes) && EdgesOf(nodes, edges) && Inv(nodes, edges, left, [], order)
    requires rest == Ids(nodes) - Elems(order)
    ensures Stuck(nodes, rest)
  {
    forall a | a in rest ensures WaitsOn(nodes, a, rest) {
      InCountZero(edges, a, Elems(order));
      assert order + [] == order;
      assert a !in order;
      var e :| e in edges && e.dst == a && e.src !in Elems(order);
      assert DependsOn(nodes, a, e.src);
    }
  }

  /** Positions in a topological order rank the graph. */
  lemma {:induction false} TopoOrderGivesRank(nodes: seq<Entry>, order: seq<Id>)
    requires NoDup(order) && Elems(order) == Ids(nodes) && DepsBefore(nodes, order)
    ensures Acyclic(nodes)
  {
    var rank := map x | x in order :: IndexOf(order, x) as nat;
    forall a, b | DependsOn(nodes, a, b) && b in rank ensures a in rank && rank[b] < rank[a] {
      assert a in Elems(order);
      var i := IndexOf(order, a);
      assert b in order[..i];
      var k :| 0 <= k < i && order[k] == b;
      assert IndexOf(order, b) == k;
    }
    assert Ids(nodes) <= rank.Keys;
    assert Ranked(nodes, rank);
  }

  /** "The plan contains a cycle" is the truth: the graph has a rank function exactly when no closed walk along
      dependencies exists. */
  lemma {:induction false} AcyclicIffNoCycle(nodes: seq<Entry>)
    requires Closed(nodes)
    ensures Acyclic(nodes) <==> !exists walk :: CycleWalk(nodes, walk)
  {
    if walk :| CycleWalk(nodes, walk) {
      CycleIsStuck(nodes, walk);
      if rank :| Ranked(nodes, rank) {
        NoRankOnStuck(nodes, Elems(walk), rank, walk[0]);
      }
    } else {
      NoCycleGivesRank(nodes);
    }
  }

  lemma {:induction false} NoCycleGivesRank(nodes: seq<Entry>)
    requires Closed(nodes)
    requires forall walk :: !CycleWalk(nodes, walk)
    ensures Acyclic(nodes)
  {
    var rest, order := ServeSources(nodes);
    if start :| start in rest {
      var walk := StuckHasCycle(nodes, rest, start);
    }
    TopoOrderGivesRank(nodes, order);
  }

  /** Nodes waiting on one another really contain a cycle. */
  lemma {:induction false} StuckHasCycle(nodes: seq<Entry>, s: set<Id>, start: Id) returns (cycle: seq<Id>)
    requires Stuck(nodes, s) && start in s
    ensures CycleWalk(nodes, cycle) && Elems(cycle) <= s
  {
    var walk := WalkInside(nodes, s, start, |s|);
    Pigeonhole(walk, s);
    var i, j :| 0 <= i < j < |walk| && walk[i] == walk[j];
    cycle := walk[i..j + 1];
    assert Elems(cycle) <= Elems(walk);
  }

  /** Whatever order the hash map gives the nodes without dependencies, some order starts with it. */
  lemma {:induction false} FifoFrom(nodes: seq<Entry>, queue: seq<Id>) returns (order: seq<Id>)
    requires Closed(nodes) && DistinctIds(nodes) && Acyclic(nodes)
    requires NoDup(queue) && Elems(queue) == Ready(nodes, {})
    ensures FifoOrder(nodes, order) && queue <= order
  {
    LineStarts(nodes, queue);
    order := ServeAll(nodes, queue, 0);
    var rest := Ids(nodes) - Elems(order);
    RankLeavesNothing(nodes, rest);
    Sizes(nodes, order, rest);
  }

  /** Nothing but the order among the nodes without dependencies, which is that of the hash map, is left open. */
  lemma {:induction false} FifoDetermined(nodes: seq<Entry>, order1: seq<Id>, order2: seq<Id>)
    requires DistinctIds(nodes) && FifoOrder(nodes, order1) && FifoOrder(nodes, order2)
    requires forall a, b :: ReadyBy(nodes, a, {}) && ReadyBy(nodes, b, {}) && Precedes(order1, a, b) ==>
                            Precedes(order2, a, b)
    ensures order1 == order2
  {
    for m := 0 to |order1|
      invariant order1[..m] == order2[..m]
    {
      if order1[m] != order2[m] {
        NextIsDetermined(nodes, order1, order2, m);
      }
    }
    assert order1[..|order1|] == order1 && order2[..|order2|] == order2;
  }
}
