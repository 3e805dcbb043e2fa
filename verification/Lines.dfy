/** A queue and those served from it, seen as one line: nobody leaves it, and the ones that get ready join at its
    end. What keeps a line in order of first come, first served; that successors joining in the order in which they
    were declared keep ties as declared; that a line served to its end leaves over only nodes that wait on one
    another; and that two lines which start alike go on alike. */
module Lines {
  import opened Util
  import opened FlatGraph

  // ---------------------------------------------------------------- declaration order

  /** Successors are listed as declared; a node that names a dependency twice is listed twice. */
  ghost predicate InDeclaredOrder(nodes: seq<Entry>, adj: map<Id, seq<Id>>) {
    forall u :: u in adj ==> DeclaredList(nodes, adj[u])
  }

  ghost predicate DeclaredList(nodes: seq<Entry>, list: seq<Id>) {
    && (forall p :: 0 <= p < |list| ==> list[p] in Ids(nodes))
    && (forall p, q :: 0 <= p < q < |list| ==> list[p] == list[q] || Before(nodes, list[p], list[q]))
  }

  lemma {:induction false} DeclaredMore(nodes: seq<Entry>, entry: Entry, list: seq<Id>)
    requires DeclaredList(nodes, list)
    ensures DeclaredList(nodes + [entry], list) && DeclaredList(nodes + [entry], list + [entry.id])
  {
    var more := nodes + [entry];
    forall a | a in Ids(nodes) ensures a in Ids(more) && Before(more, a, entry.id) {
      var e :| e in nodes && e.id == a;
      var p :| 0 <= p < |nodes| && nodes[p] == e;
      assert more[p] == e && more[|nodes|] == entry;
    }
    forall a, b | Before(nodes, a, b) ensures Before(more, a, b) {
      var p, q :| 0 <= p < q < |nodes| && nodes[p].id == a && nodes[q].id == b;
      assert more[p] == nodes[p] && more[q] == nodes[q];
    }
    assert entry in more;
  }

  lemma {:induction false} DeclaredAgain(nodes: seq<Entry>, list: seq<Id>)
    requires nodes != [] && DeclaredList(nodes, list)
    ensures DeclaredList(nodes, list + [nodes[|nodes| - 1].id])
  {
    var last := nodes[|nodes| - 1];
    forall a | a in Ids(nodes) ensures a == last.id || Before(nodes, a, last.id) {
      var e :| e in nodes && e.id == a;
      var p :| 0 <= p < |nodes| && nodes[p] == e;
    }
    assert last in nodes;
  }

  lemma {:induction false} DeclaredNext(nodes: seq<Entry>, adj: map<Id, seq<Id>>, dep: Id)
    requires nodes != [] && InDeclaredOrder(nodes, adj) && dep in adj
    ensures InDeclaredOrder(nodes, adj[dep := adj[dep] + [nodes[|nodes| - 1].id]])
  {
    DeclaredAgain(nodes, adj[dep]);
  }

  lemma {:induction false} DeclaredAll(nodes: seq<Entry>, entry: Entry, adj: map<Id, seq<Id>>)
    requires InDeclaredOrder(nodes, adj)
    ensures InDeclaredOrder(nodes + [entry], adj)
  {
    forall u | u in adj ensures DeclaredList(nodes + [entry], adj[u]) {
      DeclaredMore(nodes, entry, adj[u]);
    }
  }

  /** The new ones come in the order of the list. */
  ghost predicate Follows(list: seq<Id>, joined: seq<Id>) {
    && (forall a :: 0 <= a < |joined| ==> joined[a] in list)
    && (forall a, b :: 0 <= a < b < |joined| ==> Precedes(list, joined[a], joined[b]))
  }

  lemma {:induction false} FollowsNext(list: seq<Id>, k: nat, joined: seq<Id>)
    requires k < |list| && Follows(list[..k], joined)
    ensures Follows(list[..k + 1], joined) && Follows(list[..k + 1], joined + [list[k]])
  {
    var more := list[..k + 1];
    assert more == list[..k] + [list[k]];
    forall a, b | Precedes(list[..k], a, b) ensures Precedes(more, a, b) {
      var p, q :| 0 <= p < q < k && list[..k][p] == a && list[..k][q] == b;
      assert more[p] == a && more[q] == b;
    }
    forall a | a in list[..k] ensures Precedes(more, a, list[k]) {
      var p :| 0 <= p < k && list[..k][p] == a;
      assert more[p] == a && more[k] == list[k];
    }
  }

  /** The ids of s, in the order of their declaration. */
  ghost function Listed(nodes: seq<Entry>, s: set<Id>): (r: seq<Id>)
    ensures NoDup(r) && forall v :: v in r <==> v in s && v in Ids(nodes)
  {
    if nodes == [] then []
    else
      var front, last := nodes[..|nodes| - 1], nodes[|nodes| - 1];
      assert nodes == front + [last];
      var listed := Listed(front, s);
      if last.id in s && last.id !in listed then listed + [last.id] else listed
  }

  lemma {:induction false} ListedDeclared(nodes: seq<Entry>, s: set<Id>)
    ensures forall a, b :: 0 <= a < b < |Listed(nodes, s)| ==> Before(nodes, Listed(nodes, s)[a], Listed(nodes, s)[b])
  {
    if nodes != [] {
      var front, last := nodes[..|nodes| - 1], nodes[|nodes| - 1];
      assert nodes == front + [last];
      ListedDeclared(front, s);
      DeclaredMore(front, last, Listed(front, s));
    }
  }

  // ---------------------------------------------------------------- joining the line

  /** The line so far: first come, first served. */
  ghost predicate Served(nodes: seq<Entry>, order: seq<Id>, queue: seq<Id>) {
    FirstCome(nodes, order + queue, |order|) && TiesDeclared(nodes, order + queue, |order|)
  }

  lemma {:induction false} NobodyYet(nodes: seq<Entry>, line: seq<Id>)
    requires forall v :: v in line ==> ReadyBy(nodes, v, {})
    ensures FirstCome(nodes, line, 0) && TiesDeclared(nodes, line, 0)
  {
    assert Elems(line[..0]) == {};
  }

  lemma {:induction false} LineGrows(order: seq<Id>, queue0: seq<Id>, queue: seq<Id>)
    requires queue0 != [] && order != [] && order[|order| - 1] == queue0[0] && queue0[1..] <= queue
    ensures var before, joined := order[..|order| - 1], queue[|queue0| - 1..];
            var line := before + queue0;
            && order + queue == line + joined && line[..|before|] == before && line[..|before| + 1] == order
            && (forall v :: v in joined ==> v in queue) && (forall v :: v in queue ==> v in order + queue)
  {
    var before, joined := order[..|order| - 1], queue[|queue0| - 1..];
    assert order == before + [queue0[0]] && queue == queue0[1..] + joined && queue0 == [queue0[0]] + queue0[1..];
  }

  lemma {:induction false} JoinedIsNew(line: seq<Id>, joined: seq<Id>, v: Id)
    requires NoDup(line + joined) && v in joined
    ensures v !in line
  {
    var a :| 0 <= a < |joined| && joined[a] == v;
    forall i | 0 <= i < |line| ensures line[i] != v {
      assert (line + joined)[i] == line[i] && (line + joined)[|line| + a] == v;
    }
  }

  lemma {:induction false} JoinedDeclared(nodes: seq<Entry>, succs: seq<Id>, line: seq<Id>, joined: seq<Id>)
    requires DeclaredList(nodes, succs) && Follows(succs, joined) && NoDup(line + joined)
    ensures forall a, b :: 0 <= a < b < |joined| ==> Before(nodes, joined[a], joined[b])
  {
    forall a, b | 0 <= a < b < |joined| ensures Before(nodes, joined[a], joined[b]) {
      assert Precedes(succs, joined[a], joined[b]);
      assert (line + joined)[|line| + a] == joined[a] && (line + joined)[|line| + b] == joined[b];
    }
  }

  lemma {:induction false} JoinTheLine(nodes: seq<Entry>, line: seq<Id>, joined: seq<Id>, n: nat)
    requires n < |line| && FirstCome(nodes, line, n) && TiesDeclared(nodes, line, n)
    requires forall v :: v in line ==> ReadyBy(nodes, v, Elems(line[..n]))
    requires forall v :: v in joined ==>
               ReadyBy(nodes, v, Elems(line[..n + 1])) && !ReadyBy(nodes, v, Elems(line[..n]))
    requires forall a, b :: 0 <= a < b < |joined| ==> Before(nodes, joined[a], joined[b])
    ensures FirstCome(nodes, line + joined, n + 1) && TiesDeclared(nodes, line + joined, n + 1)
  {
    var all := line + joined;
    forall k | 0 <= k <= n + 1 ensures all[..k] == line[..k] {
    }
    forall v, k | v in joined && 0 <= k <= n ensures !ReadyBy(nodes, v, Elems(line[..k])) {
      NotReadyYet(nodes, line, n, k, v);
    }
    forall v | v in line ensures ReadyBy(nodes, v, Elems(line[..n + 1])) {
      assert forall b :: b in line[..n] ==> b in line[..n + 1];
    }
    JoinsFirstCome(nodes, line, joined, n);
    JoinsTies(nodes, line, joined, n);
  }

  lemma {:induction false} JoinsFirstCome(nodes: seq<Entry>, line: seq<Id>, joined: seq<Id>, n: nat)
    requires n < |line| && FirstCome(nodes, line, n)
    requires forall k :: 0 <= k <= n + 1 ==> (line + joined)[..k] == line[..k]
    requires forall v :: v in line ==> ReadyBy(nodes, v, Elems(line[..n + 1]))
    requires forall v :: v in joined ==> ReadyBy(nodes, v, Elems(line[..n + 1]))
    requires forall v, k :: v in joined && 0 <= k <= n ==> !ReadyBy(nodes, v, Elems(line[..k]))
    ensures FirstCome(nodes, line + joined, n + 1)
  {
    var all := line + joined;
    forall i, j, k | 0 <= i < j < |all| && 0 <= k <= n + 1 && ReadyBy(nodes, all[j], Elems(all[..k]))
      ensures ReadyBy(nodes, all[i], Elems(all[..k]))
    {
      assert all[..k] == line[..k];
      assert all[i] in line || all[i] in joined;
      assert j >= |line| ==> all[j] in joined;
    }
  }

  lemma {:induction false} JoinsTies(nodes: seq<Entry>, line: seq<Id>, joined: seq<Id>, n: nat)
    requires n < |line| && TiesDeclared(nodes, line, n)
    requires forall k :: 0 <= k <= n + 1 ==> (line + joined)[..k] == line[..k]
    requires forall v :: v in line ==> ReadyBy(nodes, v, Elems(line[..n]))
    requires forall v, k :: v in joined && 0 <= k <= n ==> !ReadyBy(nodes, v, Elems(line[..k]))
    requires forall a, b :: 0 <= a < b < |joined| ==> Before(nodes, joined[a], joined[b])
    ensures TiesDeclared(nodes, line + joined, n + 1)
  {
    var all := line + joined;
    forall v, k | 0 <= k <= n ensures JustReady(nodes, all, k, v) == JustReady(nodes, line, k, v) {
      assert all[..k] == line[..k] && all[..k + 1] == line[..k + 1];
    }
    forall v | v in line ensures !JustReady(nodes, line, n, v) {
    }
    forall v, k | v in joined && 0 <= k < n ensures !JustReady(nodes, line, k, v) {
    }
  }

  lemma {:induction false} NotReadyYet(nodes: seq<Entry>, line: seq<Id>, n: nat, k: nat, v: Id)
    requires k <= n < |line| && !ReadyBy(nodes, v, Elems(line[..n]))
    ensures !ReadyBy(nodes, v, Elems(line[..k]))
  {
    assert forall b :: b in line[..k] ==> b in line[..n];
  }

  // ---------------------------------------------------------------- serving the line to its end

  /** The first n of the line have been served; whoever is ready stands in it. */
  ghost predicate Line(nodes: seq<Entry>, line: seq<Id>, n: nat) {
    && n <= |line| && NoDup(line) && DepsBefore(nodes, line)
    && Elems(line) == Ready(nodes, Elems(line[..n]))
    && FirstCome(nodes, line, n) && TiesDeclared(nodes, line, n)
  }

  /** The line may start with any of those that depend on nothing. */
  lemma {:induction false} LineStarts(nodes: seq<Entry>, line: seq<Id>)
    requires NoDup(line) && Elems(line) == Ready(nodes, {})
    ensures Line(nodes, line, 0)
  {
    assert Elems(line[..0]) == {};
    forall v | v in line ensures ReadyBy(nodes, v, {}) {
      assert v in Elems(line);
    }
    NobodyYet(nodes, line);
    assert [] + line == line;
    LineKeepsDeps(nodes, [], line, 0);
  }

  lemma {:induction false} LineNext(nodes: seq<Entry>, line: seq<Id>, n: nat) returns (joined: seq<Id>)
    requires Line(nodes, line, n) && n < |line|
    ensures Line(nodes, line + joined, n + 1)
  {
    var before, after := Ready(nodes, Elems(line[..n])), Ready(nodes, Elems(line[..n + 1]));
    joined := Listed(nodes, after - before);
    ListedDeclared(nodes, after - before);
    assert line[..n + 1] == line[..n] + [line[n]];
    forall v | v in line ensures v in before {
      assert v in Elems(line);
    }
    assert before <= after;
    JoinTheLine(nodes, line, joined, n);
    var all := line + joined;
    assert all[..n + 1] == line[..n + 1];
    assert Elems(all) == after;
    LineKeepsDeps(nodes, line, joined, n + 1);
  }

  lemma {:induction false} LineKeepsDeps(nodes: seq<Entry>, line: seq<Id>, joined: seq<Id>, n: nat)
    requires n <= |line| && DepsBefore(nodes, line)
    requires forall v :: v in joined ==> ReadyBy(nodes, v, Elems(line[..n]))
    ensures DepsBefore(nodes, line + joined)
  {
    var all := line + joined;
    forall i, b | 0 <= i < |all| && DependsOn(nodes, all[i], b) ensures b in all[..i] {
      if i < |line| {
        assert all[..i] == line[..i];
      } else {
        assert all[i] in joined && b in line[..n];
        assert all[..i][..n] == line[..n];
      }
    }
  }

  /** Served to its end, a line leaves over only nodes that wait on one another. */
  lemma {:induction false} ServeAll(nodes: seq<Entry>, line: seq<Id>, n: nat) returns (order: seq<Id>)
    requires Closed(nodes) && Line(nodes, line, n)
    ensures Line(nodes, order, |order|) && line <= order && Stuck(nodes, Ids(nodes) - Elems(order))
    decreases |Ids(nodes)| - n
  {
    if n == |line| {
      order := line;
      assert line[..n] == line;
      forall a | a in Ids(nodes) - Elems(order) ensures WaitsOn(nodes, a, Ids(nodes) - Elems(order)) {
        var b :| DependsOn(nodes, a, b) && b !in Elems(order);
        assert b in Ids(nodes);
      }
    } else {
      NoDupCardinality(line);
      SubsetCardinality(Elems(line), Ids(nodes));
      var joined := LineNext(nodes, line, n);
      order := ServeAll(nodes, line + joined, n + 1);
    }
  }

  lemma {:induction false} ServeSources(nodes: seq<Entry>) returns (rest: set<Id>, order: seq<Id>)
    requires Closed(nodes)
    ensures Stuck(nodes, rest)
    ensures NoDup(order) && Elems(order) == Ids(nodes) - rest && DepsBefore(nodes, order)
  {
    var line := Listed(nodes, Ready(nodes, {}));
    assert Elems(line) == Ready(nodes, {});
    LineStarts(nodes, line);
    order := ServeAll(nodes, line, 0);
    rest := Ids(nodes) - Elems(order);
  }

  lemma {:induction false} QueueFrom(nodes: seq<Entry>, first: Id) returns (queue: seq<Id>)
    requires first in Ids(nodes) && ReadyBy(nodes, first, {})
    ensures NoDup(queue) && Elems(queue) == Ready(nodes, {}) && queue != [] && queue[0] == first
  {
    var sources := Ready(nodes, {});
    queue := [first] + Listed(nodes, sources - {first});
    assert Elems(queue) == sources;
  }

  // ---------------------------------------------------------------- one order for each queue

  lemma {:induction false} NextIsDetermined(nodes: seq<Entry>, order1: seq<Id>, order2: seq<Id>, m: nat)
    requires DistinctIds(nodes) && FifoOrder(nodes, order1) && FifoOrder(nodes, order2)
    requires forall a, b :: ReadyBy(nodes, a, {}) && ReadyBy(nodes, b, {}) && Precedes(order1, a, b) ==>
                            Precedes(order2, a, b)
    requires m < |order1| && order1[..m] == order2[..m]
    ensures order1[m] == order2[m]
  {
    var x, y := order1[m], order2[m];
    if x != y {
      var i := LaterInOther(order2, order1, m);
      var j := LaterInOther(order1, order2, m);
      forall l | 0 <= l <= m
        ensures ReadyBy(nodes, x, Elems(order1[..l])) <==> ReadyBy(nodes, y, Elems(order1[..l]))
        ensures ReadyBy(nodes, x, Elems(order2[..l])) <==> ReadyBy(nodes, y, Elems(order2[..l]))
      {
        EquallyReady(nodes, order1, order2, m, i, j, l);
      }
      SameTurn(nodes, order1, m, j);
      SameTurn(nodes, order2, m, i);
      NotTwice(order2, m, i);
      BeforeOneWay(nodes, x, y);
    }
  }

  lemma {:induction false} BeforeOneWay(nodes: seq<Entry>, a: Id, b: Id)
    requires DistinctIds(nodes)
    ensures !(Before(nodes, a, b) && Before(nodes, b, a))
  {
  }

  lemma {:induction false} NotTwice(order: seq<Id>, m: nat, i: nat)
    requires NoDup(order) && m < i < |order|
    ensures Precedes(order, order[m], order[i]) && !Precedes(order, order[i], order[m])
  {
  }

  lemma {:induction false} EquallyReady(nodes: seq<Entry>, order1: seq<Id>, order2: seq<Id>, m: nat, i: nat, j: nat,
                                        l: nat)
    requires FirstCome(nodes, order1, |order1|) && FirstCome(nodes, order2, |order2|)
    requires l <= m < i < |order2| && m < j < |order1| && order1[..m] == order2[..m]
    requires order2[i] == order1[m] && order1[j] == order2[m]
    ensures order1[..l] == order2[..l]
    ensures ReadyBy(nodes, order1[m], Elems(order1[..l])) <==> ReadyBy(nodes, order2[m], Elems(order1[..l]))
  {
    assert order1[..l] == order1[..m][..l] && order2[..l] == order2[..m][..l];
  }

  /** Two that get ready at the same turn stand in declared order, unless neither depends on anything. */
  lemma {:induction false} SameTurn(nodes: seq<Entry>, order: seq<Id>, m: nat, j: nat)
    requires DepsBefore(nodes, order) && TiesDeclared(nodes, order, |order|) && m < j < |order|
    requires forall l :: 0 <= l <= m ==>
               (ReadyBy(nodes, order[m], Elems(order[..l])) <==> ReadyBy(nodes, order[j], Elems(order[..l])))
    ensures (ReadyBy(nodes, order[m], {}) && ReadyBy(nodes, order[j], {})) || Before(nodes, order[m], order[j])
  {
    var k := 0;
    while k < m && !ReadyBy(nodes, order[m], Elems(order[..k]))
      invariant k <= m && forall l :: 0 <= l < k ==> !ReadyBy(nodes, order[m], Elems(order[..l]))
    {
      k := k + 1;
    }
    assert ReadyBy(nodes, order[m], Elems(order[..m]));
    if k == 0 {
      assert Elems(order[..0]) == {};
    } else {
      assert JustReady(nodes, order, k - 1, order[m]) && JustReady(nodes, order, k - 1, order[j]);
    }
  }

  /** Where the one at position m of the other order stands, if not at m. */
  lemma {:induction false} LaterInOther(order1: seq<Id>, order2: seq<Id>, m: nat) returns (j: nat)
    requires NoDup(order1) && NoDup(order2) && Elems(order1) == Elems(order2)
    requires m < |order1| && m < |order2| && order1[..m] == order2[..m] && order1[m] != order2[m]
    ensures m < j < |order1| && order1[j] == order2[m]
  {
    assert order2[m] in Elems(order1);
    j := IndexOf(order1, order2[m]);
    assert order2[m] !in order1[..m] by {
      NotBefore(order2, m);
    }
    assert forall k :: 0 <= k < m ==> order1[k] == order1[..m][k];
  }

  lemma {:induction false} NotBefore(order: seq<Id>, m: nat)
    requires NoDup(order) && m < |order|
    ensures order[m] !in order[..m]
  {
  }
}
