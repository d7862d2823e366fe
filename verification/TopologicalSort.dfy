/** The depth-first cycle finder and Kahn's queue, which run side by side over one strategy
    graph.  Each is proved correct against walks in the graph, so that they must agree. */
module TopologicalSort {
  import opened Collections
  import opened StrategyDsl
  import opened Graph

  /** The targets of u's links, once for every edge, in edge order. */
  function Targets(ids: set<Id>, edges: seq<Edge>, u: Id): seq<Id> {
    if edges == [] then []
    else
      var e := edges[|edges|-1];
      var rest := Targets(ids, edges[..|edges|-1], u);
      if e.source == u && u in ids && e.target in ids then rest + [e.target] else rest
  }

  /** The number of links into v whose source is not done yet. */
  function Pending(ids: set<Id>, edges: seq<Edge>, done: set<Id>, v: Id): nat {
    if edges == [] then 0
    else
      var e := edges[|edges|-1];
      var rest := Pending(ids, edges[..|edges|-1], done, v);
      if e.target == v && v in ids && e.source in ids - done then rest + 1 else rest
  }

  function Occurrences(s: seq<Id>, v: Id): nat {
    if s == [] then 0 else Occurrences(s[..|s|-1], v) + if s[|s|-1] == v then 1 else 0
  }

  lemma {:induction false} OccurrencesInPrefix(s: seq<Id>, n: nat, v: Id)
    requires n <= |s|
    ensures Occurrences(s[..n], v) <= Occurrences(s, v)
  {
    if n < |s| {
      assert s[..|s|-1][..n] == s[..n];
      OccurrencesInPrefix(s[..|s|-1], n, v);
    } else {
      assert s[..n] == s;
    }
  }

  lemma {:induction false} TargetsAreLinks(ids: set<Id>, edges: seq<Edge>, u: Id, v: Id)
    ensures v in Targets(ids, edges, u) <==> Digraph(ids, edges).HasEdge(u, v)
  {
    if edges != [] {
      var init := edges[..|edges|-1];
      TargetsAreLinks(ids, init, u, v);
      assert edges == init + [edges[|edges|-1]];
      if Digraph(ids, init).HasEdge(u, v) {
        var k :| 0 <= k < |init| && init[k].source == u && init[k].target == v;
        assert edges[k] == init[k];
      }
      if Digraph(ids, edges).HasEdge(u, v) {
        var k :| 0 <= k < |edges| && edges[k].source == u && edges[k].target == v;
        assert k < |init| ==> init[k] == edges[k];
      }
    }
  }

  /** Finishing u settles exactly its own links. */
  lemma {:induction false} PendingAfter(ids: set<Id>, edges: seq<Edge>, done: set<Id>, u: Id, v: Id)
    requires u in ids && u !in done && v in ids
    ensures Pending(ids, edges, done, v) ==
            Pending(ids, edges, done + {u}, v) + Occurrences(Targets(ids, edges, u), v)
  {
    if edges != [] {
      PendingAfter(ids, edges[..|edges|-1], done, u, v);
      var rest := Targets(ids, edges[..|edges|-1], u);
      assert forall x :: (rest + [x])[..|rest|] == rest;
    }
  }

  lemma {:induction false} NothingPending(ids: set<Id>, edges: seq<Edge>, done: set<Id>, v: Id)
    requires v in ids
    ensures Pending(ids, edges, done, v) == 0 <==>
            forall u :: Digraph(ids, edges).HasEdge(u, v) ==> u in done
  {
    if edges != [] {
      var init, e := edges[..|edges|-1], edges[|edges|-1];
      NothingPending(ids, init, done, v);
      assert edges == init + [e];
      forall u ensures Digraph(ids, edges).HasEdge(u, v) <==>
                       Digraph(ids, init).HasEdge(u, v) || (e.source == u && e.target == v && u in ids)
      {
        TargetsAreLinks(ids, init, u, v);
        TargetsAreLinks(ids, edges, u, v);
      }
      assert e.target == v && e.source in ids ==> Digraph(ids, edges).HasEdge(e.source, v);
    }
  }

  /** The number of links from u to v. */
  function LinkCount(g: Digraph, u: Id, v: Id): nat {
    Occurrences(Targets(g.ids, g.edges, u), v)
  }

  lemma {:induction false} OccurringIsMember(s: seq<Id>, v: Id)
    ensures Occurrences(s, v) > 0 <==> v in s
  {
    if s != [] {
      OccurringIsMember(s[..|s|-1], v);
      assert s == s[..|s|-1] + [s[|s|-1]];
    }
  }

  lemma LinkCountIsPositive(g: Digraph, u: Id, v: Id)
    ensures LinkCount(g, u, v) > 0 <==> g.HasEdge(u, v)
  {
    OccurringIsMember(Targets(g.ids, g.edges, u), v);
    TargetsAreLinks(g.ids, g.edges, u, v);
  }

  ghost predicate TargetsAfter(g: Digraph, order: seq<Id>) {
    forall i, v :: 0 <= i < |order| && g.HasEdge(order[i], v) ==> v in order[i+1..]
  }

  // ----- which links close cycles

  /** The cycle's last step is from u to v. */
  predicate ClosedBy(c: seq<Id>, u: Id, v: Id) {
    |c| >= 2 && c[|c|-2] == u && c[|c|-1] == v
  }

  function One(holds: bool): nat {
    if holds then 1 else 0
  }

  predicate AtEnd(path: seq<Id>, u: Id) {
    path != [] && u == path[|path|-1]
  }

  /** How many of the cycles are closed by a link from u to v. */
  function Closings(cycles: seq<seq<Id>>, u: Id, v: Id): nat {
    if cycles == [] then 0
    else Closings(cycles[..|cycles|-1], u, v) + One(ClosedBy(cycles[|cycles|-1], u, v))
  }

  /** Every link that does not go forward in the order closes one cycle of its own, duplicates
      counted, and no other link closes any. */
  ghost predicate BackwardLinksClose(g: Digraph, order: seq<Id>, cycles: seq<seq<Id>>) {
    forall i, v :: 0 <= i < |order| ==>
      Closings(cycles, order[i], v) == if v in order[i+1..] then 0 else LinkCount(g, order[i], v)
  }

  lemma ClosingsOneMore(cycles: seq<seq<Id>>, c: seq<Id>)
    ensures forall u, v :: Closings(cycles + [c], u, v) == Closings(cycles, u, v) + One(ClosedBy(c, u, v))
  {
    assert (cycles + [c])[..|cycles|] == cycles;
  }

  lemma FinishKeepsClosing(g: Digraph, finished: seq<Id>, nid: Id, cycles: seq<seq<Id>>)
    requires BackwardLinksClose(g, finished, cycles)
    requires forall v :: Closings(cycles, nid, v) == if v in finished then 0 else LinkCount(g, nid, v)
    ensures BackwardLinksClose(g, [nid] + finished, cycles)
  {
    var order := [nid] + finished;
    forall i, v | 0 <= i < |order|
      ensures Closings(cycles, order[i], v) == if v in order[i+1..] then 0 else LinkCount(g, order[i], v)
    {
      assert order[1..] == finished;
      if i > 0 {
        assert order[i] == finished[i-1] && finished[i-1+1..] == order[i+1..];
      }
    }
  }

  lemma NothingClosesSoForward(g: Digraph, order: seq<Id>)
    requires BackwardLinksClose(g, order, [])
    ensures TargetsAfter(g, order)
  {
    forall i, v | 0 <= i < |order| && g.HasEdge(order[i], v) ensures v in order[i+1..] {
      LinkCountIsPositive(g, order[i], v);
      assert Closings([], order[i], v) == 0;
    }
  }

  lemma {:induction false} ClosingIsRecorded(cycles: seq<seq<Id>>, u: Id, v: Id)
    requires Closings(cycles, u, v) > 0
    ensures exists d :: d in cycles && ClosedBy(d, u, v)
  {
    var last := cycles[|cycles|-1];
    if ClosedBy(last, u, v) {
      assert last in cycles;
    } else {
      ClosingIsRecorded(cycles[..|cycles|-1], u, v);
    }
  }

  /** Some step of the cycle closes a recorded one. */
  ghost predicate IsCut(cycles: seq<seq<Id>>, c: seq<Id>) {
    exists k, d :: 0 <= k < |c| - 1 && d in cycles && ClosedBy(d, c[k], c[k+1])
  }

  /** Where no step of a walk closes a recorded cycle, the walk goes forward in the order. */
  lemma {:induction false} UncutGoesForward(g: Digraph, order: seq<Id>, cycles: seq<seq<Id>>, p: seq<Id>, first: nat)
    returns (last: nat)
    requires Elements(order) == g.ids && BackwardLinksClose(g, order, cycles)
    requires g.IsWalk(p) && !IsCut(cycles, p) && first < |order| && order[first] == p[0]
    ensures first + |p| - 1 <= last < |order| && order[last] == p[|p|-1]
    decreases |p|
  {
    if |p| == 1 {
      last := first;
    } else {
      assert g.StepAt(p, 0);
      LinkCountIsPositive(g, p[0], p[1]);
      if p[1] !in order[first+1..] {
        assert Closings(cycles, order[first], p[1]) == LinkCount(g, p[0], p[1]);
        ClosingIsRecorded(cycles, p[0], p[1]);
        assert false;
      }
      var next :| first < next < |order| && order[next] == p[1];
      g.WalkFrom(p, 1);
      last := UncutGoesForward(g, order, cycles, p[1..], next);
    }
  }

  lemma EveryCycleIsCut(g: Digraph, order: seq<Id>, cycles: seq<seq<Id>>, c: seq<Id>)
    requires Distinct(order) && Elements(order) == g.ids && BackwardLinksClose(g, order, cycles) && g.IsCycle(c)
    ensures IsCut(cycles, c)
  {
    assert c[0] in Elements(order);
    var first :| 0 <= first < |order| && order[first] == c[0];
    if !IsCut(cycles, c) {
      var last := UncutGoesForward(g, order, cycles, c, first);
      assert false;
    }
  }

  /** What a depth-first search records: simple cycles, one for every link that goes backward in
      the order in which the search finishes the nodes, latest first. */
  ghost predicate IsSearched(g: Digraph, cycles: seq<seq<Id>>) {
    && (forall c :: c in cycles ==> g.IsSimpleCycle(c))
    && exists order :: Distinct(order) && Elements(order) == g.ids && BackwardLinksClose(g, order, cycles)
  }

  /** Taking the links that close the recorded cycles out of the graph leaves no cycle. */
  ghost predicate CutsEveryCycle(g: Digraph, cycles: seq<seq<Id>>) {
    forall c :: g.IsCycle(c) ==> IsCut(cycles, c)
  }

  lemma NothingToSearch(g: Digraph)
    requires g.ids == {}
    ensures IsSearched(g, []) && CutsEveryCycle(g, []) && g.Acyclic()
  {
    assert BackwardLinksClose(g, [], []) && Elements<Id>([]) == {};
  }

  lemma SearchedCutsEveryCycle(g: Digraph, cycles: seq<seq<Id>>)
    requires IsSearched(g, cycles)
    ensures CutsEveryCycle(g, cycles)
    ensures cycles == [] <==> g.Acyclic()
  {
    var order :| Distinct(order) && Elements(order) == g.ids && BackwardLinksClose(g, order, cycles);
    forall c | g.IsCycle(c) ensures IsCut(cycles, c) {
      EveryCycleIsCut(g, order, cycles, c);
    }
    if cycles == [] {
      NothingClosesSoForward(g, order);
      FinishOrderIsTopological(g, order);
      g.TopologicalOrderSoAcyclic(order);
    } else {
      assert g.IsSimpleCycle(cycles[0]);
    }
  }

  lemma FinishOrderIsTopological(g: Digraph, finished: seq<Id>)
    requires Distinct(finished) && Elements(finished) == g.ids && TargetsAfter(g, finished)
    ensures g.IsTopologicalOrder(finished)
  {
    forall i, u | 0 <= i < |finished| && g.HasEdge(u, finished[i]) ensures u in finished[..i] {
      assert u in Elements(finished);
      var k :| 0 <= k < |finished| && finished[k] == u;
      assert finished[i] in finished[k+1..];
      assert finished[..i][k] == u;
    }
  }

  lemma BackEdgeClosesCycle(g: Digraph, path: seq<Id>, start: nat)
    requires g.IsWalk(path) && Distinct(path) && start < |path|
    requires g.HasEdge(path[|path|-1], path[start])
    ensures g.IsSimpleCycle(path[start..] + [path[start]])
  {
    g.WalkFrom(path, start);
    assert g.IsWalk([path[start]]);
    g.WalkJoin(path[start..], [path[start]]);
    var c := path[start..] + [path[start]];
    assert c[..|c|-1] == path[start..];
  }

  /** The search's state: `path` is a walk of temporarily marked nodes, the permanent marks
      are in `finished`, latest first, of whose links those close a cycle that do not lead to a
      node finished before; and no link of a node not yet entered does. */
  datatype Marks =
    Marks(temporary: set<Id>, permanent: set<Id>, path: seq<Id>, cycles: seq<seq<Id>>, finished: seq<Id>) {
    ghost predicate Sound(g: Digraph) {
      && temporary == Elements(path) && Distinct(path)
      && (path == [] || g.IsWalk(path))
      && temporary !! permanent && permanent <= g.ids
      && permanent == Elements(finished) && Distinct(finished)
      && (forall c :: c in cycles ==> g.IsSimpleCycle(c))
      && BackwardLinksClose(g, finished, cycles)
      && (forall u, v :: u in g.ids && u !in temporary && u !in permanent ==> Closings(cycles, u, v) == 0)
    }

    /** Of these links of u, just those into the path have closed cycles. */
    ghost predicate ClosesIntoPath(u: Id, targets: seq<Id>) {
      forall v :: Closings(cycles, u, v) == if v in temporary then Occurrences(targets, v) else 0
    }

    ghost predicate LeadsTo(g: Digraph, nid: Id) {
      nid in g.ids && (path != [] ==> g.HasEdge(path[|path|-1], nid))
    }

    function Enter(nid: Id): Marks {
      this.(temporary := temporary + {nid}, path := path + [nid])
    }

    function Leave(nid: Id): Marks
      requires path != []
    {
      Marks(temporary - {nid}, permanent + {nid}, path[..|path|-1], cycles, [nid] + finished)
    }

    /** The search has been through one more link of the node at the end of the path. */
    lemma LinkSettled(before: Marks, u: Id, targets: seq<Id>, j: nat)
      requires j < |targets| && AtEnd(path, u) && u in temporary && temporary == before.temporary
      requires before.ClosesIntoPath(u, targets[..j])
      requires forall v ::
        Closings(cycles, u, v) == Closings(before.cycles, u, v) + One(targets[j] in temporary && v == targets[j])
      ensures ClosesIntoPath(u, targets[..j+1])
    {
      assert targets[..j+1][..j] == targets[..j];
    }

    lemma EnterSound(g: Digraph, nid: Id)
      requires Sound(g) && LeadsTo(g, nid) && nid !in temporary && nid !in permanent
      ensures Enter(nid).Sound(g)
    {
      assert g.IsWalk([nid]);
      if path != [] {
        g.WalkJoin(path, [nid]);
      }
    }

    lemma LeaveSound(g: Digraph, nid: Id)
      requires Sound(g) && path != [] && path[|path|-1] == nid
      requires forall v :: g.HasEdge(nid, v) ==> v in permanent || v in temporary
      requires ClosesIntoPath(nid, Targets(g.ids, g.edges, nid))
      ensures Leave(nid).Sound(g)
    {
      forall v ensures Closings(cycles, nid, v) == if v in finished then 0 else LinkCount(g, nid, v) {
        LinkCountIsPositive(g, nid, v);
      }
      FinishKeepsClosing(g, finished, nid, cycles);
      if |path| > 1 {
        g.WalkWithin(path, 0, |path| - 1);
        assert path[0..|path|-1] == path[..|path|-1];
      }
      assert nid in temporary && nid in g.ids;
    }
  }

  /** Depth-first search over the links, recording every back edge as a cycle. */
  class CycleFinder {
    ghost const graph: Digraph
    const adj: map<Id, seq<Id>>
    var tempMark: set<Id>
    var permMark: set<Id>
    var path: seq<Id>
    var cycles: seq<seq<Id>>
    ghost var finished: seq<Id>

    ghost function State(): Marks
      reads this
    {
      Marks(tempMark, permMark, path, cycles, finished)
    }

    ghost predicate Wired() {
      adj.Keys == graph.ids && forall u :: u in graph.ids ==> adj[u] == Targets(graph.ids, graph.edges, u)
    }

    constructor (ghost g: Digraph, adj: map<Id, seq<Id>>)
      requires adj.Keys == g.ids
      requires forall u :: u in g.ids ==> adj[u] == Targets(g.ids, g.edges, u)
      ensures Wired() && graph == g && this.adj == adj
      ensures State() == Marks({}, {}, [], [], [])
    {
      graph, this.adj := g, adj;
      tempMark, permMark, path, cycles, finished := {}, {}, [], [], [];
    }

    method FindCycle(nid: Id)
      requires Wired() && State().Sound(graph) && State().LeadsTo(graph, nid)
      modifies this
      ensures State().Sound(graph) && path == old(path) && tempMark == old(tempMark)
      ensures old(permMark) <= permMark && old(cycles) <= cycles
      ensures nid in tempMark || nid in permMark
      ensures forall u, v :: u in tempMark ==>
        Closings(cycles, u, v) == Closings(old(cycles), u, v) + One(nid in tempMark && AtEnd(path, u) && v == nid)
      decreases graph.ids - tempMark - permMark, 1
    {
      if nid in permMark {
        return;
      }
      if nid in tempMark {
        RecordCycle(nid);
        return;
      }
      State().EnterSound(graph, nid);
      assert nid in graph.ids - tempMark - permMark;
      tempMark := tempMark + {nid};
      path := path + [nid];
      Explore(nid);
      State().LeaveSound(graph, nid);
      path := path[..|path|-1];
      tempMark := tempMark - {nid};
      permMark := permMark + {nid};
      finished := [nid] + finished;
      assert path == old(path);
    }

    /** The path came back to one of its nodes: what lies between is a cycle. */
    method RecordCycle(nid: Id)
      requires Wired() && State().Sound(graph) && State().LeadsTo(graph, nid) && nid in tempMark
      modifies this`cycles
      ensures State().Sound(graph) && old(cycles) <= cycles
      ensures forall u, v ::
        Closings(cycles, u, v) == Closings(old(cycles), u, v) + One(AtEnd(path, u) && v == nid)
    {
      var start := IndexOf(path, nid);
      BackEdgeClosesCycle(graph, path, start);
      ClosingsOneMore(cycles, path[start..] + [nid]);
      cycles := cycles + [path[start..] + [nid]];
      assert path[|path|-1] in tempMark;
    }

    /** The loop over the neighbours of the node at the end of the path. */
    method Explore(nid: Id)
      requires Wired() && State().Sound(graph) && path != [] && path[|path|-1] == nid
      requires forall v :: Closings(cycles, nid, v) == 0
      modifies this
      ensures State().Sound(graph) && path == old(path) && tempMark == old(tempMark)
      ensures old(permMark) <= permMark && old(cycles) <= cycles
      ensures forall v :: graph.HasEdge(nid, v) ==> v in permMark || v in tempMark
      ensures State().ClosesIntoPath(nid, adj[nid])
      ensures forall u, v :: u in tempMark && u != nid ==> Closings(cycles, u, v) == Closings(old(cycles), u, v)
      decreases graph.ids - tempMark - permMark, 2
    {
      assert nid in graph.ids;
      var neighbours := adj[nid];
      TargetsOf(graph, nid);
      for j := 0 to |neighbours|
        invariant State().Sound(graph) && path == old(path) && tempMark == old(tempMark)
        invariant old(permMark) <= permMark && old(cycles) <= cycles
        invariant forall k :: 0 <= k < j ==> neighbours[k] in permMark || neighbours[k] in tempMark
        invariant State().ClosesIntoPath(nid, neighbours[..j])
        invariant forall u, v :: u in tempMark && u != nid ==> Closings(cycles, u, v) == Closings(old(cycles), u, v)
      {
        assert neighbours[j] in neighbours;
        ghost var before := State();
        FindCycle(neighbours[j]);
        State().LinkSettled(before, nid, neighbours, j);
      }
      assert neighbours[..|neighbours|] == neighbours;
    }

    /** Marks every node; by then the cycles answer the question for the whole graph. */
    method Run()
      requires Wired() && State() == Marks({}, {}, [], [], [])
      modifies this
      ensures State().Sound(graph) && path == [] && permMark == graph.ids
      ensures IsSearched(graph, cycles)
    {
      var todo := adj.Keys;
      while todo != {}
        invariant State().Sound(graph) && path == []
        invariant todo <= graph.ids && graph.ids - todo <= permMark
        decreases todo
      {
        var nid :| nid in todo;
        if nid !in tempMark && nid !in permMark {
          FindCycle(nid);
        }
        todo := todo - {nid};
      }
    }
  }

  lemma TargetsOf(g: Digraph, u: Id)
    ensures forall v :: v in Targets(g.ids, g.edges, u) <==> g.HasEdge(u, v)
  {
    forall v ensures v in Targets(g.ids, g.edges, u) <==> g.HasEdge(u, v) {
      TargetsAreLinks(g.ids, g.edges, u, v);
    }
  }

  method IndexOf(s: seq<Id>, x: Id) returns (k: nat)
    requires x in s
    ensures k < |s| && s[k] == x && x !in s[..k]
  {
    k := 0;
    while s[k] != x
      invariant k < |s| && x !in s[..k]
      decreases |s| - k
    {
      k := k + 1;
    }
  }

  /** Kahn's invariant, first half: a node has been listed (queued or sorted), once, exactly
      when its in-degree counter has reached zero. */
  ghost predicate ListedAtZero(ids: set<Id>, inDegree: map<Id, int>, listed: seq<Id>) {
    && inDegree.Keys == ids
    && Distinct(listed) && Elements(listed) <= ids
    && (forall v :: v in ids ==> (v in listed <==> inDegree[v] == 0))
  }

  /** Second half: the counters are the links from nodes that are not sorted yet. */
  ghost predicate CountsPending(g: Digraph, done: set<Id>, inDegree: map<Id, int>) {
    inDegree.Keys == g.ids && forall v :: v in g.ids ==> inDegree[v] == Pending(g.ids, g.edges, done, v)
  }

  ghost predicate Progress(g: Digraph, sorted: seq<Id>, queue: seq<Id>, inDegree: map<Id, int>) {
    && ListedAtZero(g.ids, inDegree, sorted + queue)
    && CountsPending(g, Elements(sorted), inDegree)
    && g.SourcesFirst(sorted)
  }

  method Kahn(g: Digraph, adj: map<Id, seq<Id>>, degrees: map<Id, int>, ready: seq<Id>) returns (sorted: seq<Id>)
    requires adj.Keys == g.ids && forall u :: u in g.ids ==> adj[u] == Targets(g.ids, g.edges, u)
    requires ListedAtZero(g.ids, degrees, ready) && CountsPending(g, {}, degrees)
    ensures Distinct(sorted) && Elements(sorted) <= g.ids && g.SourcesFirst(sorted)
    ensures forall v :: v in g.ids ==> (v in sorted <==> !g.CycleReaches(v))
  {
    sorted := [];
    var queue, inDegree := ready, degrees;
    assert sorted + queue == ready && Elements(sorted) == {};
    while queue != []
      invariant Progress(g, sorted, queue, inDegree)
      decreases |g.ids| - |sorted|
    {
      var nid := queue[0];
      HeadIsReady(g, inDegree, sorted, queue);
      LinksOf(g, Elements(sorted), nid);
      var released, counters := Release(g.ids, adj[nid], inDegree, sorted + queue);
      HeadIsSorted(g, inDegree, sorted, queue, released, counters);
      sorted, queue, inDegree := sorted + [nid], queue[1..] + released, counters;
    }
    assert sorted + queue == sorted;
    UnsortedAreReached(g, sorted);
  }

  lemma LinksOf(g: Digraph, done: set<Id>, u: Id)
    requires u in g.ids && u !in done
    ensures forall v :: v in Targets(g.ids, g.edges, u) ==> v in g.ids
    ensures forall v :: v in g.ids ==>
      Pending(g.ids, g.edges, done, v)
      == Pending(g.ids, g.edges, done + {u}, v) + Occurrences(Targets(g.ids, g.edges, u), v)
  {
    forall v | v in Targets(g.ids, g.edges, u) ensures v in g.ids {
      TargetsAreLinks(g.ids, g.edges, u, v);
    }
    forall v | v in g.ids
      ensures Pending(g.ids, g.edges, done, v) ==
              Pending(g.ids, g.edges, done + {u}, v) + Occurrences(Targets(g.ids, g.edges, u), v)
    {
      PendingAfter(g.ids, g.edges, done, u, v);
    }
  }

  lemma HeadIsReady(g: Digraph, inDegree: map<Id, int>, sorted: seq<Id>, queue: seq<Id>)
    requires queue != [] && Progress(g, sorted, queue, inDegree)
    ensures queue[0] in g.ids && queue[0] !in sorted
    ensures g.SourcesFirst(sorted + [queue[0]])
    ensures |sorted| < |g.ids|
  {
    var nid, listed := queue[0], sorted + queue;
    DistinctCardinality(listed);
    SubsetCardinality(Elements(listed), g.ids);
    assert listed[|sorted|] == nid && nid in Elements(listed);
    assert forall i :: 0 <= i < |sorted| ==> sorted[i] == listed[i];
    NothingPending(g.ids, g.edges, Elements(sorted), nid);
    var longer := sorted + [nid];
    forall i, u | 0 <= i < |longer| && g.HasEdge(u, longer[i]) ensures u in longer[..i] {
      if i < |sorted| {
        assert longer[i] == sorted[i] && longer[..i] == sorted[..i];
      } else {
        assert longer[..i] == sorted;
      }
    }
  }

  lemma HeadIsSorted(g: Digraph, inDegree: map<Id, int>, sorted: seq<Id>, queue: seq<Id>, released: seq<Id>,
      counters: map<Id, int>)
    requires queue != [] && Progress(g, sorted, queue, inDegree)
    requires ListedAtZero(g.ids, counters, (sorted + queue) + released)
    requires forall v :: v in g.ids ==> counters[v] == inDegree[v] - Occurrences(Targets(g.ids, g.edges, queue[0]), v)
    ensures Progress(g, sorted + [queue[0]], queue[1..] + released, counters)
  {
    var nid := queue[0];
    HeadIsReady(g, inDegree, sorted, queue);
    assert CountsPending(g, Elements(sorted + [nid]), counters) by {
      LinksOf(g, Elements(sorted), nid);
      assert Elements(sorted + [nid]) == Elements(sorted) + {nid};
    }
    assert ListedAtZero(g.ids, counters, (sorted + [nid]) + (queue[1..] + released)) by {
      assert (sorted + queue) + released == (sorted + [nid]) + (queue[1..] + released);
    }
  }

  lemma OneLinkSettled(ids: set<Id>, inDegree: map<Id, int>, listed: seq<Id>, v: Id)
    requires ListedAtZero(ids, inDegree, listed) && v in ids && inDegree[v] > 0
    ensures ListedAtZero(ids, inDegree[v := inDegree[v] - 1], if inDegree[v] == 1 then listed + [v] else listed)
  {
    assert v !in listed;
  }

  /** The inner loop: take one off the counter of each target; those that reach zero are
      queued behind the nodes already listed. */
  method Release(ghost ids: set<Id>, targets: seq<Id>, degrees: map<Id, int>, ghost listed: seq<Id>)
    returns (ready: seq<Id>, inDegree: map<Id, int>)
    requires ListedAtZero(ids, degrees, listed)
    requires forall v :: v in targets ==> v in ids
    requires forall v :: v in ids ==> degrees[v] >= Occurrences(targets, v)
    ensures ListedAtZero(ids, inDegree, listed + ready)
    ensures forall v :: v in ids ==> inDegree[v] == degrees[v] - Occurrences(targets, v)
  {
    ready, inDegree := [], degrees;
    assert listed + ready == listed;
    for j := 0 to |targets|
      invariant ListedAtZero(ids, inDegree, listed + ready)
      invariant forall v :: v in ids ==> inDegree[v] == degrees[v] - Occurrences(targets[..j], v)
    {
      var neighbour := targets[j];
      assert targets[..j+1][..j] == targets[..j];
      OccurrencesInPrefix(targets, j + 1, neighbour);
      OneLinkSettled(ids, inDegree, listed + ready, neighbour);
      inDegree := inDegree[neighbour := inDegree[neighbour] - 1];
      if inDegree[neighbour] == 0 {
        assert listed + (ready + [neighbour]) == (listed + ready) + [neighbour];
        ready := ready + [neighbour];
      }
    }
    assert targets[..|targets|] == targets;
  }

  lemma UnsortedAreReached(g: Digraph, sorted: seq<Id>)
    requires Distinct(sorted) && g.SourcesFirst(sorted)
    requires forall v :: v in g.ids ==> (v in sorted <==> Pending(g.ids, g.edges, Elements(sorted), v) == 0)
    ensures forall v :: v in g.ids ==> (v in sorted <==> !g.CycleReaches(v))
  {
    var stuck := g.ids - Elements(sorted);
    assert g.SelfFeeding(stuck) by {
      forall v | v in stuck ensures g.FedFrom(stuck, v) {
        NothingPending(g.ids, g.edges, Elements(sorted), v);
      }
    }
    forall v | v in g.ids ensures v in sorted <==> !g.CycleReaches(v) {
      if v in sorted {
        g.ListedSoNoCycleReaches(sorted, v);
      } else {
        g.StuckSoCycleReaches(stuck, v);
      }
    }
  }

  /** Both algorithms over one graph.  `sorted` lists exactly the nodes that no cycle reaches,
      sources first; `cycles` holds one simple cycle for each backward link of a depth-first search,
      so that every cycle of the graph has a link that closes a recorded one; and so every node is
      listed exactly when no cycle was recorded. */
  method SortNodes(nodes: seq<Node>, edges: seq<Edge>) returns (sorted: seq<Id>, cycles: seq<seq<Id>>)
    ensures var g := Digraph(NodeIds(nodes), edges);
      && Distinct(sorted) && Elements(sorted) <= g.ids && g.SourcesFirst(sorted)
      && (forall v :: v in g.ids ==> (v in sorted <==> !g.CycleReaches(v)))
      && IsSearched(g, cycles)
      && CutsEveryCycle(g, cycles)
      && (cycles == [] <==> g.Acyclic())
      && (cycles == [] <==> g.IsTopologicalOrder(sorted))
  {
    var ids := NodeIds(nodes);
    ghost var g := Digraph(ids, edges);
    var adj, inDegree := Links(ids, edges);
    var queue := InitialQueue(nodes, inDegree);

    var finder := new CycleFinder(g, adj);
    finder.Run();
    cycles := finder.cycles;

    sorted := Kahn(Digraph(ids, edges), adj, inDegree, queue);
    SearchedCutsEveryCycle(g, cycles);
    SortedAllIffAcyclic(g, sorted);
  }

  lemma SortedAllIffAcyclic(g: Digraph, sorted: seq<Id>)
    requires Distinct(sorted) && Elements(sorted) <= g.ids && g.SourcesFirst(sorted)
    requires forall v :: v in g.ids ==> (v in sorted <==> !g.CycleReaches(v))
    ensures g.IsTopologicalOrder(sorted) <==> g.Acyclic()
  {
    g.AcyclicIffNoCycleReaches();
    if g.IsTopologicalOrder(sorted) {
      g.TopologicalOrderSoAcyclic(sorted);
    }
  }

  /** The adjacency lists and in-degree counters; an edge with an unknown end adds nothing. */
  method Links(ids: set<Id>, edges: seq<Edge>) returns (adj: map<Id, seq<Id>>, inDegree: map<Id, int>)
    ensures adj.Keys == ids && forall u :: u in ids ==> adj[u] == Targets(ids, edges, u)
    ensures CountsPending(Digraph(ids, edges), {}, inDegree)
  {
    adj := map u | u in ids :: [];
    inDegree := map u | u in ids :: 0;
    for k := 0 to |edges|
      invariant adj.Keys == ids && inDegree.Keys == ids
      invariant forall u :: u in ids ==> adj[u] == Targets(ids, edges[..k], u)
      invariant forall v :: v in ids ==> inDegree[v] == Pending(ids, edges[..k], {}, v)
    {
      var e := edges[k];
      assert edges[..k+1][..k] == edges[..k];
      if e.source in ids && e.target in ids {
        adj := adj[e.source := adj[e.source] + [e.target]];
        inDegree := inDegree[e.target := inDegree[e.target] + 1];
      }
    }
    assert edges[..|edges|] == edges;
  }

  /** The nodes without incoming links, each once, in the order they were drawn. */
  method InitialQueue(nodes: seq<Node>, inDegree: map<Id, int>) returns (queue: seq<Id>)
    requires inDegree.Keys == NodeIds(nodes)
    ensures Distinct(queue) && Elements(queue) <= inDegree.Keys
    ensures forall v :: v in inDegree ==> (v in queue <==> inDegree[v] == 0)
  {
    queue := [];
    var seen: set<Id> := {};
    for k := 0 to |nodes|
      invariant seen == NodeIds(nodes[..k])
      invariant Distinct(queue) && Elements(queue) <= seen
      invariant forall v :: v in seen && v in inDegree ==> (v in queue <==> inDegree[v] == 0)
    {
      var id := nodes[k].id;
      assert nodes[..k+1] == nodes[..k] + [nodes[k]];
      if id !in seen && inDegree[id] == 0 {  // the counters' keys are in order of first drawing
        queue := queue + [id];
      }
      seen := seen + {id};
    }
    assert nodes[..|nodes|] == nodes;
  }
}
