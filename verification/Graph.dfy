/** Finite directed multigraphs: walks, cycles and topological orders.

    A strategy graph is a set of node ids and a sequence of edges.  Several edges may join
    the same pair of nodes, and edges may name nodes that do not exist; only edges with both
    ends among the ids count as links. */
module Graph {
  import opened Collections
  import opened StrategyDsl

  datatype Digraph = Digraph(ids: set<Id>, edges: seq<Edge>) {

    ghost predicate HasEdge(u: Id, v: Id) {
      u in ids && v in ids && exists k :: 0 <= k < |edges| && edges[k].source == u && edges[k].target == v
    }

    ghost predicate IsWalk(p: seq<Id>) {
      && |p| >= 1
      && (forall i :: 0 <= i < |p| ==> p[i] in ids)
      && (forall i :: 0 <= i < |p| - 1 ==> StepAt(p, i))
    }

    ghost predicate StepAt(p: seq<Id>, i: nat)
      requires i < |p| - 1
    {
      HasEdge(p[i], p[i+1])
    }

    ghost predicate WalkFromTo(p: seq<Id>, u: Id, v: Id) {
      IsWalk(p) && p[0] == u && p[|p|-1] == v
    }

    ghost predicate IsCycle(c: seq<Id>) {
      |c| >= 2 && IsWalk(c) && c[0] == c[|c|-1]
    }

    /** A cycle that repeats no node but its first, which is also its last. */
    ghost predicate IsSimpleCycle(c: seq<Id>) {
      IsCycle(c) && Distinct(c[..|c|-1])
    }

    ghost predicate Acyclic() {
      forall c :: !IsCycle(c)
    }

    ghost predicate CycleReaches(v: Id) {
      exists c, p :: IsCycle(c) && WalkFromTo(p, c[0], v)
    }

    /** Every source of an edge into `order[i]` is found before position i. */
    ghost predicate SourcesFirst(order: seq<Id>) {
      forall i, u :: 0 <= i < |order| && HasEdge(u, order[i]) ==> u in order[..i]
    }

    ghost predicate IsTopologicalOrder(order: seq<Id>) {
      Distinct(order) && Elements(order) == ids && SourcesFirst(order)
    }

    // ----- facts about walks

    lemma WalkWithin(p: seq<Id>, lo: nat, hi: nat)
      requires IsWalk(p) && lo < hi <= |p|
      ensures IsWalk(p[lo..hi])
    {
      var q := p[lo..hi];
      forall i | 0 <= i < |q| - 1 ensures StepAt(q, i) {
        assert StepAt(p, lo + i);
      }
    }

    lemma WalkFrom(p: seq<Id>, lo: nat)
      requires IsWalk(p) && lo < |p|
      ensures IsWalk(p[lo..])
    {
      WalkWithin(p, lo, |p|);
      assert p[lo..] == p[lo..|p|];
    }

    lemma WalkJoin(p: seq<Id>, q: seq<Id>)
      requires IsWalk(p) && IsWalk(q) && HasEdge(p[|p|-1], q[0])
      ensures IsWalk(p + q)
    {
      forall i | 0 <= i < |p + q| - 1 ensures StepAt(p + q, i) {
        if i < |p| - 1 {
          assert StepAt(p, i);
        } else if i >= |p| {
          assert StepAt(q, i - |p|);
        }
      }
    }

    lemma WalkMeet(p: seq<Id>, q: seq<Id>)
      requires IsWalk(p) && IsWalk(q) && p[|p|-1] == q[0]
      ensures IsWalk(p + q[1..]) && (p + q[1..])[0] == p[0] && (p + q[1..])[|p + q[1..]|-1] == q[|q|-1]
    {
      if |q| == 1 {
        assert p + q[1..] == p;
      } else {
        WalkFrom(q, 1);
        assert StepAt(q, 0);
        WalkJoin(p, q[1..]);
      }
    }

    /** In an order that lists sources first, a walk whose end is listed goes strictly
        forward in the order, so its nodes are all listed and all different. */
    lemma {:induction false} WalkGoesForward(order: seq<Id>, p: seq<Id>, last: nat) returns (first: nat)
      requires Distinct(order) && SourcesFirst(order)
      requires IsWalk(p) && last < |order| && order[last] == p[|p|-1]
      ensures first + |p| - 1 <= last && order[first] == p[0]
      decreases |p|
    {
      if |p| == 1 {
        first := last;
      } else {
        var init := p[..|p|-1];
        WalkWithin(p, 0, |p|-1);
        assert StepAt(p, |p| - 2);
        var before :| 0 <= before < last && order[before] == p[|p|-2];
        first := WalkGoesForward(order, init, before);
      }
    }

    lemma ListedSoNoCycleReaches(order: seq<Id>, v: Id)
      requires Distinct(order) && SourcesFirst(order) && v in order
      ensures !CycleReaches(v)
    {
      if CycleReaches(v) {
        var c, p :| IsCycle(c) && WalkFromTo(p, c[0], v);
        var last :| 0 <= last < |order| && order[last] == v;
        var entry := WalkGoesForward(order, p, last);
        var start := WalkGoesForward(order, c, entry);
        assert false;
      }
    }

    lemma TopologicalOrderSoAcyclic(order: seq<Id>)
      requires IsTopologicalOrder(order)
      ensures Acyclic()
    {
      forall c ensures !IsCycle(c) {
        if IsCycle(c) {
          assert c[0] in ids && c[0] in Elements(order);
          assert WalkFromTo([c[0]], c[0], c[0]);
          ListedSoNoCycleReaches(order, c[0]);
          assert false;
        }
      }
    }

    ghost predicate FedFrom(s: set<Id>, v: Id) {
      exists u :: u in s && HasEdge(u, v)
    }

    ghost predicate SelfFeeding(s: set<Id>) {
      forall v {:trigger FedFrom(s, v)} :: v in s ==> FedFrom(s, v)
    }

    /** In a set where every node has a predecessor inside the set, one can walk backwards
        for as long as one likes. */
    lemma {:induction false} WalkBack(stuck: set<Id>, v: Id, n: nat) returns (p: seq<Id>)
      requires stuck <= ids && v in stuck
      requires SelfFeeding(stuck)
      ensures IsWalk(p) && p[|p|-1] == v && |p| == n + 1 && forall i :: 0 <= i <= n ==> p[i] in stuck
      decreases n
    {
      if n == 0 {
        p := [v];
      } else {
        assert FedFrom(stuck, v);
        var u :| u in stuck && HasEdge(u, v);
        var q := WalkBack(stuck, u, n - 1);
        WalkJoin(q, [v]);
        p := q + [v];
      }
    }

    lemma StuckSoCycleReaches(stuck: set<Id>, v: Id)
      requires stuck <= ids && v in stuck
      requires SelfFeeding(stuck)
      ensures CycleReaches(v)
    {
      var p := WalkBack(stuck, v, |stuck|);
      var i, j := Pigeonhole(p, stuck);
      WalkWithin(p, i, j + 1);
      WalkFrom(p, i);
      assert IsCycle(p[i..j+1]) && WalkFromTo(p[i..], p[i..j+1][0], v);
    }

    lemma AcyclicIffNoCycleReaches()
      ensures Acyclic() <==> forall v :: v in ids ==> !CycleReaches(v)
    {
      forall c | IsCycle(c) ensures c[0] in ids && CycleReaches(c[0]) {
        assert WalkFromTo([c[0]], c[0], c[0]);
      }
    }
  }
}
