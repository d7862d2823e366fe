/** Validation of a drawn strategy and its compilation to an ordered execution plan. */
module StrategyCompiler {
  import opened Collections
  import opened Options
  import opened StrategyDsl
  import opened Graph
  import opened TopologicalSort

  function GraphOf(dsl: Strategy): Digraph {
    Digraph(NodeIds(dsl.nodes), dsl.edges)
  }

  // ----- validation

  datatype Code =
    | EmptyGraph | UnknownBlock | MissingInput | MissingParam | InvalidEdgeSource
    | InvalidEdgeTarget | CycleDetected | NoOutput | NoInput

  datatype Severity = Error | Warning

  /** `about` holds what the message names: a block type, a port, a parameter, an unknown node,
      or the nodes of a cycle. */
  datatype Issue = Issue(severity: Severity, code: Code, nodeId: Id, about: seq<string>)

  datatype ValidationResult = ValidationResult(valid: bool, issues: seq<Issue>, cycles: seq<seq<Id>>)

  function ConnectedPorts(edges: seq<Edge>, nid: Id): set<string> {
    set e | e in edges && e.target == nid :: e.targetPort
  }

  predicate InputMissing(dsl: Strategy, node: Node, port: Slot) {
    && port.required && port.name !in ConnectedPorts(dsl.edges, node.id) && port.name !in node.params
    && !port.hasDefault && !("_" <= port.name)
  }

  predicate ParamMissing(node: Node, param: Slot) {
    param.required && param.name !in node.params && !param.hasDefault
  }

  ghost predicate NodeFault(catalogue: Catalogue, dsl: Strategy, node: Node, code: Code) {
    match code
    case UnknownBlock => node.blockType !in catalogue
    case MissingInput => node.blockType in catalogue &&
                         exists port :: port in catalogue[node.blockType].inputs && InputMissing(dsl, node, port)
    case MissingParam => node.blockType in catalogue &&
                         exists param :: param in catalogue[node.blockType].params && ParamMissing(node, param)
    case _ => false
  }

  ghost predicate EdgeFault(dsl: Strategy, e: Edge, code: Code) {
    match code
    case InvalidEdgeSource => e.source !in NodeIds(dsl.nodes)
    case InvalidEdgeTarget => e.target !in NodeIds(dsl.nodes)
    case _ => false
  }

  predicate HasCategory(catalogue: Catalogue, node: Node, category: string) {
    node.blockType in catalogue && catalogue[node.blockType].category == category
  }

  /** What each issue code means of the drawn strategy. */
  ghost predicate Fault(catalogue: Catalogue, dsl: Strategy, code: Code) {
    if dsl.nodes == [] then code == EmptyGraph
    else match code
      case EmptyGraph => false
      case CycleDetected => !GraphOf(dsl).Acyclic()
      case NoOutput => !AnyOfCategory(catalogue, dsl, "order")
      case NoInput => !AnyOfCategory(catalogue, dsl, "input")
      case _ => (exists n :: n in dsl.nodes && NodeFault(catalogue, dsl, n, code)) ||
                (exists e :: e in dsl.edges && EdgeFault(dsl, e, code))
  }

  ghost predicate WellFormed(catalogue: Catalogue, dsl: Strategy) {
    forall code :: Fault(catalogue, dsl, code) ==> code == NoOutput
  }

  function Codes(issues: seq<Issue>): set<Code> {
    set i | i in issues :: i.code
  }

  function SeverityOf(code: Code): Severity {
    if code == NoOutput then Warning else Error
  }

  function Raise(code: Code, nid: Id, about: seq<string>): Issue {
    Issue(SeverityOf(code), code, nid, about)
  }

  // ----- the issues themselves, one by one

  ghost predicate NodeIssue(catalogue: Catalogue, dsl: Strategy, node: Node, i: Issue) {
    && i == Raise(i.code, node.id, i.about)
    && match i.code
       case UnknownBlock => node.blockType !in catalogue && i.about == [node.blockType]
       case MissingInput => node.blockType in catalogue &&
                            exists port :: port in catalogue[node.blockType].inputs && InputIssue(dsl, node, port, i)
       case MissingParam => node.blockType in catalogue &&
                            exists param :: param in catalogue[node.blockType].params && ParamIssue(node, param, i)
       case _ => false
  }

  predicate InputIssue(dsl: Strategy, node: Node, port: Slot, i: Issue) {
    InputMissing(dsl, node, port) && i == Raise(MissingInput, node.id, [port.name])
  }

  predicate ParamIssue(node: Node, param: Slot, i: Issue) {
    ParamMissing(node, param) && i == Raise(MissingParam, node.id, [param.name])
  }

  predicate EdgeIssue(dsl: Strategy, e: Edge, i: Issue) {
    || (e.source !in NodeIds(dsl.nodes) && i == Raise(InvalidEdgeSource, "", [e.source]))
    || (e.target !in NodeIds(dsl.nodes) && i == Raise(InvalidEdgeTarget, "", [e.target]))
  }

  predicate CycleIssue(cycles: seq<seq<Id>>, i: Issue) {
    i == Raise(CycleDetected, "", i.about) && i.about in cycles
  }

  predicate CategoryIssue(catalogue: Catalogue, dsl: Strategy, i: Issue) {
    || (i == Raise(NoOutput, "", []) && !AnyOfCategory(catalogue, dsl, "order"))
    || (i == Raise(NoInput, "", []) && !AnyOfCategory(catalogue, dsl, "input"))
  }

  ghost predicate SomeNodeIssue(catalogue: Catalogue, dsl: Strategy, i: Issue) {
    exists n :: n in dsl.nodes && NodeIssue(catalogue, dsl, n, i)
  }

  ghost predicate SomeEdgeIssue(dsl: Strategy, i: Issue) {
    exists e :: e in dsl.edges && EdgeIssue(dsl, e, i)
  }

  /** Everything that is to be reported of a drawing in which these cycles were found. */
  ghost predicate Reportable(catalogue: Catalogue, dsl: Strategy, cycles: seq<seq<Id>>, i: Issue) {
    if dsl.nodes == [] then i == Raise(EmptyGraph, "", [])
    else SomeNodeIssue(catalogue, dsl, i) || SomeEdgeIssue(dsl, i)
         || CycleIssue(cycles, i) || CategoryIssue(catalogue, dsl, i)
  }

  // ----- what drawing an edge or giving a parameter settles

  function WithEdge(dsl: Strategy, e: Edge): Strategy {
    dsl.(edges := dsl.edges + [e])
  }

  function WithParam(node: Node, name: string, value: string): Node {
    node.(params := node.params[name := value])
  }

  /** Drawing an edge settles just the missing input it leads into. */
  lemma EdgeSettlesItsPort(catalogue: Catalogue, dsl: Strategy, node: Node, e: Edge, i: Issue)
    ensures NodeIssue(catalogue, WithEdge(dsl, e), node, i)
            <==> NodeIssue(catalogue, dsl, node, i)
                 && !(i.code == MissingInput && e.target == node.id && i.about == [e.targetPort])
  {
    assert ConnectedPorts(WithEdge(dsl, e).edges, node.id)
           == ConnectedPorts(dsl.edges, node.id) + if e.target == node.id then {e.targetPort} else {};
    forall port ensures InputIssue(WithEdge(dsl, e), node, port, i)
                        <==> InputIssue(dsl, node, port, i) && !(e.target == node.id && e.targetPort == port.name)
    {
    }
  }

  /** Giving a parameter settles just the missing input or parameter of that name. */
  lemma ParamSettlesItsSlot(catalogue: Catalogue, dsl: Strategy, node: Node, name: string, value: string, i: Issue)
    ensures NodeIssue(catalogue, dsl, WithParam(node, name, value), i)
            <==> NodeIssue(catalogue, dsl, node, i)
                 && !(i.code in {MissingInput, MissingParam} && i.about == [name])
  {
    var given := WithParam(node, name, value);
    forall slot ensures InputIssue(dsl, given, slot, i) <==> InputIssue(dsl, node, slot, i) && slot.name != name {
    }
    forall slot ensures ParamIssue(given, slot, i) <==> ParamIssue(node, slot, i) && slot.name != name {
    }
  }

  /** A slot that is needed: required, and without a default. */
  predicate IsNeeded(slot: Slot) {
    slot.required && !slot.hasDefault
  }

  /** Before any edge is drawn or parameter given, what is missing are the needed parameters, and
      the needed inputs but those whose name starts with an underscore. */
  lemma BareNodeMissesAllItNeeds(catalogue: Catalogue, dsl: Strategy, node: Node, i: Issue)
    requires node.blockType in catalogue && node.params == map[] && dsl.edges == []
    ensures var block := catalogue[node.blockType];
      NodeIssue(catalogue, dsl, node, i) <==>
        || (exists port :: port in block.inputs && IsNeeded(port) && (port.name == "" || port.name[0] != '_')
              && i == Raise(MissingInput, node.id, [port.name]))
        || (exists param :: param in block.params && IsNeeded(param) && i == Raise(MissingParam, node.id, [param.name]))
  {
    forall port ensures InputIssue(dsl, node, port, i) <==>
        IsNeeded(port) && (port.name == "" || port.name[0] != '_') && i == Raise(MissingInput, node.id, [port.name])
    {
    }
  }

  method CheckNode(catalogue: Catalogue, dsl: Strategy, node: Node, earlier: seq<Issue>) returns (issues: seq<Issue>)
    ensures forall i :: i in issues <==> i in earlier || NodeIssue(catalogue, dsl, node, i)
  {
    issues := earlier;
    if node.blockType !in catalogue {
      issues := issues + [Raise(UnknownBlock, node.id, [node.blockType])];
      return;
    }
    var block := catalogue[node.blockType];
    for k := 0 to |block.inputs|
      invariant forall i :: i in issues <==>
        i in earlier || exists j :: 0 <= j < k && InputIssue(dsl, node, block.inputs[j], i)
    {
      if InputMissing(dsl, node, block.inputs[k]) {
        issues := issues + [Raise(MissingInput, node.id, [block.inputs[k].name])];
      }
    }
    ghost var afterInputs := issues;
    for k := 0 to |block.params|
      invariant forall i :: i in issues <==>
        i in afterInputs || exists j :: 0 <= j < k && ParamIssue(node, block.params[j], i)
    {
      if ParamMissing(node, block.params[k]) {
        issues := issues + [Raise(MissingParam, node.id, [block.params[k].name])];
      }
    }
  }

  method CheckEdge(dsl: Strategy, e: Edge, earlier: seq<Issue>) returns (issues: seq<Issue>)
    ensures forall i :: i in issues <==> i in earlier || EdgeIssue(dsl, e, i)
  {
    issues := earlier;
    if e.source !in NodeIds(dsl.nodes) {
      issues := issues + [Raise(InvalidEdgeSource, "", [e.source])];
    }
    if e.target !in NodeIds(dsl.nodes) {
      issues := issues + [Raise(InvalidEdgeTarget, "", [e.target])];
    }
  }

  method CheckNodes(catalogue: Catalogue, dsl: Strategy) returns (issues: seq<Issue>)
    ensures forall i :: i in issues <==> SomeNodeIssue(catalogue, dsl, i)
  {
    issues := [];
    for k := 0 to |dsl.nodes|
      invariant forall i :: i in issues <==> exists j :: 0 <= j < k && NodeIssue(catalogue, dsl, dsl.nodes[j], i)
    {
      issues := CheckNode(catalogue, dsl, dsl.nodes[k], issues);
    }
  }

  method CheckEdges(dsl: Strategy, earlier: seq<Issue>) returns (issues: seq<Issue>)
    ensures forall i :: i in issues <==> i in earlier || SomeEdgeIssue(dsl, i)
  {
    issues := earlier;
    for k := 0 to |dsl.edges|
      invariant forall i :: i in issues <==> i in earlier || exists j :: 0 <= j < k && EdgeIssue(dsl, dsl.edges[j], i)
    {
      issues := CheckEdge(dsl, dsl.edges[k], issues);
    }
  }

  /** Reports each fault with the node and the name it is about, and nothing else; every cycle
      recorded is reported, and one is recorded for each backward link of a depth-first search, so
      that every cycle of the drawing has a link that closes a reported one. */
  method Validate(catalogue: Catalogue, dsl: Strategy) returns (result: ValidationResult)
    ensures forall i :: i in result.issues <==> Reportable(catalogue, dsl, result.cycles, i)
    ensures IsSearched(GraphOf(dsl), result.cycles) && CutsEveryCycle(GraphOf(dsl), result.cycles)
    ensures result.cycles == [] <==> GraphOf(dsl).Acyclic()
    ensures forall code :: code in Codes(result.issues) <==> Fault(catalogue, dsl, code)
    ensures result.valid <==> WellFormed(catalogue, dsl)
    ensures result.valid <==> !exists i :: i in result.issues && i.severity == Error
  {
    if dsl.nodes == [] {
      NothingToSearch(GraphOf(dsl));
      result := ValidationResult(false, [Raise(EmptyGraph, "", [])], []);
      CodesAreFaults(catalogue, dsl, [], result.issues);
      ValidMeansWellFormed(catalogue, dsl, [], result.issues);
      assert Raise(EmptyGraph, "", []) in result.issues;
      return;
    }
    var issues := CheckNodes(catalogue, dsl);
    issues := CheckEdges(dsl, issues);
    var _, cycles := SortNodes(dsl.nodes, dsl.edges);
    issues := ReportCycles(cycles, issues);
    issues := CheckCategories(catalogue, dsl, issues);
    CodesAreFaults(catalogue, dsl, cycles, issues);
    ValidMeansWellFormed(catalogue, dsl, cycles, issues);
    result := ValidationResult(!exists i :: i in issues && i.severity == Error, issues, cycles);
  }

  method ReportCycles(cycles: seq<seq<Id>>, earlier: seq<Issue>) returns (issues: seq<Issue>)
    ensures forall i :: i in issues <==> i in earlier || CycleIssue(cycles, i)
  {
    issues := earlier;
    for k := 0 to |cycles|
      invariant forall i :: i in issues <==> i in earlier || CycleIssue(cycles[..k], i)
    {
      assert cycles[..k+1] == cycles[..k] + [cycles[k]];
      issues := issues + [Raise(CycleDetected, "", cycles[k])];
    }
    assert cycles[..|cycles|] == cycles;
  }

  predicate AnyOfCategory(catalogue: Catalogue, dsl: Strategy, category: string) {
    exists n :: n in dsl.nodes && HasCategory(catalogue, n, category)
  }

  method CheckCategories(catalogue: Catalogue, dsl: Strategy, earlier: seq<Issue>) returns (issues: seq<Issue>)
    ensures forall i :: i in issues <==> i in earlier || CategoryIssue(catalogue, dsl, i)
  {
    issues := earlier;
    if !AnyOfCategory(catalogue, dsl, "order") {
      issues := issues + [Raise(NoOutput, "", [])];
    }
    if !AnyOfCategory(catalogue, dsl, "input") {
      issues := issues + [Raise(NoInput, "", [])];
    }
  }

  /** The issues to be reported carry exactly the codes of the drawing's faults. */
  lemma CodesAreFaults(catalogue: Catalogue, dsl: Strategy, cycles: seq<seq<Id>>, issues: seq<Issue>)
    requires forall i :: i in issues <==> Reportable(catalogue, dsl, cycles, i)
    requires dsl.nodes != [] ==> (cycles == [] <==> GraphOf(dsl).Acyclic())
    ensures forall code :: code in Codes(issues) <==> Fault(catalogue, dsl, code)
  {
    forall i | i in issues ensures Fault(catalogue, dsl, i.code) {
      IssueIsFault(catalogue, dsl, cycles, i);
    }
    forall code | Fault(catalogue, dsl, code) ensures code in Codes(issues) {
      var i := FaultHasIssue(catalogue, dsl, cycles, code);
      assert i in issues;
    }
  }

  lemma IssueIsFault(catalogue: Catalogue, dsl: Strategy, cycles: seq<seq<Id>>, i: Issue)
    requires Reportable(catalogue, dsl, cycles, i)
    requires dsl.nodes != [] ==> (cycles == [] <==> GraphOf(dsl).Acyclic())
    ensures Fault(catalogue, dsl, i.code)
  {
    if dsl.nodes != [] {
      if SomeNodeIssue(catalogue, dsl, i) {
        var n :| n in dsl.nodes && NodeIssue(catalogue, dsl, n, i);
        assert NodeFault(catalogue, dsl, n, i.code);
      } else if SomeEdgeIssue(dsl, i) {
        var e :| e in dsl.edges && EdgeIssue(dsl, e, i);
        assert EdgeFault(dsl, e, i.code);
      }
    }
  }

  lemma FaultHasIssue(catalogue: Catalogue, dsl: Strategy, cycles: seq<seq<Id>>, code: Code) returns (i: Issue)
    requires Fault(catalogue, dsl, code)
    requires dsl.nodes != [] ==> (cycles == [] <==> GraphOf(dsl).Acyclic())
    ensures Reportable(catalogue, dsl, cycles, i) && i.code == code
  {
    if dsl.nodes == [] || code in {NoOutput, NoInput} {
      i := Raise(code, "", []);
    } else if code == CycleDetected {
      i := Raise(code, "", cycles[0]);
    } else if n :| n in dsl.nodes && NodeFault(catalogue, dsl, n, code) {
      i := NodeFaultHasIssue(catalogue, dsl, n, code);
    } else {
      var e :| e in dsl.edges && EdgeFault(dsl, e, code);
      i := Raise(code, "", [if code == InvalidEdgeSource then e.source else e.target]);
      assert EdgeIssue(dsl, e, i);
    }
  }

  lemma NodeFaultHasIssue(catalogue: Catalogue, dsl: Strategy, n: Node, code: Code) returns (i: Issue)
    requires NodeFault(catalogue, dsl, n, code)
    ensures NodeIssue(catalogue, dsl, n, i) && i.code == code
  {
    if code == UnknownBlock {
      i := Raise(code, n.id, [n.blockType]);
    } else if code == MissingInput {
      var port :| port in catalogue[n.blockType].inputs && InputMissing(dsl, n, port);
      i := Raise(code, n.id, [port.name]);
      assert InputIssue(dsl, n, port, i);
    } else {
      var param :| param in catalogue[n.blockType].params && ParamMissing(n, param);
      i := Raise(code, n.id, [param.name]);
      assert ParamIssue(n, param, i);
    }
  }

  lemma ValidMeansWellFormed(catalogue: Catalogue, dsl: Strategy, cycles: seq<seq<Id>>, issues: seq<Issue>)
    requires forall i :: i in issues <==> Reportable(catalogue, dsl, cycles, i)
    requires forall code :: code in Codes(issues) <==> Fault(catalogue, dsl, code)
    ensures WellFormed(catalogue, dsl) <==> !exists i :: i in issues && i.severity == Error
  {
    forall i | i in issues ensures i.severity == SeverityOf(i.code) && i.code in Codes(issues) {
    }
    forall code | Fault(catalogue, dsl, code) && code != NoOutput
      ensures exists i :: i in issues && i.severity == Error {
      assert code in Codes(issues);
      var i :| i in issues && i.code == code;
      assert i.severity == Error;
    }
  }

  // ----- compilation

  datatype ExecutionNode =
    ExecutionNode(id: Id, blockType: string, order: nat, inputs: seq<Id>, params: map<string, string>)

  datatype ExecutionGraph =
    ExecutionGraph(nodes: seq<ExecutionNode>, entryPoints: seq<Id>, exitPoints: seq<Id>, maxDepth: nat)

  /** The sources of the edges into a node, once for every edge, in edge order. */
  function InputNodes(nid: Id, edges: seq<Edge>): seq<Id> {
    if edges == [] then []
    else (if edges[0].target == nid then [edges[0].source] else []) + InputNodes(nid, edges[1..])
  }

  /** The node drawn last wins when two share an id. */
  function NodeMap(nodes: seq<Node>): (m: map<Id, Node>)
    ensures m.Keys == NodeIds(nodes)
    ensures forall nid :: nid in m ==> m[nid] in nodes && m[nid].id == nid
  {
    if nodes == [] then map[] else
      var last := nodes[|nodes|-1];
      assert nodes == nodes[..|nodes|-1] + [last];
      NodeMap(nodes[..|nodes|-1])[last.id := last]
  }

  lemma {:induction false} LastDrawnWins(nodes: seq<Node>, k: nat)
    requires k < |nodes| && forall j :: k < j < |nodes| ==> nodes[j].id != nodes[k].id
    ensures nodes[k].id in NodeMap(nodes) && NodeMap(nodes)[nodes[k].id] == nodes[k]
  {
    if k < |nodes| - 1 {
      LastDrawnWins(nodes[..|nodes|-1], k);
    }
  }

  lemma {:induction false} InputsAreSources(nid: Id, edges: seq<Edge>, u: Id)
    ensures u in InputNodes(nid, edges) <==>
            exists k :: 0 <= k < |edges| && edges[k].source == u && edges[k].target == nid
  {
    if edges != [] {
      InputsAreSources(nid, edges[1..], u);
      if u in InputNodes(nid, edges[1..]) {
        var k :| 0 <= k < |edges[1..]| && edges[1..][k].source == u && edges[1..][k].target == nid;
        assert edges[k+1] == edges[1..][k];
      }
      if k :| 0 <= k < |edges| && edges[k].source == u && edges[k].target == nid {
        assert k > 0 ==> edges[1..][k-1] == edges[k];
      }
    }
  }

  /** The number of edges into a node. */
  function EdgesInto(nid: Id, edges: seq<Edge>): nat {
    if edges == [] then 0 else (if edges[0].target == nid then 1 else 0) + EdgesInto(nid, edges[1..])
  }

  /** A node has one input for each edge into it, and they stand in the order of the edges. */
  lemma {:induction false} InputsInEdgeOrder(nid: Id, edges: seq<Edge>, k: nat)
    requires k < |edges| && edges[k].target == nid
    ensures |InputNodes(nid, edges)| == EdgesInto(nid, edges)
    ensures EdgesInto(nid, edges[..k]) < EdgesInto(nid, edges)
    ensures InputNodes(nid, edges)[EdgesInto(nid, edges[..k])] == edges[k].source
  {
    InputPerEdge(nid, edges);
    if k > 0 {
      InputsInEdgeOrder(nid, edges[1..], k - 1);
      assert edges[..k][0] == edges[0] && edges[..k][1..] == edges[1..][..k-1];
    }
  }

  lemma {:induction false} InputPerEdge(nid: Id, edges: seq<Edge>)
    ensures |InputNodes(nid, edges)| == EdgesInto(nid, edges)
  {
    if edges != [] {
      InputPerEdge(nid, edges[1..]);
    }
  }

  lemma InputsInWellFormed(catalogue: Catalogue, dsl: Strategy, nid: Id)
    requires WellFormed(catalogue, dsl) && nid in NodeIds(dsl.nodes)
    ensures forall u :: u in InputNodes(nid, dsl.edges) <==> GraphOf(dsl).HasEdge(u, nid)
    ensures InputNodes(nid, dsl.edges) == [] <==> !exists u :: GraphOf(dsl).HasEdge(u, nid)
  {
    var inputs := InputNodes(nid, dsl.edges);
    assert !Fault(catalogue, dsl, InvalidEdgeSource);
    forall u ensures u in inputs <==> GraphOf(dsl).HasEdge(u, nid) {
      InputsAreSources(nid, dsl.edges, u);
      if k :| 0 <= k < |dsl.edges| && dsl.edges[k].source == u && dsl.edges[k].target == nid {
        assert dsl.edges[k] in dsl.edges && !EdgeFault(dsl, dsl.edges[k], InvalidEdgeSource);
      }
    }
    if inputs != [] {
      assert inputs[0] in inputs;
    }
  }

  ghost predicate IsEntry(g: Digraph, v: Id) {
    v in g.ids && !exists u :: g.HasEdge(u, v)
  }

  ghost predicate IsExit(g: Digraph, v: Id) {
    v in g.ids && !exists w :: g.HasEdge(v, w)
  }

  /** d is the length, in edges, of the longest walk that ends at v. */
  ghost predicate IsDepth(g: Digraph, v: Id, d: nat) {
    && (exists p :: g.IsWalk(p) && p[|p|-1] == v && |p| - 1 == d)
    && (forall p :: g.IsWalk(p) && p[|p|-1] == v ==> |p| - 1 <= d)
  }

  ghost predicate IsLongestWalk(g: Digraph, d: nat) {
    && (exists p :: g.IsWalk(p) && |p| - 1 == d)
    && (forall p :: g.IsWalk(p) ==> |p| - 1 <= d)
  }

  function Ids(nodes: seq<ExecutionNode>): (ids: seq<Id>)
    ensures |ids| == |nodes| && forall k :: 0 <= k < |nodes| ==> ids[k] == nodes[k].id
  {
    if nodes == [] then [] else Ids(nodes[..|nodes|-1]) + [nodes[|nodes|-1].id]
  }

  ghost predicate NodeCompiled(dsl: Strategy, node: ExecutionNode, k: nat) {
    && node.id in NodeMap(dsl.nodes)
    && node == ExecutionNode(node.id, NodeMap(dsl.nodes)[node.id].blockType, k,
                             InputNodes(node.id, dsl.edges), NodeMap(dsl.nodes)[node.id].params)
  }

  /** Every block once, sources first, each wired to the sources of its edges. */
  ghost predicate IsPlan(dsl: Strategy, nodes: seq<ExecutionNode>) {
    && GraphOf(dsl).IsTopologicalOrder(Ids(nodes))
    && forall k :: 0 <= k < |nodes| ==> NodeCompiled(dsl, nodes[k], k)
  }

  ghost predicate ListsExactly(s: seq<Id>, ids: set<Id>) {
    Distinct(s) && Elements(s) == ids
  }

  /** The entry (or exit) points among the first nodes of an order. */
  ghost function EndsAmong(g: Digraph, order: seq<Id>, entries: bool): set<Id> {
    set v | v in order && if entries then IsEntry(g, v) else IsExit(g, v)
  }

  lemma EndsGrow(g: Digraph, order: seq<Id>, v: Id, entries: bool, points: seq<Id>)
    requires v !in order && ListsExactly(points, EndsAmong(g, order, entries))
    ensures if if entries then IsEntry(g, v) else IsExit(g, v)
            then ListsExactly(points + [v], EndsAmong(g, order + [v], entries))
            else ListsExactly(points, EndsAmong(g, order + [v], entries))
  {
    assert v !in Elements(points);
    assert Elements(points + [v]) == Elements(points) + {v};
  }

  /** What compilation makes of a drawing: a plan, its ends and its greatest depth. */
  ghost predicate IsCompiled(dsl: Strategy, plan: ExecutionGraph) {
    var g := GraphOf(dsl);
    && IsPlan(dsl, plan.nodes)
    && ListsExactly(plan.entryPoints, set v | v in g.ids && IsEntry(g, v))
    && ListsExactly(plan.exitPoints, set v | v in g.ids && IsExit(g, v))
    && IsLongestWalk(g, plan.maxDepth)
  }

  /** Compilation succeeds exactly on well-formed strategies. */
  method CompileDsl(catalogue: Catalogue, dsl: Strategy)
    returns (graph: Option<ExecutionGraph>, validation: ValidationResult)
    ensures validation.valid <==> WellFormed(catalogue, dsl)
    ensures graph.Some? <==> WellFormed(catalogue, dsl)
    ensures graph.Some? ==> IsCompiled(dsl, graph.value)
  {
    validation := Validate(catalogue, dsl);
    if !validation.valid {
      return None, validation;
    }
    var plan := CompilePlan(catalogue, dsl);
    graph := Some(plan);
  }

  method CompilePlan(catalogue: Catalogue, dsl: Strategy) returns (plan: ExecutionGraph)
    requires WellFormed(catalogue, dsl)
    ensures IsCompiled(dsl, plan)
  {
    var sortedIds := SortWellFormed(catalogue, dsl);
    var nodes, entryPoints, depths := Assemble(catalogue, dsl, sortedIds);
    assert IsPlan(dsl, nodes);
    var exitPoints := Exits(catalogue, dsl, sortedIds);
    var maxDepth := MaxDepth(GraphOf(dsl), sortedIds, depths);
    plan := ExecutionGraph(nodes, entryPoints, exitPoints, maxDepth);
  }

  method SortWellFormed(catalogue: Catalogue, dsl: Strategy) returns (sortedIds: seq<Id>)
    requires WellFormed(catalogue, dsl)
    ensures GraphOf(dsl).IsTopologicalOrder(sortedIds) && sortedIds != []
  {
    var cycles;
    sortedIds, cycles := SortNodes(dsl.nodes, dsl.edges);
    WellFormedIsSortedWhole(catalogue, dsl, sortedIds);
  }

  /** So the fallback for an empty order is never taken. */
  lemma WellFormedIsSortedWhole(catalogue: Catalogue, dsl: Strategy, sortedIds: seq<Id>)
    requires WellFormed(catalogue, dsl)
    requires GraphOf(dsl).Acyclic() <==> GraphOf(dsl).IsTopologicalOrder(sortedIds)
    ensures GraphOf(dsl).IsTopologicalOrder(sortedIds) && sortedIds != []
  {
    assert !Fault(catalogue, dsl, CycleDetected) && !Fault(catalogue, dsl, EmptyGraph);
    assert dsl.nodes[0].id in Elements(sortedIds);
  }

  ghost predicate Compiled(dsl: Strategy, nodes: seq<ExecutionNode>, order: seq<Id>) {
    Ids(nodes) == order && forall k :: 0 <= k < |nodes| ==> NodeCompiled(dsl, nodes[k], k)
  }

  ghost predicate DepthsKnown(g: Digraph, depths: map<Id, nat>, order: seq<Id>) {
    depths.Keys == Elements(order) && forall v :: v in depths ==> IsDepth(g, v, depths[v])
  }

  method Assemble(catalogue: Catalogue, dsl: Strategy, sortedIds: seq<Id>)
    returns (nodes: seq<ExecutionNode>, entryPoints: seq<Id>, depths: map<Id, nat>)
    requires WellFormed(catalogue, dsl) && GraphOf(dsl).IsTopologicalOrder(sortedIds)
    ensures Compiled(dsl, nodes, sortedIds)
    ensures ListsExactly(entryPoints, set v | v in GraphOf(dsl).ids && IsEntry(GraphOf(dsl), v))
    ensures DepthsKnown(GraphOf(dsl), depths, sortedIds)
  {
    ghost var g := GraphOf(dsl);
    var nodeMap := NodeMap(dsl.nodes);
    nodes, entryPoints, depths := [], [], map[];
    for k := 0 to |sortedIds|
      invariant Compiled(dsl, nodes, sortedIds[..k])
      invariant ListsExactly(entryPoints, EndsAmong(g, sortedIds[..k], true))
      invariant DepthsKnown(g, depths, sortedIds[..k])
    {
      var nid := sortedIds[k];
      NextNode(catalogue, dsl, sortedIds, k);
      var node := nodeMap[nid];
      var inputs := InputNodes(nid, dsl.edges);
      var depth := DepthFrom(inputs, depths);
      DepthGrows(g, sortedIds[..k], nid, inputs, depths, depth);
      depths := depths[nid := depth];
      EndsGrow(g, sortedIds[..k], nid, true, entryPoints);
      if inputs == [] {
        entryPoints := entryPoints + [nid];
      }
      CompiledGrows(dsl, nodes, sortedIds[..k], nid);
      nodes := nodes + [ExecutionNode(nid, node.blockType, k, inputs, node.params)];
    }
    assert sortedIds[..|sortedIds|] == sortedIds;
    EndsAmongAll(g, sortedIds);
  }

  lemma NextNode(catalogue: Catalogue, dsl: Strategy, order: seq<Id>, k: nat)
    requires WellFormed(catalogue, dsl) && GraphOf(dsl).IsTopologicalOrder(order) && k < |order|
    ensures order[k] in NodeIds(dsl.nodes) && order[k] !in order[..k] && order[..k+1] == order[..k] + [order[k]]
    ensures forall u :: u in InputNodes(order[k], dsl.edges) <==> GraphOf(dsl).HasEdge(u, order[k])
    ensures forall u :: u in InputNodes(order[k], dsl.edges) ==> u in order[..k]
    ensures InputNodes(order[k], dsl.edges) == [] <==> IsEntry(GraphOf(dsl), order[k])
  {
    assert order[k] in Elements(order);
    InputsInWellFormed(catalogue, dsl, order[k]);
  }

  lemma CompiledGrows(dsl: Strategy, nodes: seq<ExecutionNode>, order: seq<Id>, nid: Id)
    requires Compiled(dsl, nodes, order) && nid in NodeMap(dsl.nodes)
    ensures var node := NodeMap(dsl.nodes)[nid];
      Compiled(dsl, nodes + [ExecutionNode(nid, node.blockType, |order|, InputNodes(nid, dsl.edges), node.params)],
               order + [nid])
  {
    var node := NodeMap(dsl.nodes)[nid];
    var longer := nodes + [ExecutionNode(nid, node.blockType, |order|, InputNodes(nid, dsl.edges), node.params)];
    assert longer[..|longer|-1] == nodes;
  }

  lemma DepthGrows(g: Digraph, order: seq<Id>, v: Id, inputs: seq<Id>, depths: map<Id, nat>, d: nat)
    requires DepthsKnown(g, depths, order) && v in g.ids && v !in order
    requires forall u :: u in inputs <==> g.HasEdge(u, v)
    requires forall u :: u in inputs ==> u in depths && depths[u] + 1 <= d
    requires if inputs == [] then d == 0 else exists u :: u in inputs && d == depths[u] + 1
    ensures DepthsKnown(g, depths[v := d], order + [v])
  {
    DepthIsLongest(g, v, inputs, depths, d);
  }

  lemma EndsAmongAll(g: Digraph, order: seq<Id>)
    requires Elements(order) == g.ids
    ensures EndsAmong(g, order, true) == set v | v in g.ids && IsEntry(g, v)
    ensures EndsAmong(g, order, false) == set v | v in g.ids && IsExit(g, v)
  {
    assert forall v :: v in order <==> v in g.ids;
  }

  /** The inner loop over a node's inputs. */
  method DepthFrom(inputs: seq<Id>, depths: map<Id, nat>) returns (depth: nat)
    requires forall u :: u in inputs ==> u in depths
    ensures forall u :: u in inputs ==> depths[u] + 1 <= depth
    ensures if inputs == [] then depth == 0 else exists u :: u in inputs && depth == depths[u] + 1
  {
    depth := 0;
    for j := 0 to |inputs|
      invariant forall i :: 0 <= i < j ==> depths[inputs[i]] + 1 <= depth
      invariant if j == 0 then depth == 0 else exists u :: u in inputs && depth == depths[u] + 1
    {
      var viaInput := depths[inputs[j]] + 1;
      if viaInput > depth {
        depth := viaInput;
      }
    }
  }

  lemma DepthIsLongest(g: Digraph, v: Id, inputs: seq<Id>, depths: map<Id, nat>, d: nat)
    requires v in g.ids && forall u :: u in inputs <==> g.HasEdge(u, v)
    requires forall u :: u in inputs ==> u in depths && IsDepth(g, u, depths[u]) && depths[u] + 1 <= d
    requires if inputs == [] then d == 0 else exists u :: u in inputs && d == depths[u] + 1
    ensures IsDepth(g, v, d)
  {
    if inputs == [] {
      assert g.IsWalk([v]);
    } else {
      var u :| u in inputs && d == depths[u] + 1;
      var p :| g.IsWalk(p) && p[|p|-1] == u && |p| - 1 == depths[u];
      assert g.IsWalk([v]);
      g.WalkJoin(p, [v]);
      assert g.IsWalk(p + [v]) && |p + [v]| - 1 == d;
    }
    forall p | g.IsWalk(p) && p[|p|-1] == v ensures |p| - 1 <= d {
      if |p| > 1 {
        assert g.StepAt(p, |p| - 2);
        var u := p[|p|-2];
        g.WalkWithin(p, 0, |p| - 1);
        assert p[0..|p|-1][|p|-2] == u;
        assert u in inputs && IsDepth(g, u, depths[u]);
      }
    }
  }

  method MaxDepth(ghost g: Digraph, sortedIds: seq<Id>, depths: map<Id, nat>) returns (d: nat)
    requires sortedIds != [] && Elements(sortedIds) == g.ids
    requires depths.Keys == g.ids && forall v :: v in depths ==> IsDepth(g, v, depths[v])
    ensures IsLongestWalk(g, d)
  {
    assert forall v :: v in sortedIds <==> v in g.ids;
    d := depths[sortedIds[0]];
    for k := 1 to |sortedIds|
      invariant exists v :: v in depths && d == depths[v]
      invariant forall i :: 0 <= i < k ==> depths[sortedIds[i]] <= d
    {
      if depths[sortedIds[k]] > d {
        d := depths[sortedIds[k]];
      }
    }
    forall p | g.IsWalk(p) ensures |p| - 1 <= d {
      assert p[|p|-1] in sortedIds && IsDepth(g, p[|p|-1], depths[p[|p|-1]]);
    }
  }

  method Exits(catalogue: Catalogue, dsl: Strategy, sortedIds: seq<Id>) returns (exitPoints: seq<Id>)
    requires WellFormed(catalogue, dsl) && GraphOf(dsl).IsTopologicalOrder(sortedIds)
    ensures ListsExactly(exitPoints, set v | v in GraphOf(dsl).ids && IsExit(GraphOf(dsl), v))
  {
    ghost var g := GraphOf(dsl);
    var outDegree: map<Id, nat> := map[];
    for k := 0 to |dsl.edges|
      invariant forall v :: v in outDegree <==> exists i :: 0 <= i < k && dsl.edges[i].source == v
      invariant forall v :: v in outDegree ==> outDegree[v] > 0
    {
      var u := dsl.edges[k].source;
      outDegree := outDegree[u := (if u in outDegree then outDegree[u] else 0) + 1];
    }
    exitPoints := [];
    for k := 0 to |sortedIds|
      invariant ListsExactly(exitPoints, EndsAmong(g, sortedIds[..k], false))
    {
      var nid := sortedIds[k];
      assert sortedIds[..k+1] == sortedIds[..k] + [nid] && nid !in sortedIds[..k];
      assert nid in Elements(sortedIds);
      ExitMeansNoOutgoing(catalogue, dsl, nid);
      EndsGrow(g, sortedIds[..k], nid, false, exitPoints);
      if nid !in outDegree || outDegree[nid] == 0 {
        exitPoints := exitPoints + [nid];
      }
    }
    assert sortedIds[..|sortedIds|] == sortedIds;
    EndsAmongAll(g, sortedIds);
  }

  lemma ExitMeansNoOutgoing(catalogue: Catalogue, dsl: Strategy, v: Id)
    requires WellFormed(catalogue, dsl) && v in NodeIds(dsl.nodes)
    ensures IsExit(GraphOf(dsl), v) <==> !exists i :: 0 <= i < |dsl.edges| && dsl.edges[i].source == v
  {
    assert !Fault(catalogue, dsl, InvalidEdgeTarget);
    if i :| 0 <= i < |dsl.edges| && dsl.edges[i].source == v {
      assert dsl.edges[i] in dsl.edges && !EdgeFault(dsl, dsl.edges[i], InvalidEdgeTarget);
      assert GraphOf(dsl).HasEdge(v, dsl.edges[i].target);
    }
  }

  // ----- between entry and exit

  lemma {:induction false} ReachedFromEntry(g: Digraph, order: seq<Id>, k: nat) returns (p: seq<Id>)
    requires g.IsTopologicalOrder(order) && k < |order|
    ensures g.IsWalk(p) && IsEntry(g, p[0]) && p[|p|-1] == order[k]
  {
    assert order[k] in Elements(order) && g.IsWalk([order[k]]);
    if IsEntry(g, order[k]) {
      p := [order[k]];
    } else {
      var u :| g.HasEdge(u, order[k]);
      var i :| 0 <= i < k && order[i] == u;
      var q := ReachedFromEntry(g, order, i);
      g.WalkJoin(q, [order[k]]);
      p := q + [order[k]];
    }
  }

  lemma {:induction false} ReachesExit(g: Digraph, order: seq<Id>, k: nat) returns (p: seq<Id>)
    requires g.IsTopologicalOrder(order) && k < |order|
    ensures g.IsWalk(p) && p[0] == order[k] && IsExit(g, p[|p|-1])
    decreases |order| - k
  {
    assert order[k] in Elements(order) && g.IsWalk([order[k]]);
    if IsExit(g, order[k]) {
      p := [order[k]];
    } else {
      var w :| g.HasEdge(order[k], w);
      assert w in Elements(order);
      var i :| 0 <= i < |order| && order[i] == w;
      assert order[k] in order[..i];
      var q := ReachesExit(g, order, i);
      g.WalkJoin([order[k]], q);
      p := [order[k]] + q;
    }
  }

  /** Every block of a compiled strategy lies on a path from an entry point to an exit point. */
  lemma EveryBlockIsBetweenEntryAndExit(dsl: Strategy, nodes: seq<ExecutionNode>, v: Id)
    requires IsPlan(dsl, nodes) && v in GraphOf(dsl).ids
    ensures exists p :: GraphOf(dsl).IsWalk(p) && v in p
              && IsEntry(GraphOf(dsl), p[0]) && IsExit(GraphOf(dsl), p[|p|-1])
  {
    var g, order := GraphOf(dsl), Ids(nodes);
    assert v in Elements(order);
    var k :| 0 <= k < |order| && order[k] == v;
    var p := ReachedFromEntry(g, order, k);
    var q := ReachesExit(g, order, k);
    g.WalkMeet(p, q);
    assert p[|p|-1] in p && p[|p|-1] in p + q[1..];
  }

  // ----- the meaning of a plan

  /** A block's computation: its type, its parameters and the values on its inputs. */
  type Compute<!V> = (string, map<string, string>, seq<V>) -> V

  function Read<V>(values: map<Id, V>, inputs: seq<Id>): (r: seq<V>)
    requires forall u :: u in inputs ==> u in values
    ensures |r| == |inputs| && forall i :: 0 <= i < |inputs| ==> r[i] == values[inputs[i]]
  {
    seq(|inputs|, i requires 0 <= i < |inputs| => values[inputs[i]])
  }

  /** A map that satisfies every block's dataflow equation. */
  ghost predicate Solves<V>(dsl: Strategy, compute: Compute<V>, values: map<Id, V>) {
    && values.Keys == NodeIds(dsl.nodes)
    && forall v :: v in values ==>
         && (forall u :: u in InputNodes(v, dsl.edges) ==> u in values)
         && var node := NodeMap(dsl.nodes)[v];
            values[v] == compute(node.blockType, node.params, Read(values, InputNodes(v, dsl.edges)))
  }

  predicate InputsListedBefore(nodes: seq<ExecutionNode>) {
    forall k, u :: 0 <= k < |nodes| && u in nodes[k].inputs ==> u in Ids(nodes)[..k]
  }

  /** Runs the plan's nodes once each, in order, each reading only its inputs. */
  function Execute<V>(nodes: seq<ExecutionNode>, compute: Compute<V>): (values: map<Id, V>)
    requires InputsListedBefore(nodes)
    ensures values.Keys == Elements(Ids(nodes))
  {
    if nodes == [] then map[] else
      var init, last := nodes[..|nodes|-1], nodes[|nodes|-1];
      assert nodes == init + [last];
      InputsBeforeLast(init, last);
      var values := Execute(init, compute);
      values[last.id := compute(last.blockType, last.params, Read(values, last.inputs))]
  }

  lemma InputsBeforeLast(init: seq<ExecutionNode>, last: ExecutionNode)
    requires InputsListedBefore(init + [last])
    ensures InputsListedBefore(init)
    ensures forall u :: u in last.inputs ==> u in Ids(init)
  {
    var nodes := init + [last];
    assert nodes[..|nodes|-1] == init;
    assert Ids(nodes)[..|init|] == Ids(init);
    forall k, u | 0 <= k < |init| && u in init[k].inputs ensures u in Ids(init)[..k] {
      assert nodes[k] == init[k] && Ids(nodes)[..k] == Ids(init)[..k];
    }
    forall u | u in last.inputs ensures u in Ids(init) {
      assert nodes[|init|] == last && u in Ids(nodes)[..|init|];
    }
  }

  lemma PlanListsInputsBefore(catalogue: Catalogue, dsl: Strategy, nodes: seq<ExecutionNode>)
    requires WellFormed(catalogue, dsl) && IsPlan(dsl, nodes)
    ensures InputsListedBefore(nodes)
  {
    forall k, u | 0 <= k < |nodes| && u in nodes[k].inputs ensures u in Ids(nodes)[..k] {
      assert NodeCompiled(dsl, nodes[k], k);
      InputsInWellFormed(catalogue, dsl, nodes[k].id);
      assert GraphOf(dsl).HasEdge(u, Ids(nodes)[k]);
    }
  }

  /** Whatever a later node computes, the value of node k is final once it has run. */
  lemma {:induction false} ExecuteAt<V>(nodes: seq<ExecutionNode>, compute: Compute<V>, k: nat)
    requires InputsListedBefore(nodes) && Distinct(Ids(nodes)) && k < |nodes|
    ensures var values := Execute(nodes, compute);
      && nodes[k].id in values
      && (forall u :: u in nodes[k].inputs ==> u in values)
      && values[nodes[k].id] == compute(nodes[k].blockType, nodes[k].params, Read(values, nodes[k].inputs))
  {
    var init, last := nodes[..|nodes|-1], nodes[|nodes|-1];
    assert nodes == init + [last];
    InputsBeforeLast(init, last);
    var before, values := Execute(init, compute), Execute(nodes, compute);
    assert Ids(nodes)[..|init|] == Ids(init);
    assert Distinct(Ids(init));
    assert last.id !in Ids(init) by {
      assert forall i :: 0 <= i < |init| ==> Ids(init)[i] == Ids(nodes)[i] != Ids(nodes)[|init|];
    }
    if k < |init| {
      ExecuteAt(init, compute, k);
      assert Read(before, nodes[k].inputs) == Read(values, nodes[k].inputs);
    } else {
      assert Read(before, last.inputs) == Read(values, last.inputs);
    }
  }

  /** Meaning preservation: running a compiled plan gives the one and only solution of the
      strategy's dataflow equations. */
  lemma PlanComputesTheDataflow<V>(catalogue: Catalogue, dsl: Strategy, nodes: seq<ExecutionNode>, compute: Compute<V>)
    requires WellFormed(catalogue, dsl) && IsPlan(dsl, nodes)
    ensures InputsListedBefore(nodes)
    ensures forall values :: Solves(dsl, compute, values) <==> values == Execute(nodes, compute)
  {
    PlanListsInputsBefore(catalogue, dsl, nodes);
    var result := Execute(nodes, compute);
    assert Solves(dsl, compute, result) by {
      forall v | v in result
        ensures (forall u :: u in InputNodes(v, dsl.edges) ==> u in result)
        ensures var node := NodeMap(dsl.nodes)[v];
          result[v] == compute(node.blockType, node.params, Read(result, InputNodes(v, dsl.edges)))
      {
        var k :| 0 <= k < |nodes| && Ids(nodes)[k] == v;
        assert NodeCompiled(dsl, nodes[k], k);
        ExecuteAt(nodes, compute, k);
      }
    }
    forall values | Solves(dsl, compute, values) ensures values == result {
      forall k | 0 <= k < |nodes| ensures values[nodes[k].id] == result[nodes[k].id] {
        SolutionsAgree(dsl, nodes, compute, values, result, k);
      }
      forall v | v in values ensures values[v] == result[v] {
        assert v in Elements(Ids(nodes));
        var k :| 0 <= k < |nodes| && Ids(nodes)[k] == v;
        assert values[nodes[k].id] == result[nodes[k].id];
      }
    }
  }

  lemma {:induction false} SolutionsAgree<V>(dsl: Strategy, nodes: seq<ExecutionNode>, compute: Compute<V>,
      a: map<Id, V>, b: map<Id, V>, k: nat)
    requires IsPlan(dsl, nodes) && InputsListedBefore(nodes) && k < |nodes|
    requires Solves(dsl, compute, a) && Solves(dsl, compute, b)
    ensures nodes[k].id in a && nodes[k].id in b && a[nodes[k].id] == b[nodes[k].id]
  {
    var v := nodes[k].id;
    assert NodeCompiled(dsl, nodes[k], k);
    assert Ids(nodes)[k] in Elements(Ids(nodes));
    var inputs := InputNodes(v, dsl.edges);
    forall i | 0 <= i < |inputs| ensures a[inputs[i]] == b[inputs[i]] {
      assert inputs[i] in nodes[k].inputs;
      var j :| 0 <= j < k && Ids(nodes)[j] == inputs[i];
      SolutionsAgree(dsl, nodes, compute, a, b, j);
    }
    assert Read(a, inputs) == Read(b, inputs);
  }

  /** Any two plans of one strategy mean the same. */
  lemma PlansAgree<V>(catalogue: Catalogue, dsl: Strategy, nodes: seq<ExecutionNode>, others: seq<ExecutionNode>,
      compute: Compute<V>)
    requires WellFormed(catalogue, dsl) && IsPlan(dsl, nodes) && IsPlan(dsl, others)
    ensures InputsListedBefore(nodes) && InputsListedBefore(others)
    ensures Execute(nodes, compute) == Execute(others, compute)
  {
    PlanComputesTheDataflow(catalogue, dsl, nodes, compute);
    PlanComputesTheDataflow(catalogue, dsl, others, compute);
    assert Solves(dsl, compute, Execute(nodes, compute));
  }
}
