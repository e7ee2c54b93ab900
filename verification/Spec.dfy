/** Run specifications: nodes, edges, their validation, and the identity that ignores declaration order. */
module Specification {
  import opened Lexical
  import opened Acyclicity
  import opened Text

  const MAX_CONCURRENCY := 256

  datatype NodeSpec = NodeSpec(id: string, capability: string, requestIdentity: string)

  datatype EdgeSpec = EdgeSpec(from: string, to: string)

  datatype DagSpec = DagSpec(snapshotIdentity: string, maxConcurrency: nat, nodes: seq<NodeSpec>, edges: seq<EdgeSpec>)

  datatype ErrorKind =
    | InvalidSpec | DuplicateNode | UnknownNode | DuplicateEdge | Cyclic
    | InvalidTransition | ResumeIdentityMismatch

  /** What an error message names; the wording itself is not modelled. */
  datatype Detail =
    | HeaderInvalid | NodeInvalid(id: string) | NodeRepeated(id: string)
    | EndpointUnknown(edge: EdgeSpec) | EdgeRepeated(edge: EdgeSpec) | DependencyCycle
    | NodeNotRunning(id: string) | ForeignSnapshot(id: string) | NoSchedulableWork
    | IdentityDiffers | CheckpointNodeUnknown(id: string) | FinalizedTooEarly(id: string) | BlockHistoryInconsistent(id: string)
    | CompletedNodeInvalid(id: string) | DomainFailedNodeInvalid(id: string) | TimeoutDiagnosticEmpty(id: string)
    | ProcessDiagnosticEmpty(id: string) | ThresholdOutOfRange

  datatype CoordinatorError = CoordinatorError(kind: ErrorKind, detail: Detail)

  /** What validation hands the coordinator: nodes by id, and sorted dependency lists by id. */
  datatype Plan = Plan(spec: DagSpec, nodes: map<string, NodeSpec>, deps: Dependencies)

  predicate ValidHeader(spec: DagSpec) {
    IsDigest(spec.snapshotIdentity) && spec.nodes != [] && 0 < spec.maxConcurrency <= MAX_CONCURRENCY
  }

  predicate ValidNode(node: NodeSpec) {
    ValidId(node.id) && ValidId(node.capability) && !IsBlank(node.requestIdentity)
  }

  /** Ids of the first `n` nodes. */
  function NodeIds(nodes: seq<NodeSpec>): set<string> {
    set i | 0 <= i < |nodes| :: nodes[i].id
  }

  predicate NodesValid(nodes: seq<NodeSpec>) {
    && (forall i :: 0 <= i < |nodes| ==> ValidNode(nodes[i]))
    && (forall i, j :: 0 <= i < j < |nodes| ==> nodes[i].id != nodes[j].id)
  }

  predicate EdgesValid(ids: set<string>, edges: seq<EdgeSpec>) {
    && (forall i :: 0 <= i < |edges| ==> edges[i].from in ids && edges[i].to in ids)
    && (forall i, j :: 0 <= i < j < |edges| ==> edges[i] != edges[j])
  }

  function Sources(edges: seq<EdgeSpec>, id: string): set<string> {
    set e | e in edges && e.to == id :: e.from
  }

  /** The dependency lists a specification declares: for each node, the sorted sources of its incoming edges. */
  function DependenciesOf(spec: DagSpec): Dependencies {
    Incoming(NodeIds(spec.nodes), spec.edges)
  }

  function Incoming(ids: set<string>, edges: seq<EdgeSpec>): (deps: Dependencies)
    ensures deps.Keys == ids
  {
    map id | id in ids :: Ascend(Sources(edges, id))
  }

  function NodesById(nodes: seq<NodeSpec>): (byId: map<string, NodeSpec>)
    ensures byId.Keys == NodeIds(nodes)
  {
    if nodes == [] then map[]
    else
      var n := |nodes| - 1;
      assert NodeIds(nodes) == NodeIds(nodes[..n]) + {nodes[n].id} by {
        forall id | id in NodeIds(nodes) ensures id in NodeIds(nodes[..n]) + {nodes[n].id} {
          var i :| 0 <= i < |nodes| && nodes[i].id == id;
          assert i < n ==> nodes[..n][i].id == id;
        }
        forall id | id in NodeIds(nodes[..n]) ensures id in NodeIds(nodes) {
          var i :| 0 <= i < n && nodes[..n][i].id == id;
          assert nodes[i].id == id;
        }
      }
      NodesById(nodes[..n])[nodes[n].id := nodes[n]]
  }

  ghost predicate ValidSpec(spec: DagSpec) {
    && ValidHeader(spec) && NodesValid(spec.nodes) && EdgesValid(NodeIds(spec.nodes), spec.edges)
    && Acyclic(DependenciesOf(spec))
  }

  function PlanOf(spec: DagSpec): Plan {
    Plan(spec, NodesById(spec.nodes), DependenciesOf(spec))
  }

  lemma {:induction false} NodesByIdSays(nodes: seq<NodeSpec>, node: NodeSpec)
    requires NodesValid(nodes)
    ensures node in nodes <==> node.id in NodesById(nodes) && NodesById(nodes)[node.id] == node
  {
    if nodes != [] {
      var front, last := nodes[..|nodes| - 1], nodes[|nodes| - 1];
      assert nodes == front + [last];
      NodesByIdSays(front, node);
      if node in front {
        var i :| 0 <= i < |front| && front[i] == node;
        assert nodes[i] == node && nodes[|nodes| - 1] == last;
      }
    }
  }

  /** The plan holds each declared node under its id, and as dependencies of a node, in id order, the sources of its edges. */
  lemma PlanSays(spec: DagSpec)
    requires ValidSpec(spec)
    ensures var p := PlanOf(spec);
            && p.spec == spec && p.deps.Keys == p.nodes.Keys
            && (forall node :: node in spec.nodes <==> node.id in p.nodes && p.nodes[node.id] == node)
            && (forall id :: id in p.deps ==> Ascending(p.deps[id]) && forall d :: d in p.deps[id] <==> EdgeSpec(d, id) in spec.edges)
  {
    forall node ensures node in spec.nodes <==> node.id in NodesById(spec.nodes) && NodesById(spec.nodes)[node.id] == node {
      NodesByIdSays(spec.nodes, node);
    }
    forall id, d ensures d in Sources(spec.edges, id) <==> EdgeSpec(d, id) in spec.edges {
      if EdgeSpec(d, id) in spec.edges {
        assert EdgeSpec(d, id).from == d;
      }
    }
  }

  /** Node `i` is the first that fails, and `kind` says how. */
  ghost predicate NodeDefect(nodes: seq<NodeSpec>, i: nat, kind: ErrorKind) {
    && i < |nodes| && NodesValid(nodes[..i])
    && match kind
       case InvalidSpec => !ValidNode(nodes[i])
       case DuplicateNode => ValidNode(nodes[i]) && nodes[i].id in NodeIds(nodes[..i])
       case _ => false
  }

  /** Edge `i` is the first that fails, and `kind` says how. */
  ghost predicate EdgeDefect(ids: set<string>, edges: seq<EdgeSpec>, i: nat, kind: ErrorKind) {
    && i < |edges| && EdgesValid(ids, edges[..i])
    && match kind
       case UnknownNode => edges[i].from !in ids || edges[i].to !in ids
       case DuplicateEdge => edges[i].from in ids && edges[i].to in ids && edges[i] in edges[..i]
       case _ => false
  }

  /** The reason validation reports, given that every earlier check passed. */
  ghost predicate Defect(spec: DagSpec, kind: ErrorKind) {
    if !ValidHeader(spec) then kind == InvalidSpec
    else if !NodesValid(spec.nodes) then exists i: nat :: NodeDefect(spec.nodes, i, kind)
    else if !EdgesValid(NodeIds(spec.nodes), spec.edges) then
      exists i: nat :: EdgeDefect(NodeIds(spec.nodes), spec.edges, i, kind)
    else kind == Cyclic && exists walk :: Cycle(DependenciesOf(spec), walk)
  }

  lemma DependenciesListed(spec: DagSpec)
    requires EdgesValid(NodeIds(spec.nodes), spec.edges)
    ensures Listed(DependenciesOf(spec))
  {
  }

  method ValidateNodes(nodes: seq<NodeSpec>) returns (r: Result<map<string, NodeSpec>, CoordinatorError>)
    ensures r.Ok? <==> NodesValid(nodes)
    ensures r.Ok? ==> r.value == NodesById(nodes)
    ensures r.Err? ==> exists i: nat :: NodeDefect(nodes, i, r.error.kind)
  {
    var byId := map[];
    var i := 0;
    while i < |nodes|
      invariant 0 <= i <= |nodes|
      invariant NodesValid(nodes[..i]) && byId == NodesById(nodes[..i])
    {
      var node := nodes[i];
      if !ValidNode(node) {
        assert NodeDefect(nodes, i, InvalidSpec);
        return Err(CoordinatorError(InvalidSpec, NodeInvalid(node.id)));
      }
      if node.id in byId {
        var j :| 0 <= j < i && nodes[..i][j].id == node.id;
        assert nodes[j].id == nodes[i].id;
        assert NodeDefect(nodes, i, DuplicateNode);
        return Err(CoordinatorError(DuplicateNode, NodeRepeated(node.id)));
      }
      byId := byId[node.id := node];
      NodesValidNext(nodes, i);
      assert nodes[..i + 1][..i] == nodes[..i];
      i := i + 1;
    }
    assert nodes[..i] == nodes;
    r := Ok(byId);
  }

  lemma NodesValidNext(nodes: seq<NodeSpec>, i: nat)
    requires i < |nodes| && NodesValid(nodes[..i]) && ValidNode(nodes[i]) && nodes[i].id !in NodeIds(nodes[..i])
    ensures NodesValid(nodes[..i + 1])
  {
    var shorter, longer := nodes[..i], nodes[..i + 1];
    assert forall j :: 0 <= j < i ==> longer[j] == shorter[j];
    assert forall j :: 0 <= j < i ==> shorter[j].id in NodeIds(shorter);
  }

  /** Elements of a pushed list, which sorting puts in order. */
  function Elements(s: seq<string>): set<string> {
    set x | x in s
  }

  function SortLists(pushed: map<string, seq<string>>): Dependencies {
    map id | id in pushed :: Ascend(Elements(pushed[id]))
  }

  /** Each node's pushed list holds the sources of its incoming edges. */
  ghost predicate Gathered(ids: set<string>, edges: seq<EdgeSpec>, pushed: map<string, seq<string>>) {
    pushed.Keys == ids && forall id :: id in ids ==> Elements(pushed[id]) == Sources(edges, id)
  }

  lemma GatheredSorted(ids: set<string>, edges: seq<EdgeSpec>, pushed: map<string, seq<string>>)
    requires Gathered(ids, edges, pushed)
    ensures SortLists(pushed) == Incoming(ids, edges)
  {
  }

  lemma GatheredNext(ids: set<string>, edges: seq<EdgeSpec>, i: nat, pushed: map<string, seq<string>>)
    requires i < |edges| && edges[i].to in ids && Gathered(ids, edges[..i], pushed)
    ensures Gathered(ids, edges[..i + 1], pushed[edges[i].to := pushed[edges[i].to] + [edges[i].from]])
    ensures forall e :: e in edges[..i + 1] <==> e in edges[..i] || e == edges[i]
  {
    assert edges[..i + 1] == edges[..i] + [edges[i]];
    forall id ensures Sources(edges[..i + 1], id) == Sources(edges[..i], id) + (if id == edges[i].to then {edges[i].from} else {}) {
    }
    var to := edges[i].to;
    assert Elements(pushed[to] + [edges[i].from]) == Elements(pushed[to]) + {edges[i].from};
  }

  lemma EdgeDefectInvalid(ids: set<string>, edges: seq<EdgeSpec>, i: nat, kind: ErrorKind)
    requires EdgeDefect(ids, edges, i, kind)
    ensures !EdgesValid(ids, edges) && exists n: nat :: EdgeDefect(ids, edges, n, kind)
  {
    if kind == DuplicateEdge {
      var j :| 0 <= j < i && edges[..i][j] == edges[i];
      assert edges[j] == edges[i];
    }
  }

  method ValidateEdges(ids: set<string>, edges: seq<EdgeSpec>) returns (r: Result<Dependencies, CoordinatorError>)
    ensures r.Ok? <==> EdgesValid(ids, edges)
    ensures r.Ok? ==> r.value == Incoming(ids, edges)
    ensures r.Err? ==> exists i: nat :: EdgeDefect(ids, edges, i, r.error.kind)
  {
    var pushed: map<string, seq<string>> := map id | id in ids :: [];
    var seen: set<EdgeSpec> := {};
    var i := 0;
    while i < |edges|
      invariant 0 <= i <= |edges| && EdgesValid(ids, edges[..i])
      invariant forall e :: e in seen <==> e in edges[..i]
      invariant Gathered(ids, edges[..i], pushed)
    {
      var edge := edges[i];
      if edge.from !in ids || edge.to !in ids {
        EdgeDefectInvalid(ids, edges, i, UnknownNode);
        return Err(CoordinatorError(UnknownNode, EndpointUnknown(edge)));
      }
      if edge in seen {
        EdgeDefectInvalid(ids, edges, i, DuplicateEdge);
        return Err(CoordinatorError(DuplicateEdge, EdgeRepeated(edge)));
      }
      seen := seen + {edge};
      GatheredNext(ids, edges, i, pushed);
      EdgesValidNext(ids, edges, i);
      pushed := pushed[edge.to := pushed[edge.to] + [edge.from]];
      i := i + 1;
    }
    assert edges[..i] == edges;
    GatheredSorted(ids, edges, pushed);
    r := Ok(SortLists(pushed));
  }

  lemma EdgesValidNext(ids: set<string>, edges: seq<EdgeSpec>, i: nat)
    requires i < |edges| && EdgesValid(ids, edges[..i]) && edges[i] !in edges[..i]
    requires edges[i].from in ids && edges[i].to in ids
    ensures EdgesValid(ids, edges[..i + 1])
  {
    var shorter, longer := edges[..i], edges[..i + 1];
    assert forall j :: 0 <= j < i ==> longer[j] == shorter[j] && shorter[j] in shorter;
  }

  /** Header, then nodes, then edges, then cycles: the first failing check decides the error. */
  method ValidateSpec(spec: DagSpec) returns (r: Result<Plan, CoordinatorError>)
    ensures r.Ok? <==> ValidSpec(spec)
    ensures r.Ok? ==> r.value == PlanOf(spec)
    ensures r.Err? ==> Defect(spec, r.error.kind)
  {
    if !ValidHeader(spec) {
      return Err(CoordinatorError(InvalidSpec, HeaderInvalid));
    }
    var nodes := ValidateNodes(spec.nodes);
    if nodes.Err? {
      return Err(nodes.error);
    }
    var deps := ValidateEdges(nodes.value.Keys, spec.edges);
    if deps.Err? {
      return Err(deps.error);
    }
    DependenciesListed(spec);
    assert nodes.value.Keys == deps.value.Keys;
    assert |nodes.value| == |nodes.value.Keys| && |deps.value| == |deps.value.Keys|;
    var acyclic := ValidateAcyclic(|nodes.value|, deps.value);
    if !acyclic {
      return Err(CoordinatorError(Cyclic, DependencyCycle));
    }
    r := Ok(Plan(spec, nodes.value, deps.value));
  }
}
