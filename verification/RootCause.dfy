/** The root-cause search of the state graph (core/src/graph.rs): a recursive
    depth-first search with a visited set, on any index and any nodes, cyclic or
    not. */
module RootCause {
  import opened Graph
  import opened SetSum

  datatype IndexedEdge = IndexedEdge(kind: EdgeKind, to: NodeId)

  type OutIndex = map<NodeId, seq<IndexedEdge>>

  /** A line of the report: an error with its recorded type, or a wait. */
  datatype Cause = ErrorCause(error: NodeId, description: string) | WaitCause(resource: NodeId)

  const UNKNOWN_ERROR := "未知错误"

  function ErrorType(n: Node): string {
    if "error_type" in n.metadata then n.metadata["error_type"] else UNKNOWN_ERROR
  }

  function OutOf(out: OutIndex, id: NodeId): seq<IndexedEdge> {
    if id in out then out[id] else []
  }

  /** What one out-edge contributes to the report by itself. */
  function CauseOf(e: IndexedEdge, nodes: Nodes): seq<Cause> {
    match e.kind
    case BlockedBy =>
      if e.to in nodes && nodes[e.to].kind.Error? then [ErrorCause(e.to, ErrorType(nodes[e.to]))] else []
    case WaitsOn => [WaitCause(e.to)]
    case Consumes => []
  }

  function Scan(edges: seq<IndexedEdge>, nodes: Nodes): seq<Cause> {
    if edges == [] then []
    else Scan(edges[..|edges| - 1], nodes) + CauseOf(edges[|edges| - 1], nodes)
  }

  // ---- reachability ----

  /** The search may step from `x` to `y`. */
  predicate Blocks(out: OutIndex, nodes: Nodes, x: NodeId, y: NodeId) {
    IndexedEdge(BlockedBy, y) in OutOf(out, x) && y in nodes
  }

  predicate IsPath(out: OutIndex, nodes: Nodes, p: seq<NodeId>) {
    p != [] && forall i | 0 < i < |p| :: Blocks(out, nodes, p[i - 1], p[i])
  }

  ghost predicate Reaches(out: OutIndex, nodes: Nodes, x: NodeId, y: NodeId) {
    exists p :: IsPath(out, nodes, p) && p[0] == x && p[|p| - 1] == y
  }

  ghost function Reachable(out: OutIndex, nodes: Nodes, root: NodeId): set<NodeId> {
    set x | x in nodes.Keys + {root} && Reaches(out, nodes, root, x)
  }

  lemma ReachesItself(out: OutIndex, nodes: Nodes, x: NodeId)
    ensures Reaches(out, nodes, x, x)
  {
    assert IsPath(out, nodes, [x]);
  }

  lemma ReachesThrough(out: OutIndex, nodes: Nodes, x: NodeId, y: NodeId, z: NodeId)
    requires Blocks(out, nodes, x, y) && Reaches(out, nodes, y, z)
    ensures Reaches(out, nodes, x, z)
  {
    var p :| IsPath(out, nodes, p) && p[0] == y && p[|p| - 1] == z;
    var q := [x] + p;
    forall i | 0 < i < |q| ensures Blocks(out, nodes, q[i - 1], q[i]) {
      assert i > 1 ==> Blocks(out, nodes, p[i - 2], p[i - 1]);
    }
    assert IsPath(out, nodes, q) && q[0] == x && q[|q| - 1] == z;
  }

  /** A set that contains `x` and is closed under steps contains what `x` reaches. */
  lemma {:induction false} ClosedContainsPath(out: OutIndex, nodes: Nodes, closed: set<NodeId>, p: seq<NodeId>)
    requires forall x | x in closed :: Expanded(out, nodes, closed, x)
    requires IsPath(out, nodes, p) && p[0] in closed
    ensures p[|p| - 1] in closed
  {
    if |p| > 1 {
      var q := p[..|p| - 1];
      assert forall i | 0 < i < |q| :: Blocks(out, nodes, p[i - 1], p[i]);
      ClosedContainsPath(out, nodes, closed, q);
      assert Expanded(out, nodes, closed, q[|q| - 1]);
    }
  }

  /** What a node contributes to a report. */
  function Weight(out: OutIndex, nodes: Nodes): NodeId -> multiset<Cause> {
    (id: NodeId) => multiset(Scan(OutOf(out, id), nodes))
  }

  // ---- the search ----

  /** The search grew `visited` to `later` by nodes that `node` reaches, all of
      whose steps were taken except from the nodes still `open`. */
  ghost predicate Explored(out: OutIndex, nodes: Nodes, node: NodeId,
                           visited: set<NodeId>, later: set<NodeId>, open: set<NodeId>) {
    && visited <= later
    && (forall x {:trigger Reaches(out, nodes, node, x)} | x in later - visited :: Reaches(out, nodes, node, x))
    && (forall x {:trigger Expanded(out, nodes, later, x)} | x in later - visited - open ::
          Expanded(out, nodes, later, x))
  }

  /** Every step from `x` leads into `later`. */
  ghost predicate Expanded(out: OutIndex, nodes: Nodes, later: set<NodeId>, x: NodeId) {
    forall y | Blocks(out, nodes, x, y) :: y in later
  }

  /** The search has been at the far end of the first `i` edges where it may go
      there. */
  predicate Followed(edges: seq<IndexedEdge>, i: nat, nodes: Nodes, visited: set<NodeId>)
    requires i <= |edges|
  {
    forall j | 0 <= j < i && edges[j].kind.BlockedBy? && edges[j].to in nodes :: edges[j].to in visited
  }

  lemma FollowedNext(edges: seq<IndexedEdge>, i: nat, nodes: Nodes, before: set<NodeId>, after: set<NodeId>)
    requires i < |edges| && before <= after && Followed(edges, i, nodes, before)
    requires edges[i].kind.BlockedBy? && edges[i].to in nodes ==> edges[i].to in after
    ensures Followed(edges, i + 1, nodes, after)
  {}

  lemma ExploredThrough(out: OutIndex, nodes: Nodes, node: NodeId, to: NodeId,
                        visited: set<NodeId>, before: set<NodeId>, after: set<NodeId>)
    requires Explored(out, nodes, node, visited, before, {node})
    requires Blocks(out, nodes, node, to) && Explored(out, nodes, to, before, after, {})
    ensures Explored(out, nodes, node, visited, after, {node})
  {
    forall x | x in after - visited ensures Reaches(out, nodes, node, x) {
      if x !in before {
        assert Reaches(out, nodes, to, x);
        ReachesThrough(out, nodes, node, to, x);
      }
    }
    forall x | x in after - visited - {node} ensures Expanded(out, nodes, after, x) {
      assert Expanded(out, nodes, if x in before then before else after, x);
    }
  }

  lemma SumThrough<B>(node: NodeId, visited: set<NodeId>, before: set<NodeId>, after: set<NodeId>,
                      weight: NodeId -> multiset<B>)
    requires visited + {node} <= before <= after
    ensures Sum(after - visited - {node}, weight)
         == Sum(before - visited - {node}, weight) + Sum(after - before, weight)
  {
    SumUnion(before - visited - {node}, after - before, weight);
    assert before - visited - {node} + (after - before) == after - visited - {node};
  }

  lemma ScanNext(edges: seq<IndexedEdge>, i: nat, nodes: Nodes)
    requires i < |edges|
    ensures multiset(Scan(edges[..i + 1], nodes))
         == multiset(Scan(edges[..i], nodes)) + multiset(CauseOf(edges[i], nodes))
  {
    assert edges[..i + 1][..i] == edges[..i];
  }

  /** Visits what `node` reaches outside `visited` and scans each node once. The
      ghost `universe` bounds the recursion. */
  method DfsBackward(node: NodeId, out: OutIndex, nodes: Nodes,
                     visited: set<NodeId>, causes: seq<Cause>, ghost universe: set<NodeId>)
    returns (visited': set<NodeId>, causes': seq<Cause>)
    requires node in universe && nodes.Keys <= universe
    ensures node in visited' && Explored(out, nodes, node, visited, visited', {})
    ensures multiset(causes') == multiset(causes) + Sum(visited' - visited, Weight(out, nodes))
    decreases |universe - visited|, 0
  {
    visited', causes' := visited, causes;
    if node in visited {
      assert visited' - visited == {};
      return;
    }
    visited' := visited + {node};
    ReachesItself(out, nodes, node);

    var outEdges := OutOf(out, node);
    assert visited' - visited - {node} == {};
    ghost var scanned, below: multiset<Cause> := multiset{}, multiset{};
    for i := 0 to |outEdges|
      invariant node in visited' && Explored(out, nodes, node, visited, visited', {node})
      invariant Followed(outEdges, i, nodes, visited')
      invariant scanned == multiset(Scan(outEdges[..i], nodes))
      invariant below == Sum(visited' - visited - {node}, Weight(out, nodes))
      invariant multiset(causes') == multiset(causes) + (scanned + below)
    {
      ScanNext(outEdges, i, nodes);
      Smaller(universe, visited, visited', node);
      ghost var before := visited';
      ghost var here, there := multiset(CauseOf(outEdges[i], nodes)), multiset{};
      visited', causes', there := FollowEdge(node, outEdges[i], out, nodes, visited, visited', causes', universe);
      FollowedNext(outEdges, i, nodes, before, visited');
      Regroup(multiset(causes), scanned, below, here, there);
      scanned, below := scanned + here, below + there;
    }
    assert outEdges[..|outEdges|] == outEdges;
    NodeDone(out, nodes, node, visited, visited', below);
  }

  /** All out-edges of `node` have been followed. */
  lemma NodeDone(out: OutIndex, nodes: Nodes, node: NodeId,
                 visited: set<NodeId>, later: set<NodeId>, below: multiset<Cause>)
    requires node in later && node !in visited
    requires Explored(out, nodes, node, visited, later, {node})
    requires Followed(OutOf(out, node), |OutOf(out, node)|, nodes, later)
    requires below == Sum(later - visited - {node}, Weight(out, nodes))
    ensures Explored(out, nodes, node, visited, later, {})
    ensures multiset(Scan(OutOf(out, node), nodes)) + below == Sum(later - visited, Weight(out, nodes))
  {
    assert Expanded(out, nodes, later, node);
    SumInsert(later - visited - {node}, node, Weight(out, nodes));
    assert later - visited - {node} + {node} == later - visited;
  }

  /** The body of the loop over the out-edges of `node`. */
  method FollowEdge(node: NodeId, edge: IndexedEdge, out: OutIndex, nodes: Nodes, ghost visited: set<NodeId>,
                    before: set<NodeId>, causes: seq<Cause>, ghost universe: set<NodeId>)
    returns (after: set<NodeId>, causes': seq<Cause>, ghost below: multiset<Cause>)
    requires nodes.Keys <= universe && edge in OutOf(out, node) && node in before && node !in visited
    requires Explored(out, nodes, node, visited, before, {node})
    ensures before <= after && Explored(out, nodes, node, visited, after, {node})
    ensures edge.kind.BlockedBy? && edge.to in nodes ==> edge.to in after
    ensures Sum(after - visited - {node}, Weight(out, nodes))
         == Sum(before - visited - {node}, Weight(out, nodes)) + below
    ensures multiset(causes') == multiset(causes) + multiset(CauseOf(edge, nodes)) + below
    decreases |universe - before|, 1
  {
    after, causes', below := before, causes, multiset{};
    if edge.kind.BlockedBy? {
      if edge.to in nodes {
        if nodes[edge.to].kind.Error? {
          causes' := causes' + [ErrorCause(edge.to, ErrorType(nodes[edge.to]))];
        }
        after, causes' := DfsBackward(edge.to, out, nodes, before, causes', universe);
        ExploredThrough(out, nodes, node, edge.to, visited, before, after);
        SumThrough(node, visited, before, after, Weight(out, nodes));
        below := Sum(after - before, Weight(out, nodes));
      }
    } else if edge.kind.WaitsOn? {
      causes' := causes' + [WaitCause(edge.to)];
    }
  }

  lemma Smaller(universe: set<NodeId>, visited: set<NodeId>, later: set<NodeId>, node: NodeId)
    requires node in universe && node !in visited && visited + {node} <= later
    ensures |universe - later| < |universe - visited|
  {
    assert universe - later <= universe - visited - {node};
    SubsetSize(universe - later, universe - visited - {node});
  }

  /** The report is exactly, as a multiset, the sum over every node reachable from
      `root` along BlockedBy edges through present nodes of that node's error and
      wait targets: nothing missing, nothing invented, no node scanned twice. */
  method FindRootCause(root: NodeId, out: OutIndex, nodes: Nodes) returns (causes: seq<Cause>)
    ensures multiset(causes) == Sum(Reachable(out, nodes, root), Weight(out, nodes))
  {
    var visited;
    visited, causes := DfsBackward(root, out, nodes, {}, [], nodes.Keys + {root});
    forall x ensures x in visited <==> x in Reachable(out, nodes, root) {
      if x in visited {
        assert Reaches(out, nodes, root, x);
        ReachesStayInside(out, nodes, root, x);
      }
      if x in Reachable(out, nodes, root) {
        var p :| IsPath(out, nodes, p) && p[0] == root && p[|p| - 1] == x;
        ClosedContainsPath(out, nodes, visited, p);
      }
    }
    assert visited - {} == Reachable(out, nodes, root);
  }

  lemma ReachesStayInside(out: OutIndex, nodes: Nodes, root: NodeId, x: NodeId)
    requires Reaches(out, nodes, root, x)
    ensures x in nodes.Keys + {root}
  {
    var p :| IsPath(out, nodes, p) && p[0] == root && p[|p| - 1] == x;
    assert |p| > 1 ==> Blocks(out, nodes, p[|p| - 2], p[|p| - 1]);
  }
}
