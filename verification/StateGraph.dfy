/** The state graph as the hub holds it (core/src/graph.rs): one logical edge list
    kept in three forms, updated in place. Every method is proved against the
    value-level graph. */
module StateGraph {
  import opened Events
  import opened Graph
  import opened EdgeLists
  import opened RootCause
  import opened Seqs
  import opened SetSum
  import opened Signals

  // ---- the out-adjacency index ----

  function Indexed(e: Edge): IndexedEdge {
    IndexedEdge(e.kind, e.to)
  }

  /** The out-edges of a node, in edge order. */
  function Project(edges: seq<Edge>, src: NodeId): seq<IndexedEdge> {
    if edges == [] then []
    else
      var e := edges[|edges| - 1];
      Project(edges[..|edges| - 1], src) + (if e.from == src then [Indexed(e)] else [])
  }

  /** The index an edge list stands for: its projection on every source. */
  function IndexOf(edges: seq<Edge>): OutIndex {
    map src | src in (set e | e in edges :: e.from) :: Project(edges, src)
  }

  lemma {:induction false} NoEdgesFrom(edges: seq<Edge>, src: NodeId)
    requires forall e | e in edges :: e.from != src
    ensures Project(edges, src) == []
  {
    if edges != [] {
      NoEdgesFrom(edges[..|edges| - 1], src);
    }
  }

  lemma ProjectIsIndexed(edges: seq<Edge>, src: NodeId)
    ensures OutOf(IndexOf(edges), src) == Project(edges, src)
  {
    if src !in IndexOf(edges) {
      NoEdgesFrom(edges, src);
    }
  }

  /** Pushing an edge pushes one entry onto the list of its source. */
  lemma IndexPush(edges: seq<Edge>, e: Edge)
    ensures IndexOf(edges + [e]) == IndexOf(edges)[e.from := OutOf(IndexOf(edges), e.from) + [Indexed(e)]]
  {
    var more := edges + [e];
    assert more[..|edges|] == edges;
    ProjectIsIndexed(edges, e.from);
    assert e in more;
    assert forall x | x in more :: x in edges || x == e;
    assert forall x | x in edges :: x in more;
    forall src | src in IndexOf(edges) && src != e.from ensures IndexOf(more)[src] == IndexOf(edges)[src] {
      assert Project(more, src) == Project(edges, src) + [];
    }
    assert IndexOf(more).Keys == IndexOf(edges).Keys + {e.from};
  }

  /** A linear scan for the targets of one source and kind. */
  function Targets(edges: seq<Edge>, kind: EdgeKind, src: NodeId): seq<NodeId> {
    if edges == [] then []
    else
      var e := edges[|edges| - 1];
      Targets(edges[..|edges| - 1], kind, src) + (if e.kind == kind && e.from == src then [e.to] else [])
  }

  /** The scan finds exactly the targets of such edges, as often as there are edges. */
  lemma {:induction false} TargetsAre(edges: seq<Edge>, kind: EdgeKind, src: NodeId, id: NodeId)
    requires DistinctKeys(edges)
    ensures multiset(Targets(edges, kind, src))[id] == if EdgeKey(kind, src, id) in Keys(edges) then 1 else 0
  {
    if edges != [] {
      var front, e := edges[..|edges| - 1], edges[|edges| - 1];
      var before := Targets(front, kind, src);
      assert before + [] == before && multiset(before + [e.to]) == multiset(before) + multiset{e.to};
      LastKeyIsNew(edges);
      TargetsAre(front, kind, src, id);
    }
  }

  function Select(list: seq<IndexedEdge>, kind: EdgeKind): seq<NodeId> {
    if list == [] then []
    else
      var e := list[|list| - 1];
      Select(list[..|list| - 1], kind) + (if e.kind == kind then [e.to] else [])
  }

  lemma {:induction false} SelectProject(edges: seq<Edge>, kind: EdgeKind, src: NodeId)
    ensures Select(Project(edges, src), kind) == Targets(edges, kind, src)
  {
    if edges != [] {
      var front, e := edges[..|edges| - 1], edges[|edges| - 1];
      SelectProject(front, kind, src);
      var p := Project(front, src);
      if e.from == src {
        assert (p + [Indexed(e)])[..|p|] == p;
      } else {
        assert p + [] == p;
      }
    }
  }

  // ---- one event, sequentially ----

  datatype GraphState = GraphState(graph: Graph, engine: Engine, lastCleanup: nat)

  const NewGraph := GraphState(Empty, NoSignals, 0)

  /** Reading and printing of floating-point numbers. */
  datatype Floats = Floats(parse: string -> Option<real>, show: real -> string)

  function ToSignalNode(p: SignalPoint, show: real -> string): SignalNode {
    SignalNode(p.name, p.entity, p.ts,
               map["value" := show(p.value), "window_ms" := Decimal(p.windowMs), "unit" := p.unit])
  }

  function ToSignalNodes(points: seq<SignalPoint>, show: real -> string): seq<SignalNode> {
    seq(|points|, i requires 0 <= i < |points| => ToSignalNode(points[i], show))
  }

  predicate CleanupDue(lastCleanup: nat, now: nat) {
    lastCleanup == 0 || SatSub(now, lastCleanup) >= CLEANUP_INTERVAL_MS
  }

  /** A cleanup with nothing in between its two phases. */
  function Cleanup(g: Graph, now: nat): Graph {
    ApplyCleanup(g, TakeSnapshot(g.nodes, now))
  }

  /** The whole effect of one event: handler, then cleanup when due, then signals. */
  function FoldEvent(s: GraphState, e: Event, fl: Floats): GraphState {
    var g := Handle(s.graph, e, fl.parse);
    var due := CleanupDue(s.lastCleanup, e.ts);
    var g' := if due then Cleanup(g, e.ts) else g;
    var (engine, points) := EngineStep(s.engine, DefaultRegistry, e, Extractor(fl.parse));
    GraphState(g'.(nodes := Publish(g'.nodes, ToSignalNodes(points, fl.show))),
               engine,
               if due then e.ts else s.lastCleanup)
  }

  class StateGraph {
    const floats: Floats
    const signals: SignalEngine
    var nodes: Nodes
    var edges: seq<Edge>
    var edgeIndex: set<EdgeKey>
    var outIndex: OutIndex
    var lastCleanup: nat

    constructor (floats: Floats)
      ensures Valid() && fresh(signals) && View() == NewGraph && this.floats == floats
    {
      this.floats := floats;
      signals := new SignalEngine(DefaultRegistry, floats.parse);
      nodes, edges, edgeIndex, outIndex, lastCleanup := map[], [], {}, map[], 0;
    }

    /** The three forms agree: keys are distinct, the key set is that of the list
        and the adjacency index is its in-order projection. */
    ghost predicate Valid()
      reads this
    {
      && DistinctKeys(edges)
      && edgeIndex == Keys(edges)
      && outIndex == IndexOf(edges)
      && signals.registry == DefaultRegistry && signals.parse == floats.parse
    }

    function View(): GraphState
      reads this, signals
    {
      GraphState(Graph(nodes, edges), signals.View(), lastCleanup)
    }

    method UpsertEdge(edge: Edge) returns (inserted: bool)
      requires Valid()
      modifies this`edges, this`edgeIndex, this`outIndex
      ensures Valid() && edges == Upsert(old(edges), edge)
      ensures inserted <==> Key(edge) !in Keys(old(edges))
    {
      UpsertKeeps(edges, edge);
      inserted := Key(edge) !in edgeIndex;
      if inserted {
        IndexPush(edges, edge);
        edgeIndex := edgeIndex + {Key(edge)};
        outIndex := outIndex[edge.from := OutOf(outIndex, edge.from) + [Indexed(edge)]];
        edges := edges + [edge];
      }
    }

    method RebuildIndexes()
      modifies this`edgeIndex, this`outIndex
      ensures edgeIndex == Keys(edges) && outIndex == IndexOf(edges)
    {
      edgeIndex, outIndex := {}, map[];
      assert IndexOf(edges[..0]) == map[];
      for i := 0 to |edges|
        invariant edgeIndex == Keys(edges[..i]) && outIndex == IndexOf(edges[..i])
      {
        var edge := edges[i];
        assert edges[..i + 1] == edges[..i] + [edge];
        KeysAppend(edges[..i], edge);
        IndexPush(edges[..i], edge);
        edgeIndex := edgeIndex + {Key(edge)};
        outIndex := outIndex[edge.from := OutOf(outIndex, edge.from) + [Indexed(edge)]];
      }
      assert edges[..|edges|] == edges;
    }

    method HandleProcessState(event: Event)
      modifies this`nodes
      ensures nodes == HandleProcess(old(nodes), event)
    {
      if event.pid.None? {
        return;
      }
      var id := ProcessId(event.node, event.pid.value);
      if event.value == "start" {
        var metadata := map[];
        if event.job.Some? {
          metadata := metadata["job_id" := event.job.value];
        }
        metadata := metadata["state" := "running"];
        nodes := nodes[id := Node(Process, event.ts, metadata)];
      } else if event.value == "exit" || event.value == "zombie" {
        if id in nodes {
          var metadata := nodes[id].metadata["state" := event.value];
          nodes := nodes[id := nodes[id].(metadata := metadata, lastUpdate := event.ts)];
        }
      }
    }

    /** Ensures the resource node and records the event on it. */
    method Touch(id: NodeId, ts: nat, key: string, value: string)
      modifies this`nodes
      ensures nodes == Observe(old(nodes), id, ts, key, value)
    {
      if id !in nodes {
        nodes := nodes[id := Node(Resource, ts, map[])];
      }
      var metadata := nodes[id].metadata[key := value];
      nodes := nodes[id := nodes[id].(metadata := metadata, lastUpdate := ts)];
    }

    method HandleComputeEvent(event: Event)
      requires Valid()
      modifies this`nodes, this`edges, this`edgeIndex, this`outIndex
      ensures Valid() && Graph(nodes, edges) == HandleCompute(old(Graph(nodes, edges)), event)
    {
      var res := ResourceId(event.node, event.entity);
      Touch(res, event.ts, "util", event.value);
      if event.pid.Some? {
        var proc := ProcessId(event.node, event.pid.value);
        if proc !in nodes {
          nodes := nodes[proc := Node(Process, event.ts, map[])];
        }
        var _ := UpsertEdge(Edge(Consumes, proc, res, event.ts));
      }
    }

    method HandleTransportEvent(event: Event)
      requires Valid()
      modifies this`nodes, this`edges, this`edgeIndex, this`outIndex
      ensures Valid() && Graph(nodes, edges) == HandleTransport(old(Graph(nodes, edges)), event, floats.parse)
    {
      var res := ResourceId(event.node, TransportEntity(event.entity));
      Touch(res, event.ts, TransportKey(event.kind), event.value);
      if event.kind == TransportDrop {
        var pid := DropPid(event);
        if pid > 0 {
          var proc := ProcessId(event.node, pid);
          if proc !in nodes {
            nodes := nodes[proc := Node(Process, event.ts, map["state" := "running"])];
          }
          var _ := UpsertEdge(Edge(WaitsOn, proc, res, event.ts));
        }
      }
      if event.kind == TransportBw && event.pid.Some? {
        if Stalled(event.value, floats.parse) {
          var proc := ProcessId(event.node, event.pid.value);
          if proc !in nodes {
            nodes := nodes[proc := Node(Process, event.ts, map[])];
          }
          var _ := UpsertEdge(Edge(WaitsOn, proc, res, event.ts));
        }
      }
    }

    method HandleErrorEvent(event: Event)
      requires Valid()
      modifies this`nodes, this`edges, this`edgeIndex, this`outIndex
      ensures Valid() && Graph(nodes, edges) == HandleError(old(Graph(nodes, edges)), event)
    {
      var error := ErrorOf(event);
      if error !in nodes {
        nodes := nodes[error := Node(Error, event.ts, map["error_type" := event.value])];
      }
      var affected := Consumers(edges, ResourceId(event.node, event.entity));
      BlockProcesses(affected, error, event.ts);
    }

    /** The loop over the affected processes. */
    method BlockProcesses(affected: seq<NodeId>, error: NodeId, ts: nat)
      requires Valid()
      modifies this`edges, this`edgeIndex, this`outIndex
      ensures Valid() && edges == BlockAll(old(edges), affected, error, ts)
    {
      assert affected[0..] == affected;
      for i := 0 to |affected|
        invariant Valid()
        invariant BlockAll(edges, affected[i..], error, ts) == BlockAll(old(edges), affected, error, ts)
      {
        assert affected[i..][1..] == affected[i + 1..];
        var _ := UpsertEdge(Edge(BlockedBy, affected[i], error, ts));
      }
    }

    method HandleEvent(event: Event)
      requires Valid()
      modifies this`nodes, this`edges, this`edgeIndex, this`outIndex
      ensures Valid() && Graph(nodes, edges) == Handle(old(Graph(nodes, edges)), event, floats.parse)
    {
      match event.kind {
        case ProcessState => HandleProcessState(event);
        case ComputeUtil | ComputeMem => HandleComputeEvent(event);
        case TransportBw | TransportDrop | StorageIops | StorageQDepth => HandleTransportEvent(event);
        case ErrorHw | ErrorNet | TopoLinkDown => HandleErrorEvent(event);
        case IntentRun | ActionExec =>
      }
    }

    /** The read phase of a cleanup: collects the stale errors and the dead processes. */
    method BeginCleanup(now: nat) returns (snapshot: Snapshot)
      ensures snapshot == TakeSnapshot(nodes, now)
    {
      var errors, dead := {}, {};
      var left := nodes.Keys;
      while left != {}
        invariant left <= nodes.Keys
        invariant errors == set id | id in nodes && id !in left && IsStaleError(nodes[id], now)
        invariant dead == set id | id in nodes && id !in left && IsDeadProcess(nodes[id], now)
        decreases |left|
      {
        var id :| id in left;
        if IsStaleError(nodes[id], now) {
          errors := errors + {id};
        }
        if IsDeadProcess(nodes[id], now) {
          dead := dead + {id};
        }
        left := left - {id};
      }
      return Snapshot(errors, dead, now);
    }

    /** Removes the nodes of a snapshot and the edges it condemns. */
    method Prune(snapshot: Snapshot)
      modifies this`nodes, this`edges
      ensures Graph(nodes, edges) == ApplyCleanup(old(Graph(nodes, edges)), snapshot)
    {
      nodes := nodes - snapshot.errors;
      edges := Retain(edges, OffErrors(snapshot.errors));
      nodes := nodes - snapshot.dead;
      edges := Retain(edges, OffDead(snapshot.dead));
      edges := Retain(edges, Since(SatSub(snapshot.now, EDGE_TTL_MS)));
      if |edges| > MAX_EDGES {
        edges := NewestFirst(edges);
        edges := edges[..MAX_EDGES];
      }
    }

    /** The write phase of a cleanup, whatever has run since its snapshot was taken. */
    method FinishCleanup(snapshot: Snapshot)
      requires Valid()
      modifies this`nodes, this`edges, this`edgeIndex, this`outIndex
      ensures Valid() && Graph(nodes, edges) == ApplyCleanup(old(Graph(nodes, edges)), snapshot)
    {
      CleanupBounds(Graph(nodes, edges), snapshot);
      Prune(snapshot);
      RebuildIndexes();
    }

    method CleanupOldErrors(now: nat)
      requires Valid()
      modifies this`nodes, this`edges, this`edgeIndex, this`outIndex
      ensures Valid() && Graph(nodes, edges) == Cleanup(old(Graph(nodes, edges)), now)
    {
      var snapshot := BeginCleanup(now);
      FinishCleanup(snapshot);
    }

    method UpdateSignals(event: Event)
      requires Valid()
      modifies this`nodes, signals
      ensures Valid()
      ensures var (engine, points) := EngineStep(old(signals.View()), DefaultRegistry, event, Extractor(floats.parse));
              signals.View() == engine && nodes == Publish(old(nodes), ToSignalNodes(points, floats.show))
    {
      var points := signals.OnEvent(event);
      ghost var list := ToSignalNodes(points, floats.show);
      for i := 0 to |points|
        invariant nodes == Publish(old(nodes), list[..i])
        invariant (signals.View(), points)
               == EngineStep(old(signals.View()), DefaultRegistry, event, Extractor(floats.parse))
      {
        assert list[..i + 1][..i] == list[..i];
        var p := ToSignalNode(points[i], floats.show);
        nodes := nodes[SignalId(p.name, p.owner) := Node(Resource, p.ts, p.metadata)];
      }
      assert list[..|points|] == list;
    }

    method ProcessEvent(event: Event)
      requires Valid()
      modifies this, signals
      ensures Valid() && View() == FoldEvent(old(View()), event, floats)
    {
      HandleEvent(event);
      if lastCleanup == 0 || SatSub(event.ts, lastCleanup) >= CLEANUP_INTERVAL_MS {
        CleanupOldErrors(event.ts);
        lastCleanup := event.ts;
      }
      UpdateSignals(event);
    }

    /** Reads the index only, yet returns what a scan of all edges would. */
    method GetProcessResources(pid: nat) returns (resources: seq<NodeId>)
      requires Valid()
      ensures resources == Targets(edges, Consumes, ProcessId(None, pid))
    {
      var id := ProcessId(None, pid);
      var list := OutOf(outIndex, id);
      resources := [];
      for i := 0 to |list|
        invariant resources == Select(list[..i], Consumes)
      {
        assert list[..i + 1][..i] == list[..i];
        if list[i].kind == Consumes {
          resources := resources + [list[i].to];
        }
      }
      assert list[..|list|] == list;
      ProjectIsIndexed(edges, id);
      SelectProject(edges, Consumes, id);
    }

    method FindRootCauseById(id: NodeId) returns (causes: seq<Cause>)
      requires Valid()
      ensures multiset(causes) == Sum(Reachable(IndexOf(edges), nodes, id), Weight(IndexOf(edges), nodes))
    {
      causes := FindRootCause(id, outIndex, nodes);
    }
  }
}
