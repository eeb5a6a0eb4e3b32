/** The graph over ids as text, as the code keeps it (core/src/graph.rs), and when it is
    the graph over typed ids: in all interleavings exactly when no two ids they use are
    the same text. */
module TextGraph {
  import opened Events
  import opened Seqs
  import opened Graph
  import opened Interleaving
  import opened Naming

  type TextNodes = map<string, Node>

  datatype TextEdge = TextEdge(kind: EdgeKind, from: string, to: string, ts: nat)

  datatype TextGraph = TextGraph(nodes: TextNodes, edges: seq<TextEdge>)

  // ---- handlers ----

  function Namespaced(e: Event, name: string): string {
    if e.node.Some? then e.node.value + "::" + name else name
  }

  function EnsureText(nodes: TextNodes, id: string, kind: NodeKind, ts: nat, metadata: map<string, string>): TextNodes {
    if id in nodes then nodes else nodes[id := Node(kind, ts, metadata)]
  }

  function ObserveText(nodes: TextNodes, id: string, ts: nat, key: string, value: string): TextNodes {
    var nodes := EnsureText(nodes, id, Resource, ts, map[]);
    nodes[id := nodes[id].(metadata := nodes[id].metadata[key := value], lastUpdate := ts)]
  }

  predicate SameLink(a: TextEdge, b: TextEdge) {
    a.kind == b.kind && a.from == b.from && a.to == b.to
  }

  function UpsertText(edges: seq<TextEdge>, e: TextEdge): seq<TextEdge> {
    if exists i | 0 <= i < |edges| :: SameLink(edges[i], e) then edges else edges + [e]
  }

  function ProcessText(nodes: TextNodes, e: Event): TextNodes {
    if e.pid.None? then nodes
    else
      var id := Namespaced(e, "pid-" + Decimal(e.pid.value));
      if e.value == "start" then
        var job := if e.job.Some? then map["job_id" := e.job.value] else map[];
        nodes[id := Node(Process, e.ts, job["state" := "running"])]
      else if (e.value == "exit" || e.value == "zombie") && id in nodes then
        nodes[id := nodes[id].(metadata := nodes[id].metadata["state" := e.value], lastUpdate := e.ts)]
      else
        nodes
  }

  function ComputeText(g: TextGraph, e: Event): TextGraph {
    var res := Namespaced(e, e.entity);
    var nodes := ObserveText(g.nodes, res, e.ts, "util", e.value);
    if e.pid.None? then TextGraph(nodes, g.edges)
    else
      var proc := Namespaced(e, "pid-" + Decimal(e.pid.value));
      TextGraph(EnsureText(nodes, proc, Process, e.ts, map[]),
                UpsertText(g.edges, TextEdge(Consumes, proc, res, e.ts)))
  }

  function TransportText(g: TextGraph, e: Event, parse: string -> Option<real>): TextGraph {
    var res := Namespaced(e, TransportEntity(e.entity));
    var nodes := ObserveText(g.nodes, res, e.ts, TransportKey(e.kind), e.value);
    match Waiter(e, parse)
    case None => TextGraph(nodes, g.edges)
    case Some(pid) =>
      var proc := Namespaced(e, "pid-" + Decimal(pid));
      var metadata := if e.kind.TransportDrop? then map["state" := "running"] else map[];
      TextGraph(EnsureText(nodes, proc, Process, e.ts, metadata),
                UpsertText(g.edges, TextEdge(WaitsOn, proc, res, e.ts)))
  }

  function ConsumersText(edges: seq<TextEdge>, res: string): seq<string> {
    if edges == [] then []
    else
      var e := edges[|edges| - 1];
      ConsumersText(edges[..|edges| - 1], res) + (if e.kind.Consumes? && e.to == res then [e.from] else [])
  }

  function BlockAllText(edges: seq<TextEdge>, procs: seq<string>, error: string, ts: nat): seq<TextEdge>
    decreases |procs|
  {
    if procs == [] then edges
    else BlockAllText(UpsertText(edges, TextEdge(BlockedBy, procs[0], error, ts)), procs[1..], error, ts)
  }

  function ErrorText(g: TextGraph, e: Event): TextGraph {
    var error := Namespaced(e, "error-" + e.entity);
    TextGraph(EnsureText(g.nodes, error, Error, e.ts, map["error_type" := e.value]),
              BlockAllText(g.edges, ConsumersText(g.edges, Namespaced(e, e.entity)), error, e.ts))
  }

  function HandleText(g: TextGraph, e: Event, parse: string -> Option<real>): TextGraph {
    match e.kind
    case ProcessState => TextGraph(ProcessText(g.nodes, e), g.edges)
    case ComputeUtil | ComputeMem => ComputeText(g, e)
    case TransportBw | TransportDrop | StorageIops | StorageQDepth => TransportText(g, e, parse)
    case ErrorHw | ErrorNet | TopoLinkDown => ErrorText(g, e)
    case IntentRun | ActionExec => g
  }

  function SignalText(p: SignalNode): string {
    "signal::" + p.name + "::" + p.owner
  }

  function PublishText(nodes: TextNodes, points: seq<SignalNode>): TextNodes {
    if points == [] then nodes
    else
      var p := points[|points| - 1];
      PublishText(nodes, points[..|points| - 1])[SignalText(p) := Node(Resource, p.ts, p.metadata)]
  }

  // ---- cleanup ----

  datatype TextSnapshot = TextSnapshot(errors: set<string>, dead: set<string>, now: nat)

  function SnapshotText(nodes: TextNodes, now: nat): TextSnapshot {
    TextSnapshot((set id | id in nodes && IsStaleError(nodes[id], now)),
                 (set id | id in nodes && IsDeadProcess(nodes[id], now)),
                 now)
  }

  function OffErrorsText(errors: set<string>): TextEdge -> bool {
    (e: TextEdge) => !(e.kind.BlockedBy? && e.to in errors)
  }

  function OffDeadText(dead: set<string>): TextEdge -> bool {
    (e: TextEdge) => e.from !in dead && e.to !in dead
  }

  function SinceText(cutoff: nat): TextEdge -> bool {
    (e: TextEdge) => e.ts >= cutoff
  }

  function SweptText(edges: seq<TextEdge>, s: TextSnapshot): seq<TextEdge> {
    Retain(Retain(Retain(edges, OffErrorsText(s.errors)), OffDeadText(s.dead)),
           SinceText(SatSub(s.now, EDGE_TTL_MS)))
  }

  function TextTs(e: TextEdge): nat {
    e.ts
  }

  function CappedText(edges: seq<TextEdge>): seq<TextEdge> {
    if |edges| > MAX_EDGES then SortDesc(edges, TextTs)[..MAX_EDGES] else edges
  }

  function CleanupText(g: TextGraph, s: TextSnapshot): TextGraph {
    TextGraph(g.nodes - s.errors - s.dead, CappedText(SweptText(g.edges, s)))
  }

  // ---- interleavings ----

  datatype TextSystem = TextSystem(graph: TextGraph, inFlight: seq<TextSnapshot>)

  const TextStart := TextSystem(TextGraph(map[], []), [])

  function NextText(s: TextSystem, a: Action, parse: string -> Option<real>): TextSystem {
    match a
    case HandleEvent(e) => s.(graph := HandleText(s.graph, e, parse))
    case PublishSignals(points) => s.(graph := s.graph.(nodes := PublishText(s.graph.nodes, points)))
    case BeginCleanup(now) => s.(inFlight := s.inFlight + [SnapshotText(s.graph.nodes, now)])
    case FinishCleanup(i) =>
      if i < |s.inFlight| then
        TextSystem(CleanupText(s.graph, s.inFlight[i]), s.inFlight[..i] + s.inFlight[i + 1..])
      else s
  }

  function ExecText(s: TextSystem, actions: seq<Action>, parse: string -> Option<real>): TextSystem {
    if actions == [] then s
    else NextText(ExecText(s, actions[..|actions| - 1], parse), actions[|actions| - 1], parse)
  }

  // ---- nodes over text and nodes over typed ids ----

  /** Every typed node is one of `ids` and is there under its name, and every name is that
      of a typed node. */
  ghost predicate NodesAgree(t: TextNodes, nodes: Nodes, ids: set<NodeId>) {
    && (forall id | id in nodes :: id in ids && Render(id) in t && t[Render(id)] == nodes[id])
    && (forall k | k in t :: exists id :: id in nodes && Render(id) == k)
  }

  lemma InAgrees(t: TextNodes, nodes: Nodes, id: NodeId, ids: set<NodeId>)
    requires Apart(ids) && NodesAgree(t, nodes, ids) && id in ids
    ensures Render(id) in t <==> id in nodes
  {
    if Render(id) in t {
      var id' :| id' in nodes && Render(id') == Render(id);
    }
  }

  lemma PutAgrees(t: TextNodes, nodes: Nodes, id: NodeId, n: Node, ids: set<NodeId>)
    requires Apart(ids) && NodesAgree(t, nodes, ids) && id in ids
    ensures NodesAgree(t[Render(id) := n], nodes[id := n], ids)
  {
    var t', nodes' := t[Render(id) := n], nodes[id := n];
    forall k | k in t' ensures exists x :: x in nodes' && Render(x) == k {
      if k == Render(id) {
        assert id in nodes';
      } else {
        var x :| x in nodes && Render(x) == k;
        assert x in nodes';
      }
    }
  }

  lemma EnsureAgrees(t: TextNodes, nodes: Nodes, id: NodeId, kind: NodeKind, ts: nat, metadata: map<string, string>,
                     ids: set<NodeId>)
    requires Apart(ids) && NodesAgree(t, nodes, ids) && id in ids
    ensures NodesAgree(EnsureText(t, Render(id), kind, ts, metadata), EnsureNode(nodes, id, kind, ts, metadata), ids)
  {
    InAgrees(t, nodes, id, ids);
    PutAgrees(t, nodes, id, Node(kind, ts, metadata), ids);
  }

  lemma ObserveAgrees(t: TextNodes, nodes: Nodes, id: NodeId, ts: nat, key: string, value: string, ids: set<NodeId>)
    requires Apart(ids) && NodesAgree(t, nodes, ids) && id in ids
    ensures NodesAgree(ObserveText(t, Render(id), ts, key, value), Observe(nodes, id, ts, key, value), ids)
  {
    EnsureAgrees(t, nodes, id, Resource, ts, map[], ids);
    var nodes1 := EnsureNode(nodes, id, Resource, ts, map[]);
    PutAgrees(EnsureText(t, Render(id), Resource, ts, map[]), nodes1, id,
              nodes1[id].(metadata := nodes1[id].metadata[key := value], lastUpdate := ts), ids);
  }

  // ---- edges ----

  function EdgeText(e: Edge): TextEdge {
    TextEdge(e.kind, Render(e.from), Render(e.to), e.ts)
  }

  predicate EdgesIn(edges: seq<Edge>, ids: set<NodeId>) {
    forall e | e in edges :: e.from in ids && e.to in ids
  }

  /** Two edges have the same link as text exactly when they have the same key. */
  lemma LinkIsKey(a: Edge, b: Edge, ids: set<NodeId>)
    requires Apart(ids) && a.from in ids && a.to in ids && b.from in ids && b.to in ids
    ensures SameLink(EdgeText(a), EdgeText(b)) <==> Key(a) == Key(b)
  {}

  lemma UpsertAgrees(edges: seq<Edge>, e: Edge, ids: set<NodeId>)
    requires Apart(ids) && EdgesIn(edges, ids) && e.from in ids && e.to in ids
    ensures UpsertText(Map(edges, EdgeText), EdgeText(e)) == Map(Upsert(edges, e), EdgeText)
    ensures EdgesIn(Upsert(edges, e), ids)
  {
    var texts := Map(edges, EdgeText);
    forall i | 0 <= i < |edges| ensures SameLink(texts[i], EdgeText(e)) <==> Key(edges[i]) == Key(e) {
      assert edges[i] in edges;
      LinkIsKey(edges[i], e, ids);
    }
    MapAppend(edges, e, EdgeText);
    if Key(e) in Keys(edges) {
      var x :| x in edges && Key(x) == Key(e);
      var i :| 0 <= i < |edges| && edges[i] == x;
      assert SameLink(texts[i], EdgeText(e));
    }
  }

  lemma {:induction false} ConsumersIn(edges: seq<Edge>, res: NodeId, ids: set<NodeId>)
    requires EdgesIn(edges, ids)
    ensures forall p | p in Consumers(edges, res) :: p in ids
  {
    if edges != [] {
      assert edges[|edges| - 1] in edges;
      ConsumersIn(edges[..|edges| - 1], res, ids);
    }
  }

  lemma {:induction false} ConsumersAgree(edges: seq<Edge>, res: NodeId, ids: set<NodeId>)
    requires Apart(ids) && EdgesIn(edges, ids) && res in ids
    ensures ConsumersText(Map(edges, EdgeText), Render(res)) == Map(Consumers(edges, res), Render)
  {
    if edges != [] {
      var front, e := edges[..|edges| - 1], edges[|edges| - 1];
      var procs := Consumers(front, res);
      assert e in edges && procs + [] == procs;
      MapTake(edges, |front|, EdgeText);
      MapAppend(procs, e.from, Render);
      ConsumersAgree(front, res, ids);
    }
  }

  lemma {:induction false} BlockAllAgrees(edges: seq<Edge>, procs: seq<NodeId>, error: NodeId, ts: nat,
                                          ids: set<NodeId>)
    requires Apart(ids) && EdgesIn(edges, ids) && error in ids && forall p | p in procs :: p in ids
    ensures BlockAllText(Map(edges, EdgeText), Map(procs, Render), Render(error), ts)
         == Map(BlockAll(edges, procs, error, ts), EdgeText)
    ensures EdgesIn(BlockAll(edges, procs, error, ts), ids)
    decreases |procs|
  {
    if procs != [] {
      var e := Edge(BlockedBy, procs[0], error, ts);
      assert Map(procs, Render)[1..] == Map(procs[1..], Render);
      UpsertAgrees(edges, e, ids);
      BlockAllAgrees(Upsert(edges, e), procs[1..], error, ts, ids);
    }
  }

  // ---- handlers agree ----

  ghost predicate GraphsAgree(t: TextGraph, g: Graph, ids: set<NodeId>) {
    NodesAgree(t.nodes, g.nodes, ids) && t.edges == Map(g.edges, EdgeText) && EdgesIn(g.edges, ids)
  }

  function ProcessIn(node: Option<string>, pid: Option<nat>): set<NodeId> {
    if pid.Some? then {ProcessId(node, pid.value)} else {}
  }

  /** The ids the handler of an event makes or looks up. */
  function EventUses(e: Event, parse: string -> Option<real>): set<NodeId> {
    match e.kind
    case ProcessState => ProcessIn(e.node, e.pid)
    case ComputeUtil | ComputeMem => {ResourceId(e.node, e.entity)} + ProcessIn(e.node, e.pid)
    case TransportBw | TransportDrop | StorageIops | StorageQDepth =>
      {ResourceId(e.node, TransportEntity(e.entity))} + ProcessIn(e.node, Waiter(e, parse))
    case ErrorHw | ErrorNet | TopoLinkDown => {ErrorId(e.node, e.entity), ResourceId(e.node, e.entity)}
    case IntentRun | ActionExec => {}
  }

  /** The texts the handlers make are those of the ids. */
  lemma Spelled(e: Event, entity: string, pid: nat)
    ensures Namespaced(e, entity) == Render(ResourceId(e.node, entity))
    ensures Namespaced(e, "error-" + entity) == Render(ErrorId(e.node, entity))
    ensures Namespaced(e, "pid-" + Decimal(pid)) == Render(ProcessId(e.node, pid))
  {}

  lemma ProcessAgrees(t: TextNodes, nodes: Nodes, e: Event, ids: set<NodeId>)
    requires Apart(ids) && NodesAgree(t, nodes, ids) && ProcessIn(e.node, e.pid) <= ids
    ensures NodesAgree(ProcessText(t, e), HandleProcess(nodes, e), ids)
  {
    if e.pid.Some? {
      var id, nodes' := ProcessId(e.node, e.pid.value), HandleProcess(nodes, e);
      assert id in ids && Render(id) == Namespaced(e, "pid-" + Decimal(e.pid.value));
      InAgrees(t, nodes, id, ids);
      if e.value == "start" || ((e.value == "exit" || e.value == "zombie") && id in nodes) {
        PutAgrees(t, nodes, id, nodes'[id], ids);
      }
    }
  }

  /** An observation and, if a process is given, its link to the resource. */
  lemma LinkAgrees(t: TextGraph, g: Graph, nodes: Nodes, tnodes: TextNodes, kind: EdgeKind, proc: NodeId, res: NodeId,
                   ts: nat, metadata: map<string, string>, ids: set<NodeId>)
    requires Apart(ids) && GraphsAgree(t, g, ids) && NodesAgree(tnodes, nodes, ids) && proc in ids && res in ids
    ensures GraphsAgree(TextGraph(EnsureText(tnodes, Render(proc), Process, ts, metadata),
                                  UpsertText(t.edges, TextEdge(kind, Render(proc), Render(res), ts))),
                        Graph(EnsureNode(nodes, proc, Process, ts, metadata),
                              Upsert(g.edges, Edge(kind, proc, res, ts))), ids)
  {
    EnsureAgrees(tnodes, nodes, proc, Process, ts, metadata, ids);
    UpsertAgrees(g.edges, Edge(kind, proc, res, ts), ids);
  }

  lemma ComputeAgrees(t: TextGraph, g: Graph, e: Event, ids: set<NodeId>)
    requires Apart(ids) && GraphsAgree(t, g, ids)
    requires {ResourceId(e.node, e.entity)} + ProcessIn(e.node, e.pid) <= ids
    ensures GraphsAgree(ComputeText(t, e), HandleCompute(g, e), ids)
  {
    var res := ResourceId(e.node, e.entity);
    assert res in ids;
    ObserveAgrees(t.nodes, g.nodes, res, e.ts, "util", e.value, ids);
    if e.pid.Some? {
      LinkAgrees(t, g, Observe(g.nodes, res, e.ts, "util", e.value),
                 ObserveText(t.nodes, Render(res), e.ts, "util", e.value), Consumes,
                 ProcessId(e.node, e.pid.value), res, e.ts, map[], ids);
    }
  }

  lemma TransportAgrees(t: TextGraph, g: Graph, e: Event, parse: string -> Option<real>, ids: set<NodeId>)
    requires Apart(ids) && GraphsAgree(t, g, ids)
    requires {ResourceId(e.node, TransportEntity(e.entity))} + ProcessIn(e.node, Waiter(e, parse)) <= ids
    ensures GraphsAgree(TransportText(t, e, parse), HandleTransport(g, e, parse), ids)
  {
    var res, key, w := ResourceId(e.node, TransportEntity(e.entity)), TransportKey(e.kind), Waiter(e, parse);
    assert res in ids;
    Spelled(e, TransportEntity(e.entity), if w.Some? then w.value else 0);
    ObserveAgrees(t.nodes, g.nodes, res, e.ts, key, e.value, ids);
    if w.Some? {
      var proc := ProcessId(e.node, w.value);
      assert proc in ids;
      LinkAgrees(t, g, Observe(g.nodes, res, e.ts, key, e.value), ObserveText(t.nodes, Render(res), e.ts, key, e.value),
                 WaitsOn, proc, res, e.ts, if e.kind.TransportDrop? then map["state" := "running"] else map[], ids);
    }
  }

  lemma ErrorAgrees(t: TextGraph, g: Graph, e: Event, ids: set<NodeId>)
    requires Apart(ids) && GraphsAgree(t, g, ids) && {ErrorId(e.node, e.entity), ResourceId(e.node, e.entity)} <= ids
    ensures GraphsAgree(ErrorText(t, e), HandleError(g, e), ids)
  {
    var res, error := ResourceId(e.node, e.entity), Render(ErrorOf(e));
    assert res in ids && ErrorOf(e) in ids;
    Spelled(e, e.entity, 0);
    assert ErrorText(t, e) ==
           TextGraph(EnsureText(t.nodes, error, Error, e.ts, map["error_type" := e.value]),
                     BlockAllText(t.edges, ConsumersText(t.edges, Render(res)), error, e.ts));
    EnsureAgrees(t.nodes, g.nodes, ErrorOf(e), Error, e.ts, map["error_type" := e.value], ids);
    BlockingAgrees(g.edges, res, ErrorOf(e), e.ts, ids);
  }

  lemma BlockingAgrees(edges: seq<Edge>, res: NodeId, error: NodeId, ts: nat, ids: set<NodeId>)
    requires Apart(ids) && EdgesIn(edges, ids) && res in ids && error in ids
    ensures var texts, blocked := Map(edges, EdgeText), BlockAll(edges, Consumers(edges, res), error, ts);
            && BlockAllText(texts, ConsumersText(texts, Render(res)), Render(error), ts) == Map(blocked, EdgeText)
            && EdgesIn(blocked, ids)
  {
    ConsumersAgree(edges, res, ids);
    ConsumersIn(edges, res, ids);
    BlockAllAgrees(edges, Consumers(edges, res), error, ts, ids);
  }

  lemma HandleAgrees(t: TextGraph, g: Graph, e: Event, parse: string -> Option<real>, ids: set<NodeId>)
    requires Apart(ids) && GraphsAgree(t, g, ids) && EventUses(e, parse) <= ids
    ensures GraphsAgree(HandleText(t, e, parse), Handle(g, e, parse), ids)
  {
    match e.kind
    case ProcessState => ProcessAgrees(t.nodes, g.nodes, e, ids);
    case ComputeUtil | ComputeMem => ComputeAgrees(t, g, e, ids);
    case TransportBw | TransportDrop | StorageIops | StorageQDepth => TransportAgrees(t, g, e, parse, ids);
    case ErrorHw | ErrorNet | TopoLinkDown => ErrorAgrees(t, g, e, ids);
    case _ =>
  }

  function PointUses(points: seq<SignalNode>): set<NodeId> {
    set p | p in points :: SignalId(p.name, p.owner)
  }

  lemma SignalIsRendered(p: SignalNode)
    ensures SignalText(p) == Render(SignalId(p.name, p.owner))
  {
    assert "signal" + "::" + (p.name + "::" + p.owner) == "signal::" + p.name + "::" + p.owner;
  }

  lemma {:induction false} PublishAgrees(t: TextNodes, nodes: Nodes, points: seq<SignalNode>, ids: set<NodeId>)
    requires Apart(ids) && NodesAgree(t, nodes, ids) && PointUses(points) <= ids
    ensures NodesAgree(PublishText(t, points), Publish(nodes, points), ids)
  {
    if points != [] {
      var p, front := points[|points| - 1], points[..|points| - 1];
      assert p in points && SignalId(p.name, p.owner) in ids;
      assert PointUses(front) <= PointUses(points);
      SignalIsRendered(p);
      PublishAgrees(t, nodes, front, ids);
      PutAgrees(PublishText(t, front), Publish(nodes, front), SignalId(p.name, p.owner),
                Node(Resource, p.ts, p.metadata), ids);
    }
  }

  // ---- cleanups agree ----

  /** The names of the ids in a set. */
  ghost predicate SetsAgree(t: set<string>, some: set<NodeId>, ids: set<NodeId>) {
    && (forall id | id in some :: id in ids && Render(id) in t)
    && (forall k | k in t :: exists id :: id in some && Render(id) == k)
  }

  ghost predicate SnapshotsAgree(t: TextSnapshot, s: Snapshot, ids: set<NodeId>) {
    SetsAgree(t.errors, s.errors, ids) && SetsAgree(t.dead, s.dead, ids) && t.now == s.now
  }

  lemma InSetAgrees(t: set<string>, some: set<NodeId>, id: NodeId, ids: set<NodeId>)
    requires Apart(ids) && SetsAgree(t, some, ids) && id in ids
    ensures Render(id) in t <==> id in some
  {
    if Render(id) in t {
      var id' :| id' in some && Render(id') == Render(id);
    }
  }

  lemma SnapshotAgrees(t: TextNodes, nodes: Nodes, now: nat, ids: set<NodeId>)
    requires NodesAgree(t, nodes, ids)
    ensures SnapshotsAgree(SnapshotText(t, now), TakeSnapshot(nodes, now), ids)
  {
    var ts, s := SnapshotText(t, now), TakeSnapshot(nodes, now);
    forall k | k in ts.errors ensures exists id :: id in s.errors && Render(id) == k {
      var id :| id in nodes && Render(id) == k;
      assert id in s.errors;
    }
    forall k | k in ts.dead ensures exists id :: id in s.dead && Render(id) == k {
      var id :| id in nodes && Render(id) == k;
      assert id in s.dead;
    }
  }

  lemma MinusAgrees(t: TextNodes, nodes: Nodes, ts: set<string>, some: set<NodeId>, ids: set<NodeId>)
    requires Apart(ids) && NodesAgree(t, nodes, ids) && SetsAgree(ts, some, ids)
    ensures NodesAgree(t - ts, nodes - some, ids)
  {
    forall id | id in nodes - some ensures Render(id) in t - ts {
      InSetAgrees(ts, some, id, ids);
    }
    forall k | k in t - ts ensures exists id :: id in nodes - some && Render(id) == k {
      var id :| id in nodes && Render(id) == k;
      InSetAgrees(ts, some, id, ids);
      assert id in nodes - some;
    }
  }

  lemma RetainIn(edges: seq<Edge>, keep: Edge -> bool, ids: set<NodeId>)
    requires EdgesIn(edges, ids)
    ensures EdgesIn(Retain(edges, keep), ids)
  {
    forall e | e in Retain(edges, keep) ensures e.from in ids && e.to in ids {
      RetainHas(edges, keep, e);
    }
  }

  lemma SweptAgrees(edges: seq<Edge>, t: TextSnapshot, s: Snapshot, ids: set<NodeId>)
    requires Apart(ids) && EdgesIn(edges, ids) && SnapshotsAgree(t, s, ids)
    ensures SweptText(Map(edges, EdgeText), t) == Map(Swept(edges, s), EdgeText)
    ensures EdgesIn(Swept(edges, s), ids)
  {
    var a := Retain(edges, OffErrors(s.errors));
    var b := Retain(a, OffDead(s.dead));
    var cutoff := SatSub(s.now, EDGE_TTL_MS);
    RetainIn(edges, OffErrors(s.errors), ids);
    RetainIn(a, OffDead(s.dead), ids);
    RetainIn(b, Since(cutoff), ids);
    forall e | e in edges ensures OffErrorsText(t.errors)(EdgeText(e)) == OffErrors(s.errors)(e) {
      InSetAgrees(t.errors, s.errors, e.to, ids);
    }
    MapRetain(edges, EdgeText, OffErrors(s.errors), OffErrorsText(t.errors));
    forall e | e in a ensures OffDeadText(t.dead)(EdgeText(e)) == OffDead(s.dead)(e) {
      InSetAgrees(t.dead, s.dead, e.from, ids);
      InSetAgrees(t.dead, s.dead, e.to, ids);
    }
    MapRetain(a, EdgeText, OffDead(s.dead), OffDeadText(t.dead));
    MapRetain(b, EdgeText, Since(cutoff), SinceText(cutoff));
  }

  lemma SortedIn(edges: seq<Edge>, ids: set<NodeId>)
    requires EdgesIn(edges, ids)
    ensures EdgesIn(NewestFirst(edges), ids)
  {
    SortDescIs(edges, EdgeTs, 0);
    SameElements(edges, NewestFirst(edges));
  }

  lemma CappedAgrees(edges: seq<Edge>, ids: set<NodeId>)
    requires EdgesIn(edges, ids)
    ensures CappedText(Map(edges, EdgeText)) == Map(Capped(edges), EdgeText)
    ensures EdgesIn(Capped(edges), ids)
  {
    if |edges| > MAX_EDGES {
      SortedIn(edges, ids);
      MapSort(edges, EdgeText, EdgeTs, TextTs);
      MapTake(NewestFirst(edges), MAX_EDGES, EdgeText);
    }
  }

  lemma CleanupAgrees(t: TextGraph, g: Graph, ts: TextSnapshot, s: Snapshot, ids: set<NodeId>)
    requires Apart(ids) && GraphsAgree(t, g, ids) && SnapshotsAgree(ts, s, ids)
    ensures GraphsAgree(CleanupText(t, ts), ApplyCleanup(g, s), ids)
  {
    MinusAgrees(t.nodes, g.nodes, ts.errors, s.errors, ids);
    MinusAgrees(t.nodes - ts.errors, g.nodes - s.errors, ts.dead, s.dead, ids);
    SweptAgrees(g.edges, ts, s, ids);
    CappedAgrees(Swept(g.edges, s), ids);
  }

  // ---- all interleavings agree ----

  ghost predicate SystemsAgree(t: TextSystem, s: System, ids: set<NodeId>) {
    && GraphsAgree(t.graph, s.graph, ids)
    && |t.inFlight| == |s.inFlight|
    && (forall i | 0 <= i < |s.inFlight| :: SnapshotsAgree(t.inFlight[i], s.inFlight[i], ids))
  }

  function Uses(a: Action, parse: string -> Option<real>): set<NodeId> {
    match a
    case HandleEvent(e) => EventUses(e, parse)
    case PublishSignals(points) => PointUses(points)
    case BeginCleanup(_) => {}
    case FinishCleanup(_) => {}
  }

  /** The ids a run makes or looks up. */
  function RunUses(actions: seq<Action>, parse: string -> Option<real>): set<NodeId> {
    if actions == [] then {} else RunUses(actions[..|actions| - 1], parse) + Uses(actions[|actions| - 1], parse)
  }

  lemma NextAgrees(t: TextSystem, s: System, a: Action, parse: string -> Option<real>, ids: set<NodeId>)
    requires Apart(ids) && SystemsAgree(t, s, ids) && Uses(a, parse) <= ids
    ensures SystemsAgree(NextText(t, a, parse), Next(s, a, parse), ids)
  {
    match a
    case HandleEvent(e) => HandleAgrees(t.graph, s.graph, e, parse, ids);
    case PublishSignals(points) => PublishAgrees(t.graph.nodes, s.graph.nodes, points, ids);
    case BeginCleanup(now) => SnapshotAgrees(t.graph.nodes, s.graph.nodes, now, ids);
    case FinishCleanup(i) =>
      if i < |s.inFlight| {
        CleanupAgrees(t.graph, s.graph, t.inFlight[i], s.inFlight[i], ids);
      }
  }

  lemma {:induction false} RunAgrees(actions: seq<Action>, parse: string -> Option<real>, ids: set<NodeId>)
    requires Apart(ids) && RunUses(actions, parse) <= ids
    ensures SystemsAgree(ExecText(TextStart, actions, parse), Exec(Start, actions, parse), ids)
  {
    if actions != [] {
      var front, a := actions[..|actions| - 1], actions[|actions| - 1];
      RunAgrees(front, parse, ids);
      NextAgrees(ExecText(TextStart, front, parse), Exec(Start, front, parse), a, parse, ids);
    }
  }

  /** The graph over text is the graph over typed ids, name for id: as many nodes, each
      typed one under its own name with its contents, and the edges in order. */
  ghost predicate Mirrors(t: TextGraph, g: Graph) {
    && Apart(g.nodes.Keys)
    && t.nodes.Keys == (set id | id in g.nodes :: Render(id))
    && (forall id | id in g.nodes :: t.nodes[Render(id)] == g.nodes[id])
    && t.edges == Map(g.edges, EdgeText)
  }

  /** In every interleaving, if no two ids it uses are the same text, the two graphs are the
      same. */
  lemma TextIsTyped(actions: seq<Action>, parse: string -> Option<real>)
    requires Apart(RunUses(actions, parse))
    ensures Mirrors(ExecText(TextStart, actions, parse).graph, Exec(Start, actions, parse).graph)
  {
    RunAgrees(actions, parse, RunUses(actions, parse));
  }

  // ---- and otherwise they are not ----

  /** An action that makes a node. */
  function Make(id: NodeId): Action {
    match id
    case ProcessId(ns, pid) => HandleEvent(Event(0, ProcessState, "", None, Some(pid), "start", ns))
    case ResourceId(ns, entity) => HandleEvent(Event(0, ComputeUtil, entity, None, None, "", ns))
    case ErrorId(ns, entity) => HandleEvent(Event(0, ErrorHw, entity, None, None, "", ns))
    case SignalId(signal, owner) => PublishSignals([SignalNode(signal, owner, 0, map[])])
  }

  lemma MakeIs(t: TextSystem, s: System, id: NodeId, parse: string -> Option<real>)
    requires t.graph.edges == [] && s.graph.edges == []
    ensures var t', s' := NextText(t, Make(id), parse), Next(s, Make(id), parse);
            && t'.graph.nodes.Keys == t.graph.nodes.Keys + {Render(id)} && t'.graph.edges == []
            && s'.graph.nodes.Keys == s.graph.nodes.Keys + {id} && s'.graph.edges == []
  {
    if id.SignalId? {
      var p := SignalNode(id.signal, id.owner, 0, map[]);
      SignalIsRendered(p);
      assert [p][..0] == [];
      assert PublishText(t.graph.nodes, [p]) == t.graph.nodes[SignalText(p) := Node(Resource, 0, map[])];
      assert Publish(s.graph.nodes, [p]) == s.graph.nodes[id := Node(Resource, 0, map[])];
    }
  }

  /** Two ids that are the same text: a run makes two nodes in the typed graph and one in
      the graph over text. */
  lemma MeetingMerges(a: NodeId, b: NodeId, parse: string -> Option<real>)
    requires Render(a) == Render(b)
    ensures Exec(Start, [Make(a), Make(b)], parse).graph.nodes.Keys == {a, b}
    ensures ExecText(TextStart, [Make(a), Make(b)], parse).graph.nodes.Keys == {Render(a)}
  {
    var both := [Make(a), Make(b)];
    assert both[..1] == [Make(a)] && [Make(a)][..0] == [];
    var t1, s1 := NextText(TextStart, Make(a), parse), Next(Start, Make(a), parse);
    MakeIs(TextStart, Start, a, parse);
    MakeIs(t1, s1, b, parse);
    assert ExecText(TextStart, [Make(a)], parse) == t1 && Exec(Start, [Make(a)], parse) == s1;
  }

  /** What runs over the given ids can use: an error needs the id of its resource. */
  ghost predicate Usable(ids: iset<NodeId>, id: NodeId) {
    id in ids && (id.ErrorId? ==> ResourceId(id.ns, id.entity) in ids)
  }

  ghost predicate RunsOver(ids: iset<NodeId>, actions: seq<Action>, parse: string -> Option<real>) {
    forall id | id in RunUses(actions, parse) :: id in ids
  }

  lemma {:induction false} RunUsesUsable(ids: iset<NodeId>, actions: seq<Action>, parse: string -> Option<real>)
    requires RunsOver(ids, actions, parse)
    ensures forall id | id in RunUses(actions, parse) :: Usable(ids, id)
  {
    if actions != [] {
      RunUsesUsable(ids, actions[..|actions| - 1], parse);
    }
  }

  lemma MakesOver(ids: iset<NodeId>, a: NodeId, b: NodeId, parse: string -> Option<real>)
    requires Usable(ids, a) && Usable(ids, b)
    ensures RunsOver(ids, [Make(a), Make(b)], parse)
  {
    var both := [Make(a), Make(b)];
    assert both[..1] == [Make(a)] && [Make(a)][..0] == [];
    assert RunUses(both, parse) == RunUses([Make(a)], parse) + Uses(Make(b), parse);
    assert RunUses([Make(a)], parse) == Uses(Make(a), parse);
  }

  /** Exactly when ids as text will do: over a given stock of ids, the two graphs are the
      same in every interleaving if and only if no two ids that can be used are the same
      text. */
  lemma TextIsTypedIff(ids: iset<NodeId>, parse: string -> Option<real>)
    ensures (forall actions | RunsOver(ids, actions, parse) ::
               Mirrors(ExecText(TextStart, actions, parse).graph, Exec(Start, actions, parse).graph))
       <==> (forall a, b | Usable(ids, a) && Usable(ids, b) && Render(a) == Render(b) :: a == b)
  {
    if forall a, b | Usable(ids, a) && Usable(ids, b) && Render(a) == Render(b) :: a == b {
      forall actions | RunsOver(ids, actions, parse)
        ensures Mirrors(ExecText(TextStart, actions, parse).graph, Exec(Start, actions, parse).graph)
      {
        RunUsesUsable(ids, actions, parse);
        TextIsTyped(actions, parse);
      }
    } else {
      var a, b :| Usable(ids, a) && Usable(ids, b) && Render(a) == Render(b) && a != b;
      MakesOver(ids, a, b, parse);
      MeetingMerges(a, b, parse);
      assert !Mirrors(ExecText(TextStart, [Make(a), Make(b)], parse).graph,
                      Exec(Start, [Make(a), Make(b)], parse).graph);
    }
  }

  // ---- names that are told apart ----

  /** What the names in a run have to be like: proper, and no two namespaces of which one
      slips under the other. */
  ghost predicate ProperRun(actions: seq<Action>, parse: string -> Option<real>) {
    && (forall id | id in RunUses(actions, parse) :: Proper(id))
    && (forall a, b | a in RunUses(actions, parse) && b in RunUses(actions, parse) :: SpacesApart(a, b))
  }

  lemma ProperRunIsApart(actions: seq<Action>, parse: string -> Option<real>)
    requires ProperRun(actions, parse)
    ensures Apart(RunUses(actions, parse))
  {
    var ids := RunUses(actions, parse);
    forall a, b | a in ids && b in ids && Render(a) == Render(b) ensures a == b {
      ProperIsApart(a, b);
    }
  }
}
