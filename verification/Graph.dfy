/** The causal state graph as a value (core/src/graph.rs): typed nodes, one list of
    edges, the event handlers and the two phases of the periodic cleanup. */
module Graph {
  import opened Events
  import opened Text
  import opened Seqs

  const EDGE_TTL_MS: nat := 60 * 60 * 1000
  const MAX_EDGES: nat := 100_000
  const CLEANUP_INTERVAL_MS: nat := 30_000
  const ERROR_WINDOW_MS: nat := 5 * 60 * 1000
  const PROCESS_WINDOW_MS: nat := 10 * 60 * 1000

  /** Node ids: the kind of thing, then its namespace and its name. */
  datatype NodeId =
    | ProcessId(ns: Option<string>, pid: nat)
    | ResourceId(ns: Option<string>, entity: string)
    | ErrorId(ns: Option<string>, entity: string)
    | SignalId(signal: string, owner: string)

  datatype NodeKind = Process | Resource | Error

  datatype Node = Node(kind: NodeKind, lastUpdate: nat, metadata: map<string, string>)

  datatype EdgeKind = Consumes | WaitsOn | BlockedBy

  datatype Edge = Edge(kind: EdgeKind, from: NodeId, to: NodeId, ts: nat)

  datatype EdgeKey = EdgeKey(kind: EdgeKind, from: NodeId, to: NodeId)

  datatype Graph = Graph(nodes: map<NodeId, Node>, edges: seq<Edge>)

  const Empty := Graph(map[], [])

  type Nodes = map<NodeId, Node>

  function Key(e: Edge): EdgeKey {
    EdgeKey(e.kind, e.from, e.to)
  }

  function Keys(edges: seq<Edge>): set<EdgeKey> {
    set e | e in edges :: Key(e)
  }

  // ---- handlers ----

  function EnsureNode(nodes: Nodes, id: NodeId, kind: NodeKind, ts: nat, metadata: map<string, string>): Nodes {
    if id in nodes then nodes else nodes[id := Node(kind, ts, metadata)]
  }

  /** Creates the resource node if needed, then records one observation on it. */
  function Observe(nodes: Nodes, id: NodeId, ts: nat, key: string, value: string): Nodes {
    var nodes := EnsureNode(nodes, id, Resource, ts, map[]);
    nodes[id := nodes[id].(metadata := nodes[id].metadata[key := value], lastUpdate := ts)]
  }

  /** An edge that is already known is left as it is, timestamp included. */
  function Upsert(edges: seq<Edge>, e: Edge): seq<Edge> {
    if Key(e) in Keys(edges) then edges else edges + [e]
  }

  function HandleProcess(nodes: Nodes, e: Event): Nodes {
    if e.pid.None? then nodes
    else
      var id := ProcessId(e.node, e.pid.value);
      if e.value == "start" then
        var job := if e.job.Some? then map["job_id" := e.job.value] else map[];
        nodes[id := Node(Process, e.ts, job["state" := "running"])]
      else if (e.value == "exit" || e.value == "zombie") && id in nodes then
        nodes[id := nodes[id].(metadata := nodes[id].metadata["state" := e.value], lastUpdate := e.ts)]
      else
        nodes
  }

  function HandleCompute(g: Graph, e: Event): Graph {
    var res := ResourceId(e.node, e.entity);
    var nodes := Observe(g.nodes, res, e.ts, "util", e.value);
    if e.pid.None? then Graph(nodes, g.edges)
    else
      var proc := ProcessId(e.node, e.pid.value);
      Graph(EnsureNode(nodes, proc, Process, e.ts, map[]),
            Upsert(g.edges, Edge(Consumes, proc, res, e.ts)))
  }

  const NETWORK_PID_PREFIX := "network-pid-"

  /** Probe events named `network-pid-<PID>` are about the network as a whole. */
  function TransportEntity(entity: string): string {
    if StartsWith(entity, NETWORK_PID_PREFIX) then "network" else entity
  }

  predicate IsDigit(c: char) {
    '0' <= c <= '9'
  }

  function Digits(s: string): (r: Option<nat>) {
    if s == "" then Some(0)
    else
      var front := Digits(s[..|s| - 1]);
      var c := s[|s| - 1];
      if front.Some? && IsDigit(c) then Some(10 * front.value + (c as int - '0' as int)) else None
  }

  /** `str::parse::<u32>`: an optional sign, at least one digit, no overflow. */
  function ParseU32(s: string): Option<nat> {
    var digits := if s != "" && s[0] == '+' then s[1..] else s;
    var n := Digits(digits);
    if digits != "" && n.Some? && n.value < 0x1_0000_0000 then n else None
  }

  /** The process a drop event is about; 0 means none is known. */
  function DropPid(e: Event): nat {
    if e.pid.Some? then e.pid.value
    else if StartsWith(e.entity, NETWORK_PID_PREFIX) then
      match ParseU32(e.entity[|NETWORK_PID_PREFIX|..])
      case Some(n) => n
      case None => 0
    else 0
  }

  function TransportKey(k: EventKind): string {
    match k
    case TransportBw => "bw"
    case TransportDrop => "drop"
    case _ => "unknown"
  }

  /** A bandwidth report that counts as waiting: explicit, or below 1. */
  predicate Stalled(value: string, parse: string -> Option<real>) {
    Contains(value, "IO_WAIT") || (parse(value).Some? && parse(value).value < 1.0)
  }

  /** The process a transport event shows waiting, if any. */
  function Waiter(e: Event, parse: string -> Option<real>): Option<nat> {
    if e.kind.TransportDrop? && DropPid(e) > 0 then Some(DropPid(e))
    else if e.kind.TransportBw? && e.pid.Some? && Stalled(e.value, parse) then e.pid
    else None
  }

  /** Serves transport and storage events alike. */
  function HandleTransport(g: Graph, e: Event, parse: string -> Option<real>): Graph {
    var res := ResourceId(e.node, TransportEntity(e.entity));
    var nodes := Observe(g.nodes, res, e.ts, TransportKey(e.kind), e.value);
    match Waiter(e, parse)
    case None => Graph(nodes, g.edges)
    case Some(pid) =>
      var proc := ProcessId(e.node, pid);
      var metadata := if e.kind.TransportDrop? then map["state" := "running"] else map[];
      Graph(EnsureNode(nodes, proc, Process, e.ts, metadata),
            Upsert(g.edges, Edge(WaitsOn, proc, res, e.ts)))
  }

  /** Sources of the Consumes edges into a resource, in edge order. */
  function Consumers(edges: seq<Edge>, res: NodeId): seq<NodeId> {
    if edges == [] then []
    else
      var e := edges[|edges| - 1];
      Consumers(edges[..|edges| - 1], res)
      + (if e.kind.Consumes? && e.to == res then [e.from] else [])
  }

  function BlockAll(edges: seq<Edge>, procs: seq<NodeId>, error: NodeId, ts: nat): seq<Edge>
    decreases |procs|
  {
    if procs == [] then edges
    else BlockAll(Upsert(edges, Edge(BlockedBy, procs[0], error, ts)), procs[1..], error, ts)
  }

  function ErrorOf(e: Event): NodeId {
    ErrorId(e.node, e.entity)
  }

  function HandleError(g: Graph, e: Event): Graph {
    Graph(EnsureNode(g.nodes, ErrorOf(e), Error, e.ts, map["error_type" := e.value]),
          BlockAll(g.edges, Consumers(g.edges, ResourceId(e.node, e.entity)), ErrorOf(e), e.ts))
  }

  predicate IsErrorKind(k: EventKind) {
    k.ErrorHw? || k.ErrorNet? || k.TopoLinkDown?
  }

  /** Dispatch of one event, before cleanup and signals. */
  function Handle(g: Graph, e: Event, parse: string -> Option<real>): Graph {
    match e.kind
    case ProcessState => Graph(HandleProcess(g.nodes, e), g.edges)
    case ComputeUtil | ComputeMem => HandleCompute(g, e)
    case TransportBw | TransportDrop | StorageIops | StorageQDepth => HandleTransport(g, e, parse)
    case ErrorHw | ErrorNet | TopoLinkDown => HandleError(g, e)
    case IntentRun | ActionExec => g
  }

  // ---- cleanup ----

  /** What the read phase of a cleanup decided to remove, and for which clock. */
  datatype Snapshot = Snapshot(errors: set<NodeId>, dead: set<NodeId>, now: nat)

  predicate IsStaleError(n: Node, now: nat) {
    n.kind.Error? && n.lastUpdate < SatSub(now, ERROR_WINDOW_MS)
  }

  function State(n: Node): Option<string> {
    if "state" in n.metadata then Some(n.metadata["state"]) else None
  }

  predicate HasExited(n: Node) {
    State(n) == Some("exit") || State(n) == Some("zombie")
  }

  /** Explicitly gone, or silent for long and never seen running. */
  predicate IsDeadProcess(n: Node, now: nat) {
    && n.kind.Process?
    && (HasExited(n) || (n.lastUpdate < SatSub(now, PROCESS_WINDOW_MS) && State(n) != Some("running")))
  }

  function TakeSnapshot(nodes: Nodes, now: nat): Snapshot {
    Snapshot((set id | id in nodes && IsStaleError(nodes[id], now)),
             (set id | id in nodes && IsDeadProcess(nodes[id], now)),
             now)
  }

  function OffErrors(errors: set<NodeId>): Edge -> bool {
    (e: Edge) => !(e.kind.BlockedBy? && e.to in errors)
  }

  function OffDead(dead: set<NodeId>): Edge -> bool {
    (e: Edge) => e.from !in dead && e.to !in dead
  }

  function Since(cutoff: nat): Edge -> bool {
    (e: Edge) => e.ts >= cutoff
  }

  /** The edges left by the three retain passes. */
  function Swept(edges: seq<Edge>, s: Snapshot): seq<Edge> {
    Retain(Retain(Retain(edges, OffErrors(s.errors)), OffDead(s.dead)), Since(SatSub(s.now, EDGE_TTL_MS)))
  }

  function EdgeTs(e: Edge): nat {
    e.ts
  }

  /** The stable sort by descending timestamp. */
  function NewestFirst(edges: seq<Edge>): (r: seq<Edge>)
    ensures |r| == |edges|
  {
    SortDesc(edges, EdgeTs)
  }

  /** Capacity guard: past the limit only the newest edges stay. */
  function Capped(edges: seq<Edge>): seq<Edge> {
    if |edges| > MAX_EDGES then NewestFirst(edges)[..MAX_EDGES] else edges
  }

  /** The write phase: applies a snapshot, however old it is. */
  function ApplyCleanup(g: Graph, s: Snapshot): Graph {
    Graph(g.nodes - s.errors - s.dead, Capped(Swept(g.edges, s)))
  }

  // ---- signals ----

  /** A signal point as the graph records it. */
  datatype SignalNode = SignalNode(name: string, owner: string, ts: nat, metadata: map<string, string>)

  function Publish(nodes: Nodes, points: seq<SignalNode>): Nodes {
    if points == [] then nodes
    else
      var p := points[|points| - 1];
      Publish(nodes, points[..|points| - 1])[SignalId(p.name, p.owner) := Node(Resource, p.ts, p.metadata)]
  }

  // ---- queries ----

  predicate IsActive(n: Node) {
    n.kind.Process? && !HasExited(n)
  }

  function ActiveProcesses(nodes: Nodes): set<NodeId> {
    set id | id in nodes && IsActive(nodes[id])
  }
}
