/** Every interleaving of event handlers with two-phase cleanups
    (core/src/graph.rs). A handler runs under the write locks and is one step. A
    cleanup takes its snapshot in one step and applies it in a later one, when the
    graph may have moved on; any number of cleanups may be in flight. */
module Interleaving {
  import opened Events
  import opened Graph
  import opened EdgeLists

  datatype System = System(graph: Graph, inFlight: seq<Snapshot>)

  datatype Action =
    | HandleEvent(event: Event)
    | PublishSignals(points: seq<SignalNode>)
    | BeginCleanup(now: nat)
    | FinishCleanup(which: nat)

  const Start := System(Empty, [])

  function Next(s: System, a: Action, parse: string -> Option<real>): System {
    match a
    case HandleEvent(e) => s.(graph := Handle(s.graph, e, parse))
    case PublishSignals(points) => s.(graph := s.graph.(nodes := Publish(s.graph.nodes, points)))
    case BeginCleanup(now) => s.(inFlight := s.inFlight + [TakeSnapshot(s.graph.nodes, now)])
    case FinishCleanup(i) =>
      if i < |s.inFlight| then
        System(ApplyCleanup(s.graph, s.inFlight[i]), s.inFlight[..i] + s.inFlight[i + 1..])
      else s
  }

  function Exec(s: System, actions: seq<Action>, parse: string -> Option<real>): System {
    if actions == [] then s
    else Next(Exec(s, actions[..|actions| - 1], parse), actions[|actions| - 1], parse)
  }

  lemma OneStep(s: System, actions: seq<Action>, a: Action, parse: string -> Option<real>)
    ensures Exec(s, actions + [a], parse) == Next(Exec(s, actions, parse), a, parse)
  {
    assert (actions + [a])[..|actions|] == actions;
  }

  lemma {:induction false} ExecConcat(s: System, a: seq<Action>, b: seq<Action>, parse: string -> Option<real>)
    ensures Exec(s, a + b, parse) == Exec(Exec(s, a, parse), b, parse)
  {
    if b == [] {
      assert a + b == a;
    } else {
      var b' := b[..|b| - 1];
      assert (a + b)[..|a + b| - 1] == a + b';
      ExecConcat(s, a, b', parse);
    }
  }

  // ---- well-formedness ----

  function KindOf(id: NodeId): NodeKind {
    match id
    case ProcessId(_, _) => Process
    case ResourceId(_, _) => Resource
    case ErrorId(_, _) => Error
    case SignalId(_, _) => Resource
  }

  predicate TypedNodes(nodes: Nodes) {
    forall id | id in nodes :: nodes[id].kind == KindOf(id)
  }

  /** Every edge leaves a process that is present and enters a present resource or,
      for BlockedBy, a present error. */
  predicate TypedEdge(e: Edge, nodes: Nodes) {
    && e.from.ProcessId? && e.from in nodes && e.to in nodes
    && (if e.kind.BlockedBy? then e.to.ErrorId? else e.to.ResourceId?)
  }

  predicate WellFormed(g: Graph) {
    && TypedNodes(g.nodes)
    && (forall e | e in g.edges :: TypedEdge(e, g.nodes))
    && DistinctKeys(g.edges)
  }

  predicate TypedSnapshot(s: Snapshot) {
    && (forall id | id in s.errors :: id.ErrorId?)
    && (forall id | id in s.dead :: id.ProcessId?)
  }

  predicate Safe(s: System) {
    && WellFormed(s.graph)
    && (forall snap | snap in s.inFlight :: TypedSnapshot(snap))
  }

  /** Linking two present nodes by a typed edge. */
  lemma LinkKeepsWellFormed(g: Graph, nodes: Nodes, e: Edge)
    requires WellFormed(g) && TypedNodes(nodes) && g.nodes.Keys <= nodes.Keys && TypedEdge(e, nodes)
    ensures WellFormed(Graph(nodes, Upsert(g.edges, e)))
  {
    UpsertKeeps(g.edges, e);
    forall x | x in Upsert(g.edges, e) ensures TypedEdge(x, nodes) {
      assert x in g.edges ==> TypedEdge(x, g.nodes);
    }
  }

  lemma ObserveIs(nodes: Nodes, id: NodeId, ts: nat, key: string, value: string)
    requires TypedNodes(nodes) && id.ResourceId?
    ensures var r := Observe(nodes, id, ts, key, value);
            TypedNodes(r) && r.Keys == nodes.Keys + {id}
  {}

  lemma ComputeKeepsWellFormed(g: Graph, e: Event)
    requires WellFormed(g)
    ensures WellFormed(HandleCompute(g, e)) && g.nodes.Keys <= HandleCompute(g, e).nodes.Keys
  {
    var res := ResourceId(e.node, e.entity);
    ObserveIs(g.nodes, res, e.ts, "util", e.value);
    if e.pid.Some? {
      var proc := ProcessId(e.node, e.pid.value);
      LinkKeepsWellFormed(g, HandleCompute(g, e).nodes, Edge(Consumes, proc, res, e.ts));
    }
  }

  lemma TransportKeepsWellFormed(g: Graph, e: Event, parse: string -> Option<real>)
    requires WellFormed(g)
    ensures WellFormed(HandleTransport(g, e, parse)) && g.nodes.Keys <= HandleTransport(g, e, parse).nodes.Keys
  {
    var res := ResourceId(e.node, TransportEntity(e.entity));
    ObserveIs(g.nodes, res, e.ts, TransportKey(e.kind), e.value);
    var w := Waiter(e, parse);
    if w.Some? {
      var proc := ProcessId(e.node, w.value);
      LinkKeepsWellFormed(g, HandleTransport(g, e, parse).nodes, Edge(WaitsOn, proc, res, e.ts));
    }
  }

  /** No handler breaks the graph or removes a node. */
  lemma HandleKeepsWellFormed(g: Graph, e: Event, parse: string -> Option<real>)
    requires WellFormed(g)
    ensures WellFormed(Handle(g, e, parse)) && g.nodes.Keys <= Handle(g, e, parse).nodes.Keys
  {
    match e.kind
    case ComputeUtil | ComputeMem => ComputeKeepsWellFormed(g, e);
    case TransportBw | TransportDrop | StorageIops | StorageQDepth => TransportKeepsWellFormed(g, e, parse);
    case ErrorHw | ErrorNet | TopoLinkDown => ErrorKeepsWellFormed(g, e);
    case _ =>
  }

  lemma ErrorKeepsWellFormed(g: Graph, e: Event)
    requires WellFormed(g)
    ensures WellFormed(HandleError(g, e))
  {
    var res := ResourceId(e.node, e.entity);
    var procs := Consumers(g.edges, res);
    var g' := HandleError(g, e);
    ConsumersAre(g.edges, res);
    BlockAllKeeps(g.edges, procs, ErrorOf(e), e.ts);
    forall x | x in g'.edges ensures TypedEdge(x, g'.nodes) {
      if x !in g.edges {
        assert EdgeKey(Consumes, x.from, res) in Keys(g.edges);
        var y :| y in g.edges && Key(y) == EdgeKey(Consumes, x.from, res);
        assert TypedEdge(y, g.nodes);
      }
    }
  }

  lemma CleanupKeepsWellFormed(g: Graph, s: Snapshot)
    requires WellFormed(g) && TypedSnapshot(s)
    ensures WellFormed(ApplyCleanup(g, s))
  {
    CleanupBounds(g, s);
    var g' := ApplyCleanup(g, s);
    forall e | e in g'.edges ensures TypedEdge(e, g'.nodes) {
      assert e in g.edges && Survives(e, s);
      assert TypedEdge(e, g.nodes);
    }
  }

  lemma {:induction false} PublishIs(nodes: Nodes, points: seq<SignalNode>)
    ensures var r := Publish(nodes, points);
            && (forall id | id in nodes :: id in r)
            && (forall id | id in r && !id.SignalId? :: id in nodes && r[id] == nodes[id])
            && (forall id | id in r && id.SignalId? :: (id in nodes && r[id] == nodes[id]) || r[id].kind.Resource?)
  {
    if points != [] {
      PublishIs(nodes, points[..|points| - 1]);
    }
  }

  lemma NextKeepsSafe(s: System, a: Action, parse: string -> Option<real>)
    requires Safe(s)
    ensures Safe(Next(s, a, parse))
  {
    match a
    case HandleEvent(e) => HandleKeepsWellFormed(s.graph, e, parse);
    case PublishSignals(points) => PublishIs(s.graph.nodes, points);
    case BeginCleanup(now) =>
    case FinishCleanup(i) =>
      if i < |s.inFlight| {
        CleanupKeepsWellFormed(s.graph, s.inFlight[i]);
      }
  }

  /** A cycle is a non-empty closed walk along edges. */
  predicate IsCycle(walk: seq<Edge>, edges: seq<Edge>) {
    && walk != []
    && (forall i | 0 <= i < |walk| :: walk[i] in edges)
    && (forall i | 0 < i < |walk| :: walk[i - 1].to == walk[i].from)
    && walk[|walk| - 1].to == walk[0].from
  }

  lemma NoCycle(g: Graph, walk: seq<Edge>)
    requires WellFormed(g)
    ensures !IsCycle(walk, g.edges)
  {
    if walk != [] && walk[0] in g.edges && walk[|walk| - 1] in g.edges {
      assert walk[0].from.ProcessId?;
      assert !walk[|walk| - 1].to.ProcessId?;
    }
  }

  /** In every reachable state of every interleaving the edges are typed, hang on
      present nodes, have distinct keys and form no cycle. */
  lemma ReachableIsSafe(actions: seq<Action>, parse: string -> Option<real>)
    ensures var s := Exec(Start, actions, parse);
            Safe(s) && forall walk :: !IsCycle(walk, s.graph.edges)
  {
    StaysSafe(Start, actions, parse);
    var g := Exec(Start, actions, parse).graph;
    forall walk ensures !IsCycle(walk, g.edges) {
      NoCycle(g, walk);
    }
  }

  lemma {:induction false} StaysSafe(s: System, actions: seq<Action>, parse: string -> Option<real>)
    requires Safe(s)
    ensures Safe(Exec(s, actions, parse))
  {
    if actions != [] {
      StaysSafe(s, actions[..|actions| - 1], parse);
      NextKeepsSafe(Exec(s, actions[..|actions| - 1], parse), actions[|actions| - 1], parse);
    }
  }

  // ---- what lives on ----

  /** Resource and signal nodes are never removed, whatever runs. */
  lemma {:induction false} ResourcesStay(s: System, id: NodeId, rest: seq<Action>, parse: string -> Option<real>)
    requires Safe(s) && id in s.graph.nodes && KindOf(id).Resource?
    ensures var s' := Exec(s, rest, parse);
            Safe(s') && id in s'.graph.nodes && s'.graph.nodes[id].kind.Resource?
  {
    if rest != [] {
      var mid := Exec(s, rest[..|rest| - 1], parse);
      ResourcesStay(s, id, rest[..|rest| - 1], parse);
      NextKeepsSafe(mid, rest[|rest| - 1], parse);
      match rest[|rest| - 1]
      case HandleEvent(e) => HandleKeepsWellFormed(mid.graph, e, parse);
      case PublishSignals(points) => PublishIs(mid.graph.nodes, points);
      case BeginCleanup(now) =>
      case FinishCleanup(i) =>
        assert i < |mid.inFlight| ==> mid.inFlight[i] in mid.inFlight;
    }
  }

  predicate Ends(a: Action, p: NodeId) {
    && a.HandleEvent? && a.event.kind.ProcessState? && a.event.pid.Some?
    && ProcessId(a.event.node, a.event.pid.value) == p
    && (a.event.value == "exit" || a.event.value == "zombie")
  }

  predicate Runs(nodes: Nodes, p: NodeId) {
    p in nodes && nodes[p].kind.Process? && State(nodes[p]) == Some("running")
  }

  predicate Doomed(s: System, p: NodeId) {
    exists i | 0 <= i < |s.inFlight| :: p in s.inFlight[i].dead
  }

  lemma HandleKeepsRunning(g: Graph, e: Event, p: NodeId, parse: string -> Option<real>)
    requires p.ProcessId? && Runs(g.nodes, p) && !Ends(HandleEvent(e), p)
    ensures Runs(Handle(g, e, parse).nodes, p)
  {}

  lemma NextKeepsRunning(s: System, a: Action, p: NodeId, parse: string -> Option<real>)
    requires Safe(s) && p.ProcessId? && Runs(s.graph.nodes, p) && !Doomed(s, p) && !Ends(a, p)
    ensures var s' := Next(s, a, parse); Safe(s') && Runs(s'.graph.nodes, p) && !Doomed(s', p)
  {
    NextKeepsSafe(s, a, parse);
    match a
    case HandleEvent(e) => HandleKeepsRunning(s.graph, e, p, parse);
    case PublishSignals(points) => PublishIs(s.graph.nodes, points);
    case BeginCleanup(now) =>
    case FinishCleanup(i) =>
      assert i < |s.inFlight| ==> s.inFlight[i] in s.inFlight;
  }

  lemma {:induction false} UndoomedStaysActive(s: System, p: NodeId, rest: seq<Action>, parse: string -> Option<real>)
    requires Safe(s) && p.ProcessId? && Runs(s.graph.nodes, p) && !Doomed(s, p)
    requires forall i | 0 <= i < |rest| :: !Ends(rest[i], p)
    ensures var s' := Exec(s, rest, parse); Safe(s') && Runs(s'.graph.nodes, p) && !Doomed(s', p)
  {
    if rest != [] {
      UndoomedStaysActive(s, p, rest[..|rest| - 1], parse);
      NextKeepsRunning(Exec(s, rest[..|rest| - 1], parse), rest[|rest| - 1], p, parse);
    }
  }

  predicate Quiet(rest: seq<Action>, p: NodeId) {
    forall i | 0 <= i < |rest| :: !Ends(rest[i], p)
  }

  /** A process that has just started is listed as active in every later state
      without an exit or zombie event of its own, whatever its age, exactly when no
      cleanup that is already in flight has it on its list. With cleanups that
      run in one piece nothing is in flight and the record is never lost. */
  lemma StartedIsListed(actions: seq<Action>, e: Event, parse: string -> Option<real>)
    requires e.kind.ProcessState? && e.pid.Some? && e.value == "start"
    ensures var p := ProcessId(e.node, e.pid.value);
            var s := Exec(Start, actions + [HandleEvent(e)], parse);
            (forall rest | Quiet(rest, p) :: p in ActiveProcesses(Exec(s, rest, parse).graph.nodes))
            <==> !Doomed(s, p)
  {
    var p := ProcessId(e.node, e.pid.value);
    var run := actions + [HandleEvent(e)];
    var s := Exec(Start, run, parse);
    ReachableIsSafe(run, parse);
    assert run[..|run| - 1] == actions;
    assert Runs(s.graph.nodes, p);
    if !Doomed(s, p) {
      forall rest | Quiet(rest, p) ensures p in ActiveProcesses(Exec(s, rest, parse).graph.nodes) {
        UndoomedStaysActive(s, p, rest, parse);
      }
    } else {
      var i :| 0 <= i < |s.inFlight| && p in s.inFlight[i].dead;
      var rest := [FinishCleanup(i)];
      assert rest[..0] == [];
      assert Exec(s, rest, parse) == Next(s, rest[0], parse);
      assert Quiet(rest, p) && p !in ActiveProcesses(Exec(s, rest, parse).graph.nodes);
    }
  }

  /** It does happen: a process starts and exits, a cleanup takes its snapshot, the same
      process id starts again, and the cleanup ends and takes the new process away. */
  lemma RestartIsLost(start: Event, exit: Event, now: nat, parse: string -> Option<real>)
    requires start.kind.ProcessState? && start.pid.Some? && start.value == "start"
    requires Ends(HandleEvent(exit), ProcessId(start.node, start.pid.value))
    ensures var p := ProcessId(start.node, start.pid.value);
            var actions := [HandleEvent(start), HandleEvent(exit), BeginCleanup(now)];
            var s := Exec(Start, actions + [HandleEvent(start)], parse);
            && Doomed(s, p) && p in ActiveProcesses(s.graph.nodes)
            && p !in ActiveProcesses(Next(s, FinishCleanup(0), parse).graph.nodes)
  {
    var a, b, c := HandleEvent(start), HandleEvent(exit), BeginCleanup(now);
    var p := ProcessId(start.node, start.pid.value);
    assert [a] + [b] + [c] == [a, b, c] && [] + [a] == [a];
    OneStep(Start, [], a, parse);
    OneStep(Start, [a], b, parse);
    OneStep(Start, [a] + [b], c, parse);
    OneStep(Start, [a, b, c], a, parse);
    var s2 := Exec(Start, [a] + [b], parse);
    assert HasExited(s2.graph.nodes[p]);
    var s := Exec(Start, [a, b, c] + [a], parse);
    assert s.inFlight == [TakeSnapshot(s2.graph.nodes, now)] && p in s.inFlight[0].dead;
    assert Runs(s.graph.nodes, p);
  }

  /** While an error node is present nothing changes it: a repeated error does not
      refresh it. */
  lemma ErrorNodeIsFrozen(s: System, a: Action, err: NodeId, parse: string -> Option<real>)
    requires err.ErrorId? && err in s.graph.nodes && err in Next(s, a, parse).graph.nodes
    ensures Next(s, a, parse).graph.nodes[err] == s.graph.nodes[err]
  {
    match a
    case PublishSignals(points) => PublishIs(s.graph.nodes, points);
    case _ =>
  }
}
