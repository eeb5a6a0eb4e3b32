/** What the root-cause report says in reachable states (core/src/graph.rs), and
    how the one-event-at-a-time graph relates to the interleavings. */
module Attribution {
  import opened Events
  import opened Graph
  import opened EdgeLists
  import opened Interleaving
  import opened RootCause
  import opened SetSum
  import opened Signals
  import opened StateGraph

  /** The report `FindRootCauseById` returns, as a multiset. */
  ghost function Report(g: Graph, p: NodeId): multiset<Cause> {
    Sum(Reachable(IndexOf(g.edges), g.nodes, p), Weight(IndexOf(g.edges), g.nodes))
  }

  /** The edge a cause of process `p` comes from. */
  function CauseKey(p: NodeId, c: Cause): EdgeKey {
    match c
    case ErrorCause(id, _) => EdgeKey(BlockedBy, p, id)
    case WaitCause(id) => EdgeKey(WaitsOn, p, id)
  }

  predicate Truthful(c: Cause, nodes: Nodes) {
    c.ErrorCause? ==>
      c.error in nodes && nodes[c.error].kind.Error? && c.description == ErrorType(nodes[c.error])
  }

  lemma ScanAppend(list: seq<IndexedEdge>, e: IndexedEdge, nodes: Nodes)
    ensures Scan(list + [e], nodes) == Scan(list, nodes) + CauseOf(e, nodes)
  {
    assert (list + [e])[..|list|] == list;
  }

  lemma CauseOfCount(e: Edge, nodes: Nodes, c: Cause)
    ensures multiset(CauseOf(Indexed(e), nodes))[c] ==
            if CauseKey(e.from, c) == Key(e) && Truthful(c, nodes) then 1 else 0
  {}

  /** Scanning the out-edges of one process reports each cause once, and exactly the
      causes that an edge carries. */
  lemma {:induction false} ScanOnce(edges: seq<Edge>, p: NodeId, nodes: Nodes, c: Cause)
    requires DistinctKeys(edges)
    ensures multiset(Scan(Project(edges, p), nodes))[c] ==
            if CauseKey(p, c) in Keys(edges) && Truthful(c, nodes) then 1 else 0
  {
    if edges != [] {
      var front, e := edges[..|edges| - 1], edges[|edges| - 1];
      LastKeyIsNew(edges);
      ScanOnce(front, p, nodes, c);
      if e.from == p {
        ScanAppend(Project(front, p), Indexed(e), nodes);
        CauseOfCount(e, nodes, c);
        assert multiset(Scan(Project(front, p), nodes) + CauseOf(Indexed(e), nodes))
            == multiset(Scan(Project(front, p), nodes)) + multiset(CauseOf(Indexed(e), nodes));
      } else {
        assert Project(edges, p) == Project(front, p);
      }
    }
  }

  /** In a well-formed graph the search stops at the errors of the process itself. */
  lemma ReportIsLocal(g: Graph, p: NodeId)
    requires WellFormed(g)
    ensures Report(g, p) == multiset(Scan(Project(g.edges, p), g.nodes))
  {
    var out := IndexOf(g.edges);
    var reached := Reachable(out, g.nodes, p);
    ReachesItself(out, g.nodes, p);
    forall y | y in reached && y != p ensures Weight(out, g.nodes)(y) == multiset{} {
      var path :| IsPath(out, g.nodes, path) && path[0] == p && path[|path| - 1] == y;
      var x := path[|path| - 2];
      assert Blocks(out, g.nodes, x, y);
      ProjectIsIndexed(g.edges, x);
      ProjectedFrom(g.edges, x, IndexedEdge(BlockedBy, y));
      ProjectIsIndexed(g.edges, y);
      NoEdgesFrom(g.edges, y);
    }
    SumSingle(reached, p, Weight(out, g.nodes));
    ProjectIsIndexed(g.edges, p);
  }

  lemma {:induction false} ProjectedFrom(edges: seq<Edge>, src: NodeId, ie: IndexedEdge)
    requires ie in Project(edges, src)
    ensures exists e :: e in edges && e.from == src && Indexed(e) == ie
  {
    var front, last := edges[..|edges| - 1], edges[|edges| - 1];
    if ie in Project(front, src) {
      ProjectedFrom(front, src, ie);
      var e :| e in front && e.from == src && Indexed(e) == ie;
      assert e in edges;
    } else {
      assert last in edges;
    }
  }

  /** In a well-formed graph the report of a process names exactly the errors and
      waits it has an edge to, each once. */
  lemma ReportIsExact(g: Graph, p: NodeId, c: Cause)
    requires WellFormed(g)
    ensures Report(g, p)[c] == if CauseKey(p, c) in Keys(g.edges) && Truthful(c, g.nodes) then 1 else 0
  {
    ReportIsLocal(g, p);
    ScanOnce(g.edges, p, g.nodes, c);
  }

  /** The node is there in every state on the way. */
  predicate StaysPresent(s: System, actions: seq<Action>, id: NodeId, parse: string -> Option<real>) {
    forall k | 0 <= k <= |actions| :: id in Exec(s, actions[..k], parse).graph.nodes
  }

  /** An error node that is never away keeps everything it was created with. */
  lemma {:induction false} ErrorNodeStays(s: System, actions: seq<Action>, err: NodeId, parse: string -> Option<real>)
    requires err.ErrorId? && StaysPresent(s, actions, err, parse)
    ensures err in s.graph.nodes && err in Exec(s, actions, parse).graph.nodes
    ensures Exec(s, actions, parse).graph.nodes[err] == s.graph.nodes[err]
  {
    assert actions[..|actions|] == actions;
    assert actions[..0] == [];
    assert err in Exec(s, actions[..0], parse).graph.nodes;
    if actions != [] {
      var front := actions[..|actions| - 1];
      forall k | 0 <= k <= |front| ensures front[..k] == actions[..k] {}
      ErrorNodeStays(s, front, err, parse);
      ErrorNodeIsFrozen(Exec(s, front, parse), actions[|actions| - 1], err, parse);
    }
  }

  /** Cause attribution. `first` created the error node; `mid` is any interleaving
      during which the node was never away. When `last` repeats the error, the
      report of every process that consumes the resource names the error exactly
      once, with the type `first` recorded, and names nothing twice. */
  lemma ErrorsAreAttributed(pre: seq<Action>, first: Event, mid: seq<Action>, last: Event, p: NodeId,
                            parse: string -> Option<real>)
    requires IsErrorKind(first.kind) && IsErrorKind(last.kind) && ErrorOf(last) == ErrorOf(first)
    requires ErrorOf(first) !in Exec(Start, pre, parse).graph.nodes
    requires StaysPresent(Next(Exec(Start, pre, parse), HandleEvent(first), parse), mid, ErrorOf(first), parse)
    requires var s := Exec(Next(Exec(Start, pre, parse), HandleEvent(first), parse), mid, parse);
             EdgeKey(Consumes, p, ResourceId(last.node, last.entity)) in Keys(Handle(s.graph, last, parse).edges)
    ensures var s := Exec(Next(Exec(Start, pre, parse), HandleEvent(first), parse), mid, parse);
            var report := Report(Handle(s.graph, last, parse), p);
            && report[ErrorCause(ErrorOf(first), first.value)] == 1
            && forall c :: report[c] <= 1
  {
    var s0 := Exec(Start, pre, parse);
    var s1 := Next(s0, HandleEvent(first), parse);
    var s := Exec(s1, mid, parse);
    ReachableIsSafe(pre, parse);
    NextKeepsSafe(s0, HandleEvent(first), parse);
    StaysSafe(s1, mid, parse);
    RecordsType(s0.graph, first, parse);
    ErrorNodeStays(s1, mid, ErrorOf(first), parse);
    RepeatIsAttributed(s.graph, last, p, parse);
  }

  /** The first report of an error is attributed at once. */
  lemma FirstErrorIsAttributed(pre: seq<Action>, first: Event, p: NodeId, parse: string -> Option<real>)
    requires IsErrorKind(first.kind)
    requires ErrorOf(first) !in Exec(Start, pre, parse).graph.nodes
    requires var g := Handle(Exec(Start, pre, parse).graph, first, parse);
             EdgeKey(Consumes, p, ResourceId(first.node, first.entity)) in Keys(g.edges)
    ensures var g := Handle(Exec(Start, pre, parse).graph, first, parse);
            Report(g, p)[ErrorCause(ErrorOf(first), first.value)] == 1
  {
    var g := Exec(Start, pre, parse).graph;
    ReachableIsSafe(pre, parse);
    HandleKeepsWellFormed(g, first, parse);
    HandlerBlocksConsumers(g, first, p);
    RecordsType(g, first, parse);
    LinkIsReported(Handle(g, first, parse), p, ErrorOf(first));
  }

  lemma RecordsType(g: Graph, e: Event, parse: string -> Option<real>)
    requires IsErrorKind(e.kind) && ErrorOf(e) !in g.nodes
    ensures var nodes := Handle(g, e, parse).nodes;
            ErrorOf(e) in nodes && nodes[ErrorOf(e)].kind.Error? && ErrorType(nodes[ErrorOf(e)]) == e.value
  {}

  lemma LinkIsReported(g: Graph, p: NodeId, err: NodeId)
    requires WellFormed(g) && err.ErrorId? && err in g.nodes && EdgeKey(BlockedBy, p, err) in Keys(g.edges)
    ensures Report(g, p)[ErrorCause(err, ErrorType(g.nodes[err]))] == 1
    ensures forall c :: Report(g, p)[c] <= 1
  {
    ReportIsExact(g, p, ErrorCause(err, ErrorType(g.nodes[err])));
    forall c ensures Report(g, p)[c] <= 1 {
      ReportIsExact(g, p, c);
    }
  }

  lemma RepeatIsAttributed(g: Graph, e: Event, p: NodeId, parse: string -> Option<real>)
    requires WellFormed(g) && IsErrorKind(e.kind) && ErrorOf(e) in g.nodes
    requires EdgeKey(Consumes, p, ResourceId(e.node, e.entity)) in Keys(Handle(g, e, parse).edges)
    ensures var report := Report(Handle(g, e, parse), p);
            && report[ErrorCause(ErrorOf(e), ErrorType(g.nodes[ErrorOf(e)]))] == 1
            && forall c :: report[c] <= 1
  {
    HandleKeepsWellFormed(g, e, parse);
    HandlerBlocksConsumers(g, e, p);
    LinkIsReported(Handle(g, e, parse), p, ErrorOf(e));
  }

  /** The error handler links every consumer of the resource to the error. */
  lemma HandlerBlocksConsumers(g: Graph, e: Event, p: NodeId)
    requires WellFormed(g)
    requires EdgeKey(Consumes, p, ResourceId(e.node, e.entity)) in Keys(HandleError(g, e).edges)
    ensures EdgeKey(BlockedBy, p, ErrorOf(e)) in Keys(HandleError(g, e).edges)
  {
    var res := ResourceId(e.node, e.entity);
    ConsumersAre(g.edges, res);
    BlockAllKeeps(g.edges, Consumers(g.edges, res), ErrorOf(e), e.ts);
  }

  // ---- from events to reports ----

  lemma TransportKeepsEdges(g: Graph, e: Event, parse: string -> Option<real>)
    requires WellFormed(g)
    ensures var g' := HandleTransport(g, e, parse); g.edges <= g'.edges && Keys(g.edges) <= Keys(g'.edges)
  {
    var w := Waiter(e, parse);
    if w.Some? {
      UpsertKeeps(g.edges,
                  Edge(WaitsOn, ProcessId(e.node, w.value), ResourceId(e.node, TransportEntity(e.entity)), e.ts));
    }
  }

  lemma ComputeKeepsEdges(g: Graph, e: Event)
    requires WellFormed(g)
    ensures var g' := HandleCompute(g, e); g.edges <= g'.edges && Keys(g.edges) <= Keys(g'.edges)
  {
    if e.pid.Some? {
      UpsertKeeps(g.edges, Edge(Consumes, ProcessId(e.node, e.pid.value), ResourceId(e.node, e.entity), e.ts));
    }
  }

  lemma ErrorKeepsEdges(g: Graph, e: Event)
    requires WellFormed(g)
    ensures var g' := HandleError(g, e); g.edges <= g'.edges && Keys(g.edges) <= Keys(g'.edges)
  {
    BlockAllKeeps(g.edges, Consumers(g.edges, ResourceId(e.node, e.entity)), ErrorOf(e), e.ts);
  }

  /** A handler never takes an edge away. */
  lemma HandleKeepsEdges(g: Graph, e: Event, parse: string -> Option<real>)
    requires WellFormed(g)
    ensures g.edges <= Handle(g, e, parse).edges && Keys(g.edges) <= Keys(Handle(g, e, parse).edges)
  {
    match e.kind
    case ComputeUtil | ComputeMem => ComputeKeepsEdges(g, e);
    case TransportBw | TransportDrop | StorageIops | StorageQDepth => TransportKeepsEdges(g, e, parse);
    case ErrorHw | ErrorNet | TopoLinkDown => ErrorKeepsEdges(g, e);
    case _ =>
  }

  /** No handler and no signal takes an edge away. */
  lemma NextKeepsEdge(s: System, a: Action, e: Edge, parse: string -> Option<real>)
    requires Safe(s) && !a.FinishCleanup? && e in s.graph.edges
    ensures e in Next(s, a, parse).graph.edges
  {
    if a.HandleEvent? {
      HandleKeepsEdges(s.graph, a.event, parse);
    }
  }

  /** The action leaves the edge in place: it is not the end of a cleanup that removes
      it. */
  ghost predicate ActionSpares(s: System, a: Action, e: Edge) {
    a.FinishCleanup? && a.which < |s.inFlight| ==> Spares(s.graph, s.inFlight[a.which], e)
  }

  lemma NextKeepsEdgeIff(s: System, a: Action, e: Edge, parse: string -> Option<real>)
    requires Safe(s) && e in s.graph.edges
    ensures e in Next(s, a, parse).graph.edges <==> ActionSpares(s, a, e)
  {
    if a.FinishCleanup? {
      if a.which < |s.inFlight| {
        CleanupKeepsIff(s.graph, s.inFlight[a.which], e);
      }
    } else {
      NextKeepsEdge(s, a, e, parse);
    }
  }

  /** Every cleanup that ends on the way spares the edge. */
  ghost predicate Spared(s: System, actions: seq<Action>, e: Edge, parse: string -> Option<real>) {
    forall k | 0 <= k < |actions| :: ActionSpares(Exec(s, actions[..k], parse), actions[k], e)
  }

  /** The edge is there in every state on the way. */
  predicate StaysLinked(s: System, actions: seq<Action>, e: Edge, parse: string -> Option<real>) {
    forall k | 0 <= k <= |actions| :: e in Exec(s, actions[..k], parse).graph.edges
  }

  lemma SparedNext(s: System, actions: seq<Action>, a: Action, e: Edge, parse: string -> Option<real>)
    ensures Spared(s, actions + [a], e, parse) <==>
            Spared(s, actions, e, parse) && ActionSpares(Exec(s, actions, parse), a, e)
  {
    var all, n := actions + [a], |actions|;
    assert all[..n] == actions && all[n] == a;
    forall k | 0 <= k < n ensures all[..k] == actions[..k] && all[k] == actions[k] {}
    if Spared(s, all, e, parse) {
      assert ActionSpares(Exec(s, all[..n], parse), all[n], e);
      forall k | 0 <= k < n ensures ActionSpares(Exec(s, actions[..k], parse), actions[k], e) {
        assert ActionSpares(Exec(s, all[..k], parse), all[k], e);
      }
    }
  }

  lemma LinkedNext(s: System, actions: seq<Action>, a: Action, e: Edge, parse: string -> Option<real>)
    ensures StaysLinked(s, actions + [a], e, parse) <==>
            StaysLinked(s, actions, e, parse) && e in Exec(s, actions + [a], parse).graph.edges
  {
    var all, n := actions + [a], |actions|;
    assert all[..n + 1] == all;
    forall k | 0 <= k <= n ensures all[..k] == actions[..k] {}
  }

  /** An edge is never away exactly when every cleanup that ends on the way spares it. */
  lemma {:induction false} EdgeStaysIff(s: System, actions: seq<Action>, e: Edge, parse: string -> Option<real>)
    requires Safe(s) && e in s.graph.edges
    ensures StaysLinked(s, actions, e, parse) <==> Spared(s, actions, e, parse)
    ensures StaysLinked(s, actions, e, parse) ==> e in Exec(s, actions, parse).graph.edges
  {
    assert actions[..|actions|] == actions;
    if actions == [] {
      assert Exec(s, actions[..0], parse) == s;
    } else {
      var front, a := actions[..|actions| - 1], actions[|actions| - 1];
      assert front + [a] == actions;
      EdgeStaysIff(s, front, e, parse);
      SparedNext(s, front, a, e, parse);
      LinkedNext(s, front, a, e, parse);
      StaysSafe(s, front, parse);
      if e in Exec(s, front, parse).graph.edges {
        NextKeepsEdgeIff(Exec(s, front, parse), a, e, parse);
      }
    }
  }

  /** Every cleanup that ends on the way spares the edge with this key. An edge that was
      there before keeps its old timestamp, so the edge may be older than the event
      that confirmed it last. */
  ghost predicate LinkSpared(s: System, actions: seq<Action>, key: EdgeKey, parse: string -> Option<real>) {
    forall e | e in s.graph.edges && Key(e) == key :: Spared(s, actions, e, parse)
  }

  lemma LinkStays(s: System, actions: seq<Action>, key: EdgeKey, parse: string -> Option<real>)
    requires Safe(s) && key in Keys(s.graph.edges) && LinkSpared(s, actions, key, parse)
    ensures Safe(Exec(s, actions, parse)) && key in Keys(Exec(s, actions, parse).graph.edges)
  {
    var e :| e in s.graph.edges && Key(e) == key;
    StaysSafe(s, actions, parse);
    EdgeStaysIff(s, actions, e, parse);
    KeyIn(Exec(s, actions, parse).graph.edges, e);
  }

  /** A compute event of a process links it to the resource. */
  lemma UseLinks(s: System, use: Event, parse: string -> Option<real>)
    requires Safe(s) && (use.kind.ComputeUtil? || use.kind.ComputeMem?) && use.pid.Some?
    ensures var s' := Next(s, HandleEvent(use), parse);
            && Safe(s')
            && EdgeKey(Consumes, ProcessId(use.node, use.pid.value), ResourceId(use.node, use.entity))
               in Keys(s'.graph.edges)
  {
    NextKeepsSafe(s, HandleEvent(use), parse);
    UpsertKeeps(s.graph.edges,
                Edge(Consumes, ProcessId(use.node, use.pid.value), ResourceId(use.node, use.entity), use.ts));
  }

  /** A process seen using a resource is blamed on the resource's error: if an error of
      the resource comes after any interleaving whose cleanups spare the link between
      them, the report of the process names that error exactly once. */
  lemma UserIsBlamed(pre: seq<Action>, use: Event, mid: seq<Action>, err: Event, parse: string -> Option<real>)
    requires (use.kind.ComputeUtil? || use.kind.ComputeMem?) && use.pid.Some?
    requires IsErrorKind(err.kind) && err.node == use.node && err.entity == use.entity
    requires LinkSpared(Next(Exec(Start, pre, parse), HandleEvent(use), parse), mid,
                        EdgeKey(Consumes, ProcessId(use.node, use.pid.value), ResourceId(use.node, use.entity)), parse)
    ensures var s := Exec(Next(Exec(Start, pre, parse), HandleEvent(use), parse), mid, parse);
            var g := Handle(s.graph, err, parse);
            && ErrorOf(err) in g.nodes
            && Report(g, ProcessId(use.node, use.pid.value))
                     [ErrorCause(ErrorOf(err), ErrorType(g.nodes[ErrorOf(err)]))] == 1
  {
    var s0 := Exec(Start, pre, parse);
    var s1 := Next(s0, HandleEvent(use), parse);
    var p, res := ProcessId(use.node, use.pid.value), ResourceId(use.node, use.entity);
    ReachableIsSafe(pre, parse);
    UseLinks(s0, use, parse);
    LinkStays(s1, mid, EdgeKey(Consumes, p, res), parse);
    ErrorIsReported(Exec(s1, mid, parse).graph, err, p, parse);
  }

  lemma ErrorIsReported(g: Graph, err: Event, p: NodeId, parse: string -> Option<real>)
    requires WellFormed(g) && IsErrorKind(err.kind)
    requires EdgeKey(Consumes, p, ResourceId(err.node, err.entity)) in Keys(g.edges)
    ensures var g' := Handle(g, err, parse);
            && ErrorOf(err) in g'.nodes
            && Report(g', p)[ErrorCause(ErrorOf(err), ErrorType(g'.nodes[ErrorOf(err)]))] == 1
  {
    HandleKeepsWellFormed(g, err, parse);
    HandleKeepsEdges(g, err, parse);
    HandlerBlocksConsumers(g, err, p);
    LinkIsReported(Handle(g, err, parse), p, ErrorOf(err));
  }

  /** A process seen waiting on a transport resource has the wait in its report, once,
      after any interleaving whose cleanups spare the link between them. */
  lemma WaiterIsReported(pre: seq<Action>, e: Event, mid: seq<Action>, parse: string -> Option<real>)
    requires (e.kind.TransportDrop? || e.kind.TransportBw?) && Waiter(e, parse).Some?
    requires LinkSpared(Next(Exec(Start, pre, parse), HandleEvent(e), parse), mid,
                        EdgeKey(WaitsOn, ProcessId(e.node, Waiter(e, parse).value),
                                ResourceId(e.node, TransportEntity(e.entity))), parse)
    ensures var s := Exec(Next(Exec(Start, pre, parse), HandleEvent(e), parse), mid, parse);
            Report(s.graph, ProcessId(e.node, Waiter(e, parse).value))
                  [WaitCause(ResourceId(e.node, TransportEntity(e.entity)))] == 1
  {
    var s0 := Exec(Start, pre, parse);
    var s1 := Next(s0, HandleEvent(e), parse);
    var p, res := ProcessId(e.node, Waiter(e, parse).value), ResourceId(e.node, TransportEntity(e.entity));
    ReachableIsSafe(pre, parse);
    NextKeepsSafe(s0, HandleEvent(e), parse);
    UpsertKeeps(s0.graph.edges, Edge(WaitsOn, p, res, e.ts));
    LinkStays(s1, mid, EdgeKey(WaitsOn, p, res), parse);
    ReportIsExact(Exec(s1, mid, parse).graph, p, WaitCause(res));
  }

  // ---- links of a process that runs ----

  /** No cleanup that is in flight or begins on the way looks back from later than
      `now`. */
  predicate ClocksUpTo(s: System, actions: seq<Action>, now: nat) {
    && (forall snap | snap in s.inFlight :: snap.now <= now)
    && (forall k | 0 <= k < |actions| && actions[k].BeginCleanup? :: actions[k].now <= now)
  }

  lemma {:induction false} ClocksStay(s: System, actions: seq<Action>, now: nat, parse: string -> Option<real>)
    requires ClocksUpTo(s, actions, now)
    ensures forall snap | snap in Exec(s, actions, parse).inFlight :: snap.now <= now
  {
    if actions != [] {
      ClocksStay(s, actions[..|actions| - 1], now, parse);
    }
  }

  /** There is never more than the capacity. */
  predicate Roomy(s: System, actions: seq<Action>, parse: string -> Option<real>) {
    forall k | 0 <= k <= |actions| :: |Exec(s, actions[..k], parse).graph.edges| <= MAX_EDGES
  }

  /** Cleanups spare the resource link of a process that runs and is not condemned, for
      as long as their clocks are within the TTL of the link and there is room. */
  lemma {:induction false} RunningIsSpared(s: System, actions: seq<Action>, e: Edge, parse: string -> Option<real>)
    requires Safe(s) && e in s.graph.edges && !e.kind.BlockedBy?
    requires Runs(s.graph.nodes, e.from) && !Doomed(s, e.from) && Quiet(actions, e.from)
    requires ClocksUpTo(s, actions, e.ts + EDGE_TTL_MS) && Roomy(s, actions, parse)
    ensures Spared(s, actions, e, parse)
  {
    if actions != [] {
      var front, a := actions[..|actions| - 1], actions[|actions| - 1];
      assert front + [a] == actions;
      forall k | 0 <= k <= |front| ensures front[..k] == actions[..k] {}
      RunningIsSpared(s, front, e, parse);
      EdgeStaysIff(s, front, e, parse);
      assert TypedEdge(e, s.graph.nodes);
      UndoomedStaysActive(s, e.from, front, parse);
      ClocksStay(s, front, e.ts + EDGE_TTL_MS, parse);
      UndoomedIsSpared(Exec(s, front, parse), a, e);
      SparedNext(s, front, a, e, parse);
    }
  }

  lemma UndoomedIsSpared(s: System, a: Action, e: Edge)
    requires Safe(s) && e.from.ProcessId? && e.to.ResourceId? && !Doomed(s, e.from) && |s.graph.edges| <= MAX_EDGES
    requires (forall snap | snap in s.inFlight :: snap.now <= e.ts + EDGE_TTL_MS) && e in s.graph.edges
    ensures ActionSpares(s, a, e)
  {
    if a.FinishCleanup? && a.which < |s.inFlight| {
      var snap := s.inFlight[a.which];
      assert snap in s.inFlight && Survives(e, snap);
      SweptHas(s.graph.edges, snap, e);
    }
  }

  /** So a running process that was seen using a resource is blamed on an error of the
      resource through every interleaving with cleanups, whatever they remove besides:
      as long as it does not exit, no cleanup in flight had condemned it before, no
      cleanup looks back from more than the TTL after the link was made, and there are
      never more edges than the capacity. */
  lemma RunningUserIsBlamed(pre: seq<Action>, use: Event, mid: seq<Action>, err: Event, made: nat,
                            parse: string -> Option<real>)
    requires (use.kind.ComputeUtil? || use.kind.ComputeMem?) && use.pid.Some?
    requires IsErrorKind(err.kind) && err.node == use.node && err.entity == use.entity
    requires var p, s := ProcessId(use.node, use.pid.value), Next(Exec(Start, pre, parse), HandleEvent(use), parse);
             && Edge(Consumes, p, ResourceId(use.node, use.entity), made) in s.graph.edges
             && Runs(s.graph.nodes, p) && !Doomed(s, p) && Quiet(mid, p)
             && ClocksUpTo(s, mid, made + EDGE_TTL_MS) && Roomy(s, mid, parse)
    ensures var s := Exec(Next(Exec(Start, pre, parse), HandleEvent(use), parse), mid, parse);
            var g := Handle(s.graph, err, parse);
            && ErrorOf(err) in g.nodes
            && Report(g, ProcessId(use.node, use.pid.value))
                     [ErrorCause(ErrorOf(err), ErrorType(g.nodes[ErrorOf(err)]))] == 1
  {
    var s0 := Exec(Start, pre, parse);
    var s1 := Next(s0, HandleEvent(use), parse);
    var link := Edge(Consumes, ProcessId(use.node, use.pid.value), ResourceId(use.node, use.entity), made);
    ReachableIsSafe(pre, parse);
    NextKeepsSafe(s0, HandleEvent(use), parse);
    RunningIsSpared(s1, mid, link, parse);
    forall e | e in s1.graph.edges && Key(e) == Key(link) ensures e == link {
      OneOfKey(s1.graph.edges, e, link);
    }
    UserIsBlamed(pre, use, mid, err, parse);
  }

  lemma OneOfKey(edges: seq<Edge>, a: Edge, b: Edge)
    requires DistinctKeys(edges) && a in edges && b in edges && Key(a) == Key(b)
    ensures a == b
  {
    var i :| 0 <= i < |edges| && edges[i] == a;
    var j :| 0 <= j < |edges| && edges[j] == b;
  }

  /** Another use does not make a link younger: once the TTL of the first use is over, a
      cleanup drops the link however recent the last use was. */
  lemma UseDoesNotRefresh(g: Graph, use: Event, made: nat, snap: Snapshot, parse: string -> Option<real>)
    requires WellFormed(g) && (use.kind.ComputeUtil? || use.kind.ComputeMem?) && use.pid.Some?
    requires Edge(Consumes, ProcessId(use.node, use.pid.value), ResourceId(use.node, use.entity), made) in g.edges
    requires made + EDGE_TTL_MS < snap.now
    ensures EdgeKey(Consumes, ProcessId(use.node, use.pid.value), ResourceId(use.node, use.entity))
            !in Keys(ApplyCleanup(Handle(g, use, parse), snap).edges)
  {
    var link := Edge(Consumes, ProcessId(use.node, use.pid.value), ResourceId(use.node, use.entity), made);
    var g' := Handle(g, use, parse);
    KeyIn(g.edges, link);
    assert g'.edges == g.edges;
    CleanupBounds(g', snap);
    forall e | e in ApplyCleanup(g', snap).edges ensures Key(e) != Key(link) {
      if Key(e) == Key(link) {
        OneOfKey(g.edges, e, link);
      }
    }
  }

  // ---- events processed one at a time ----

  function FoldEvents(h: seq<Event>, fl: Floats): GraphState {
    if h == [] then NewGraph else FoldEvent(FoldEvents(h[..|h| - 1], fl), h[|h| - 1], fl)
  }

  /** The steps that processing one event takes. */
  function ActionsOf(s: GraphState, e: Event, fl: Floats): seq<Action> {
    [HandleEvent(e)]
    + (if CleanupDue(s.lastCleanup, e.ts) then [BeginCleanup(e.ts), FinishCleanup(0)] else [])
    + [PublishSignals(ToSignalNodes(EngineStep(s.engine, DefaultRegistry, e, Extractor(fl.parse)).1, fl.show))]
  }

  lemma FoldEventIsRun(s: GraphState, e: Event, fl: Floats)
    ensures Exec(System(s.graph, []), ActionsOf(s, e, fl), fl.parse) == System(FoldEvent(s, e, fl).graph, [])
  {
    var sys, g := System(s.graph, []), Handle(s.graph, e, fl.parse);
    var first, begin, finish := [HandleEvent(e)], BeginCleanup(e.ts), FinishCleanup(0);
    var last := ActionsOf(s, e, fl)[|ActionsOf(s, e, fl)| - 1];
    assert [] + first == first;
    OneStep(sys, [], HandleEvent(e), fl.parse);
    if CleanupDue(s.lastCleanup, e.ts) {
      assert ActionsOf(s, e, fl) == first + [begin] + [finish] + [last];
      OneStep(sys, first, begin, fl.parse);
      OneStep(sys, first + [begin], finish, fl.parse);
      OneStep(sys, first + [begin] + [finish], last, fl.parse);
      var snap := TakeSnapshot(g.nodes, e.ts);
      assert [snap][..0] + [snap][1..] == [];
    } else {
      assert ActionsOf(s, e, fl) == first + [last];
      OneStep(sys, first, last, fl.parse);
    }
  }

  function RunActions(h: seq<Event>, fl: Floats): seq<Action> {
    if h == [] then []
    else RunActions(h[..|h| - 1], fl) + ActionsOf(FoldEvents(h[..|h| - 1], fl), h[|h| - 1], fl)
  }

  /** Processing a stream is one of the interleavings, with no cleanup left open. */
  lemma {:induction false} FoldIsRun(h: seq<Event>, fl: Floats)
    ensures Exec(Start, RunActions(h, fl), fl.parse) == System(FoldEvents(h, fl).graph, [])
  {
    if h != [] {
      var front, e := h[..|h| - 1], h[|h| - 1];
      FoldIsRun(front, fl);
      FoldEventIsRun(FoldEvents(front, fl), e, fl);
      ExecConcat(Start, RunActions(front, fl), ActionsOf(FoldEvents(front, fl), e, fl), fl.parse);
    }
  }

  /** Whatever the stream, the graph is well-formed. */
  lemma StreamKeepsWellFormed(h: seq<Event>, fl: Floats)
    ensures WellFormed(FoldEvents(h, fl).graph)
  {
    FoldIsRun(h, fl);
    ReachableIsSafe(RunActions(h, fl), fl.parse);
  }

  lemma CleanupKeepsRunning(g: Graph, now: nat, p: NodeId)
    requires Runs(g.nodes, p)
    ensures Runs(Cleanup(g, now).nodes, p)
  {}

  /** One event with its cleanup and signals keeps a running process running. */
  lemma EventKeepsRunning(s: GraphState, e: Event, p: NodeId, fl: Floats)
    requires p.ProcessId? && Runs(Handle(s.graph, e, fl.parse).nodes, p)
    ensures Runs(FoldEvent(s, e, fl).graph.nodes, p)
  {
    var g := Handle(s.graph, e, fl.parse);
    CleanupKeepsRunning(g, e.ts, p);
    var g' := if CleanupDue(s.lastCleanup, e.ts) then Cleanup(g, e.ts) else g;
    var points := EngineStep(s.engine, DefaultRegistry, e, Extractor(fl.parse)).1;
    PublishIs(g'.nodes, ToSignalNodes(points, fl.show));
  }

  /** One more event of a stream, when the handler leaves the process running. */
  lemma StreamKeepsRunning(h: seq<Event>, e: Event, p: NodeId, fl: Floats)
    requires p.ProcessId?
    requires Runs(Handle(FoldEvents(h, fl).graph, e, fl.parse).nodes, p)
    ensures Runs(FoldEvents(h + [e], fl).graph.nodes, p)
  {
    assert (h + [e])[..|h|] == h;
    EventKeepsRunning(FoldEvents(h, fl), e, p, fl);
  }

  /** With cleanups in one piece, a started process is listed as active after every
      later stream that has no exit or zombie event of its own. */
  lemma {:induction false} StartedStaysListed(h: seq<Event>, start: Event, rest: seq<Event>, fl: Floats)
    requires start.kind.ProcessState? && start.pid.Some? && start.value == "start"
    requires forall i | 0 <= i < |rest| :: !Ends(HandleEvent(rest[i]), ProcessId(start.node, start.pid.value))
    ensures var p, nodes := ProcessId(start.node, start.pid.value), FoldEvents(h + [start] + rest, fl).graph.nodes;
            Runs(nodes, p) && p in ActiveProcesses(nodes)
  {
    var p := ProcessId(start.node, start.pid.value);
    if rest == [] {
      assert h + [start] + rest == h + [start];
      StartRuns(FoldEvents(h, fl).graph, start, fl.parse);
      StreamKeepsRunning(h, start, p, fl);
    } else {
      var front, e := h + [start] + rest[..|rest| - 1], rest[|rest| - 1];
      assert h + [start] + rest == front + [e];
      StartedStaysListed(h, start, rest[..|rest| - 1], fl);
      HandleKeepsRunning(FoldEvents(front, fl).graph, e, p, fl.parse);
      StreamKeepsRunning(front, e, p, fl);
    }
    RunningIsActive(FoldEvents(h + [start] + rest, fl).graph.nodes, p);
  }

  lemma StartRuns(g: Graph, e: Event, parse: string -> Option<real>)
    requires e.kind.ProcessState? && e.pid.Some? && e.value == "start"
    ensures Runs(Handle(g, e, parse).nodes, ProcessId(e.node, e.pid.value))
  {}

  lemma RunningIsActive(nodes: Nodes, p: NodeId)
    requires Runs(nodes, p)
    ensures p in ActiveProcesses(nodes)
  {}
}
