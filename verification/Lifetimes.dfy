/** How long things stay in the graph (core/src/graph.rs): over whole streams of events, with
    the cleanups that come with them. */
module Lifetimes {
  import opened Events
  import opened Graph
  import opened EdgeLists
  import opened Interleaving
  import opened Signals
  import opened StateGraph
  import opened Attribution
  import Dedup

  // ---- how long something stays at least ----

  /** The graph right after the cleanup of an event, before its signals. */
  function Cleaned(s: GraphState, e: Event, fl: Floats): Graph {
    var g := Handle(s.graph, e, fl.parse);
    if CleanupDue(s.lastCleanup, e.ts) then Cleanup(g, e.ts) else g
  }

  lemma FoldNodes(s: GraphState, e: Event, id: NodeId, fl: Floats)
    requires !id.SignalId?
    ensures var g, nodes := Cleaned(s, e, fl), FoldEvent(s, e, fl).graph.nodes;
            (id in nodes <==> id in g.nodes) && (id in nodes ==> nodes[id] == g.nodes[id])
    ensures FoldEvent(s, e, fl).graph.edges == Cleaned(s, e, fl).edges
  {
    var points := EngineStep(s.engine, DefaultRegistry, e, Extractor(fl.parse)).1;
    PublishIs(Cleaned(s, e, fl).nodes, ToSignalNodes(points, fl.show));
  }

  /** The error is on record as `first` made it. */
  predicate OnRecord(nodes: Nodes, first: Event) {
    ErrorOf(first) in nodes && nodes[ErrorOf(first)] == Node(Error, first.ts, map["error_type" := first.value])
  }

  lemma ErrorIsMade(g: Graph, first: Event, parse: string -> Option<real>)
    requires IsErrorKind(first.kind) && ErrorOf(first) !in g.nodes
    ensures OnRecord(Handle(g, first, parse).nodes, first)
  {}

  lemma HandleKeepsRecord(g: Graph, e: Event, first: Event, parse: string -> Option<real>)
    requires WellFormed(g) && OnRecord(g.nodes, first)
    ensures OnRecord(Handle(g, e, parse).nodes, first)
  {
    HandleKeepsWellFormed(g, e, parse);
    ErrorNodeIsFrozen(System(g, []), HandleEvent(e), ErrorOf(first), parse);
  }

  lemma FoldNext(h: seq<Event>, e: Event, fl: Floats)
    ensures FoldEvents(h + [e], fl) == FoldEvent(FoldEvents(h, fl), e, fl)
  {
    assert (h + [e])[..|h|] == h;
  }

  /** The cleanup and the signals of an event at most 300 seconds later leave it on record. */
  lemma CleanupKeepsRecord(g: Graph, now: nat, first: Event)
    requires OnRecord(g.nodes, first) && now <= first.ts + 300_000
    ensures OnRecord(Cleanup(g, now).nodes, first)
  {}

  lemma EventKeepsRecord(s: GraphState, e: Event, first: Event, fl: Floats)
    requires OnRecord(Handle(s.graph, e, fl.parse).nodes, first) && e.ts <= first.ts + 300_000
    ensures OnRecord(FoldEvent(s, e, fl).graph.nodes, first)
  {
    CleanupKeepsRecord(Handle(s.graph, e, fl.parse), e.ts, first);
    FoldNodes(s, e, ErrorOf(first), fl);
  }

  lemma RecordStays(s: GraphState, e: Event, first: Event, fl: Floats)
    requires WellFormed(s.graph) && OnRecord(s.graph.nodes, first) && e.ts <= first.ts + 300_000
    ensures OnRecord(FoldEvent(s, e, fl).graph.nodes, first)
  {
    HandleKeepsRecord(s.graph, e, first, fl.parse);
    EventKeepsRecord(s, e, first, fl);
  }

  lemma {:induction false} RecordStaysThrough(h: seq<Event>, rest: seq<Event>, first: Event, fl: Floats)
    requires OnRecord(FoldEvents(h, fl).graph.nodes, first) && forall e | e in rest :: e.ts <= first.ts + 300_000
    ensures OnRecord(FoldEvents(h + rest, fl).graph.nodes, first)
    decreases |rest|
  {
    if rest == [] {
      assert h + rest == h;
    } else {
      var e := rest[0];
      assert h + rest == (h + [e]) + rest[1..] && e in rest;
      StreamKeepsWellFormed(h, fl);
      RecordStays(FoldEvents(h, fl), e, first, fl);
      FoldNext(h, e, fl);
      RecordStaysThrough(h + [e], rest[1..], first, fl);
    }
  }

  /** An error is on record, with its type and time, after every stream of events up to 300
      seconds later. */
  lemma ErrorStaysInWindow(h: seq<Event>, first: Event, rest: seq<Event>, fl: Floats)
    requires IsErrorKind(first.kind) && ErrorOf(first) !in FoldEvents(h, fl).graph.nodes
    requires forall e | e in rest :: e.ts <= first.ts + 300_000
    ensures OnRecord(FoldEvents(h + [first] + rest, fl).graph.nodes, first)
  {
    ErrorIsMade(FoldEvents(h, fl).graph, first, fl.parse);
    EventKeepsRecord(FoldEvents(h, fl), first, first, fl);
    FoldNext(h, first, fl);
    RecordStaysThrough(h + [first], rest, first, fl);
  }

  /** The process has not exited, and runs or was noted at `t`. */
  predicate Noted(nodes: Nodes, p: NodeId, t: nat) {
    && p in nodes && nodes[p].kind.Process? && !HasExited(nodes[p])
    && (State(nodes[p]) == Some("running") || nodes[p].lastUpdate == t)
  }

  lemma HandleKeepsNoted(g: Graph, e: Event, p: NodeId, t: nat, parse: string -> Option<real>)
    requires p.ProcessId? && Noted(g.nodes, p, t) && !Ends(HandleEvent(e), p)
    ensures Noted(Handle(g, e, parse).nodes, p, t)
  {}

  /** The cleanup and the signals of an event at most 600 seconds later leave it noted. */
  lemma EventKeepsNoted(s: GraphState, e: Event, p: NodeId, t: nat, fl: Floats)
    requires p.ProcessId? && Noted(Handle(s.graph, e, fl.parse).nodes, p, t) && e.ts <= t + 600_000
    ensures Noted(FoldEvent(s, e, fl).graph.nodes, p, t)
  {
    FoldNodes(s, e, p, fl);
  }

  lemma UseIsNoted(g: Graph, use: Event, p: NodeId, parse: string -> Option<real>)
    requires (use.kind.ComputeUtil? || use.kind.ComputeMem?) && use.pid.Some? && p == ProcessId(use.node, use.pid.value)
    requires p !in g.nodes
    ensures Noted(Handle(g, use, parse).nodes, p, use.ts)
  {
    assert Handle(g, use, parse).nodes[p] == Node(Process, use.ts, map[]);
  }

  lemma {:induction false} NotedThrough(h: seq<Event>, rest: seq<Event>, p: NodeId, t: nat, fl: Floats)
    requires p.ProcessId? && Noted(FoldEvents(h, fl).graph.nodes, p, t)
    requires forall e | e in rest :: e.ts <= t + 600_000 && !Ends(HandleEvent(e), p)
    ensures Noted(FoldEvents(h + rest, fl).graph.nodes, p, t)
    decreases |rest|
  {
    if rest == [] {
      assert h + rest == h;
    } else {
      var e := rest[0];
      assert h + rest == (h + [e]) + rest[1..] && e in rest;
      HandleKeepsNoted(FoldEvents(h, fl).graph, e, p, t, fl.parse);
      EventKeepsNoted(FoldEvents(h, fl), e, p, t, fl);
      FoldNext(h, e, fl);
      NotedThrough(h + [e], rest[1..], p, t, fl);
    }
  }

  /** A process that a use has brought into the graph, never seen to start, is there after
      every stream of events up to 600 seconds later without its exit. */
  lemma SilentProcessStays(h: seq<Event>, use: Event, rest: seq<Event>, p: NodeId, fl: Floats)
    requires (use.kind.ComputeUtil? || use.kind.ComputeMem?) && use.pid.Some? && p == ProcessId(use.node, use.pid.value)
    requires p !in FoldEvents(h, fl).graph.nodes
    requires forall e | e in rest :: e.ts <= use.ts + 600_000 && !Ends(HandleEvent(e), p)
    ensures Noted(FoldEvents(h + [use] + rest, fl).graph.nodes, p, use.ts)
  {
    UseIsNoted(FoldEvents(h, fl).graph, use, p, fl.parse);
    EventKeepsNoted(FoldEvents(h, fl), use, p, use.ts, fl);
    FoldNext(h, use, fl);
    NotedThrough(h + [use], rest, p, use.ts, fl);
  }

  // ---- how long at most ----

  /** What a cleanup at `now` leaves of the nodes. */
  predicate NodesClean(nodes: Nodes, now: nat) {
    && (forall id | id in nodes && nodes[id].kind.Error? :: now <= nodes[id].lastUpdate + 300_000)
    && (forall id | id in nodes && nodes[id].kind.Process? && HasExited(nodes[id]) :: now <= nodes[id].lastUpdate)
    && (forall id | id in nodes && nodes[id].kind.Process? && State(nodes[id]) != Some("running") ::
          now <= nodes[id].lastUpdate + 600_000)
  }

  /** What it leaves of the edges. */
  predicate EdgesClean(edges: seq<Edge>, now: nat) {
    forall e | e in edges :: now <= e.ts + 3_600_000
  }

  predicate CleanAsOf(g: Graph, now: nat) {
    NodesClean(g.nodes, now) && EdgesClean(g.edges, now)
  }

  lemma CleanupCleans(g: Graph, now: nat)
    requires WellFormed(g)
    ensures CleanAsOf(Cleanup(g, now), now)
  {
    CleanupBounds(g, TakeSnapshot(g.nodes, now));
  }

  /** A handler whose clock is not behind the last cleanup adds nothing older. */
  lemma HandleStaysClean(g: Graph, e: Event, now: nat, parse: string -> Option<real>)
    requires WellFormed(g) && CleanAsOf(g, now) && now <= e.ts
    ensures CleanAsOf(Handle(g, e, parse), now)
  {
    match e.kind
    case ComputeUtil | ComputeMem => ComputeStaysClean(g, e, now);
    case TransportBw | TransportDrop | StorageIops | StorageQDepth => TransportStaysClean(g, e, now, parse);
    case ErrorHw | ErrorNet | TopoLinkDown => ErrorStaysClean(g, e, now);
    case _ =>
  }

  lemma EnsureStaysClean(nodes: Nodes, id: NodeId, kind: NodeKind, ts: nat, metadata: map<string, string>, now: nat)
    requires NodesClean(nodes, now) && now <= ts
    ensures NodesClean(EnsureNode(nodes, id, kind, ts, metadata), now)
  {}

  lemma ObserveStaysClean(nodes: Nodes, id: NodeId, ts: nat, key: string, value: string, now: nat)
    requires NodesClean(nodes, now) && TypedNodes(nodes) && id.ResourceId? && now <= ts
    ensures NodesClean(Observe(nodes, id, ts, key, value), now)
  {}

  lemma LinkStaysClean(edges: seq<Edge>, e: Edge, now: nat)
    requires DistinctKeys(edges) && EdgesClean(edges, now) && now <= e.ts
    ensures EdgesClean(Upsert(edges, e), now)
  {
    UpsertKeeps(edges, e);
  }

  lemma ComputeStaysClean(g: Graph, e: Event, now: nat)
    requires WellFormed(g) && CleanAsOf(g, now) && now <= e.ts
    ensures CleanAsOf(HandleCompute(g, e), now)
  {
    var res := ResourceId(e.node, e.entity);
    ObserveStaysClean(g.nodes, res, e.ts, "util", e.value, now);
    if e.pid.Some? {
      var proc := ProcessId(e.node, e.pid.value);
      EnsureStaysClean(Observe(g.nodes, res, e.ts, "util", e.value), proc, Process, e.ts, map[], now);
      LinkStaysClean(g.edges, Edge(Consumes, proc, res, e.ts), now);
    }
  }

  lemma TransportStaysClean(g: Graph, e: Event, now: nat, parse: string -> Option<real>)
    requires WellFormed(g) && CleanAsOf(g, now) && now <= e.ts
    ensures CleanAsOf(HandleTransport(g, e, parse), now)
  {
    var res, key, w := ResourceId(e.node, TransportEntity(e.entity)), TransportKey(e.kind), Waiter(e, parse);
    ObserveStaysClean(g.nodes, res, e.ts, key, e.value, now);
    if w.Some? {
      var proc := ProcessId(e.node, w.value);
      EnsureStaysClean(Observe(g.nodes, res, e.ts, key, e.value), proc, Process, e.ts,
                       if e.kind.TransportDrop? then map["state" := "running"] else map[], now);
      LinkStaysClean(g.edges, Edge(WaitsOn, proc, res, e.ts), now);
    }
  }

  lemma ErrorStaysClean(g: Graph, e: Event, now: nat)
    requires WellFormed(g) && CleanAsOf(g, now) && now <= e.ts
    ensures CleanAsOf(HandleError(g, e), now)
  {
    EnsureStaysClean(g.nodes, ErrorOf(e), Error, e.ts, map["error_type" := e.value], now);
    BlockAllKeeps(g.edges, Consumers(g.edges, ResourceId(e.node, e.entity)), ErrorOf(e), e.ts);
  }

  /** What holds of a graph after a stream whose last event was at `now`. */
  predicate Tended(s: GraphState, now: nat) {
    s.lastCleanup <= now < s.lastCleanup + 30_000 && CleanAsOf(s.graph, s.lastCleanup)
  }

  lemma SignalsKeepClean(s: GraphState, e: Event, now: nat, fl: Floats)
    requires WellFormed(s.graph) && WellFormed(Cleaned(s, e, fl)) && CleanAsOf(Cleaned(s, e, fl), now)
    ensures CleanAsOf(FoldEvent(s, e, fl).graph, now)
  {
    var points := EngineStep(s.engine, DefaultRegistry, e, Extractor(fl.parse)).1;
    PublishIs(Cleaned(s, e, fl).nodes, ToSignalNodes(points, fl.show));
  }

  lemma EventTends(s: GraphState, e: Event, fl: Floats)
    requires WellFormed(s.graph) && (s.lastCleanup == 0 || Tended(s, s.lastCleanup)) && s.lastCleanup <= e.ts
    requires CleanAsOf(s.graph, s.lastCleanup)
    ensures Tended(FoldEvent(s, e, fl), e.ts)
  {
    var g := Handle(s.graph, e, fl.parse);
    HandleKeepsWellFormed(s.graph, e, fl.parse);
    HandleStaysClean(s.graph, e, s.lastCleanup, fl.parse);
    if CleanupDue(s.lastCleanup, e.ts) {
      CleanupKeepsWellFormed(g, TakeSnapshot(g.nodes, e.ts));
      CleanupCleans(g, e.ts);
      SignalsKeepClean(s, e, e.ts, fl);
    } else {
      SignalsKeepClean(s, e, s.lastCleanup, fl);
    }
  }

  lemma {:induction false} StreamIsTended(h: seq<Event>, fl: Floats)
    requires h != [] && Dedup.Ordered(h)
    ensures Tended(FoldEvents(h, fl), h[|h| - 1].ts)
  {
    var front, e := h[..|h| - 1], h[|h| - 1];
    StreamKeepsWellFormed(front, fl);
    if front != [] {
      StreamIsTended(front, fl);
      assert front[|front| - 1].ts <= e.ts;
    }
    EventTends(FoldEvents(front, fl), e, fl);
  }

  /** After every stream in time order, as of its last event at `now`: a cleanup is less than
      30 seconds back; every error is less than 330 seconds old; an exited process exited
      less than 30 seconds ago; a process not known to run was noted less than 630 seconds
      ago; every edge was made less than an hour and 30 seconds ago. */
  lemma NothingIsOld(h: seq<Event>, fl: Floats)
    requires h != [] && Dedup.Ordered(h)
    ensures var now, g := h[|h| - 1].ts, FoldEvents(h, fl).graph;
            && now < FoldEvents(h, fl).lastCleanup + 30_000
            && (forall id | id in g.nodes && g.nodes[id].kind.Error? :: now < g.nodes[id].lastUpdate + 330_000)
            && (forall id | id in g.nodes && g.nodes[id].kind.Process? && HasExited(g.nodes[id]) ::
                  now < g.nodes[id].lastUpdate + 30_000)
            && (forall id | id in g.nodes && g.nodes[id].kind.Process? && State(g.nodes[id]) != Some("running") ::
                  now < g.nodes[id].lastUpdate + 630_000)
            && (forall e | e in g.edges :: now < e.ts + 3_630_000)
  {
    StreamIsTended(h, fl);
  }

  /** The first event with a cleanup more than 300 seconds after an error was made takes the
      error away, with everything that was blocked by it, even if it repeats the error. */
  lemma StaleErrorGoes(s: GraphState, e: Event, err: NodeId, fl: Floats)
    requires WellFormed(s.graph) && err.ErrorId? && err in s.graph.nodes
    requires e.ts > s.graph.nodes[err].lastUpdate + 300_000
    requires s.lastCleanup == 0 || e.ts >= s.lastCleanup + 30_000
    ensures var g := FoldEvent(s, e, fl).graph; err !in g.nodes && forall x | x in g.edges :: x.to != err
  {
    var g := Handle(s.graph, e, fl.parse);
    HandleKeepsWellFormed(s.graph, e, fl.parse);
    ErrorNodeIsFrozen(System(s.graph, []), HandleEvent(e), err, fl.parse);
    var c := Cleaned(s, e, fl);
    CleanupBounds(g, TakeSnapshot(g.nodes, e.ts));
    assert err in g.nodes && g.nodes[err] == s.graph.nodes[err];
    CleanupKeepsWellFormed(g, TakeSnapshot(g.nodes, e.ts));
    FoldNodes(s, e, err, fl);
    forall x | x in c.edges ensures x.to != err {
      assert TypedEdge(x, c.nodes);
    }
  }

  /** The first event with a cleanup more than 600 seconds after a process was noted that is
      not known to run takes it away, unless it starts it. */
  lemma SilentProcessGoes(s: GraphState, e: Event, p: NodeId, fl: Floats)
    requires WellFormed(s.graph) && p.ProcessId? && p in s.graph.nodes && State(s.graph.nodes[p]) != Some("running")
    requires e.ts > s.graph.nodes[p].lastUpdate + 600_000
    requires s.lastCleanup == 0 || e.ts >= s.lastCleanup + 30_000
    requires !(e.kind.ProcessState? && e.value == "start")
    ensures p !in FoldEvent(s, e, fl).graph.nodes
  {
    FoldNodes(s, e, p, fl);
    StillSilent(s.graph, e, p, fl.parse);
  }

  lemma StillSilent(g: Graph, e: Event, p: NodeId, parse: string -> Option<real>)
    requires WellFormed(g) && p.ProcessId? && p in g.nodes && State(g.nodes[p]) != Some("running")
    requires !(e.kind.ProcessState? && e.value == "start")
    ensures var nodes := Handle(g, e, parse).nodes;
            && p in nodes && nodes[p].kind.Process?
            && (HasExited(nodes[p]) || (State(nodes[p]) != Some("running") && nodes[p] == g.nodes[p]))
  {}

  /** The first event with a cleanup after a process has exited takes it away. */
  lemma ExitedProcessGoes(s: GraphState, e: Event, p: NodeId, fl: Floats)
    requires WellFormed(s.graph) && p.ProcessId? && p in s.graph.nodes && HasExited(s.graph.nodes[p])
    requires s.lastCleanup == 0 || e.ts >= s.lastCleanup + 30_000
    requires !(e.kind.ProcessState? && e.value == "start")
    ensures p !in FoldEvent(s, e, fl).graph.nodes
  {
    FoldNodes(s, e, p, fl);
    StillSilent(s.graph, e, p, fl.parse);
  }

  /** Less than 30 seconds after a cleanup nothing is taken away. */
  lemma NothingGoesBetween(s: GraphState, e: Event, fl: Floats)
    requires WellFormed(s.graph) && 0 < s.lastCleanup && e.ts < s.lastCleanup + 30_000
    ensures var g := FoldEvent(s, e, fl).graph;
            s.graph.nodes.Keys <= g.nodes.Keys && s.graph.edges <= g.edges
  {
    HandleKeepsWellFormed(s.graph, e, fl.parse);
    HandleKeepsEdges(s.graph, e, fl.parse);
    var points := EngineStep(s.engine, DefaultRegistry, e, Extractor(fl.parse)).1;
    PublishIs(Cleaned(s, e, fl).nodes, ToSignalNodes(points, fl.show));
  }
}
