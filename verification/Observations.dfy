/** What the graph says about resources and processes (core/src/graph.rs): the latest that was
    observed, in every interleaving. */
module Observations {
  import opened Events
  import opened Text
  import opened Graph
  import opened EdgeLists
  import opened Interleaving
  import opened RootCause
  import opened Attribution

  // ---- resources ----

  /** The event is an observation of the resource under the given key. */
  predicate Observes(e: Event, res: NodeId, key: string) {
    match e.kind
    case ComputeUtil | ComputeMem => res == ResourceId(e.node, e.entity) && key == "util"
    case TransportBw => res == ResourceId(e.node, Carrier(e)) && key == "bw"
    case TransportDrop => res == ResourceId(e.node, Carrier(e)) && key == "drop"
    case StorageIops | StorageQDepth => res == ResourceId(e.node, Carrier(e)) && key == "unknown"
    case _ => false
  }

  /** What a transport event is about: events named after a process are about the network. */
  function Carrier(e: Event): string {
    if StartsWith(e.entity, "network-pid-") then "network" else e.entity
  }

  /** The latest observation of the resource under the key in a run, if there is one. */
  function LatestValue(actions: seq<Action>, res: NodeId, key: string): Option<string> {
    if actions == [] then None
    else
      var a := actions[|actions| - 1];
      if a.HandleEvent? && Observes(a.event, res, key) then Some(a.event.value)
      else LatestValue(actions[..|actions| - 1], res, key)
  }

  function Recorded(nodes: Nodes, id: NodeId, key: string): Option<string> {
    if id in nodes && key in nodes[id].metadata then Some(nodes[id].metadata[key]) else None
  }

  lemma HandleObserves(g: Graph, e: Event, res: NodeId, key: string, parse: string -> Option<real>)
    requires res.ResourceId?
    ensures Recorded(Handle(g, e, parse).nodes, res, key)
         == if Observes(e, res, key) then Some(e.value) else Recorded(g.nodes, res, key)
  {
    match e.kind
    case ComputeUtil | ComputeMem => ComputeObserves(g, e, res, key);
    case TransportBw | TransportDrop | StorageIops | StorageQDepth => TransportObserves(g, e, res, key, parse);
    case _ =>
  }

  lemma ComputeObserves(g: Graph, e: Event, res: NodeId, key: string)
    requires res.ResourceId? && (e.kind.ComputeUtil? || e.kind.ComputeMem?)
    ensures Recorded(HandleCompute(g, e).nodes, res, key)
         == if Observes(e, res, key) then Some(e.value) else Recorded(g.nodes, res, key)
  {}

  lemma TransportObserves(g: Graph, e: Event, res: NodeId, key: string, parse: string -> Option<real>)
    requires res.ResourceId?
    requires e.kind.TransportBw? || e.kind.TransportDrop? || e.kind.StorageIops? || e.kind.StorageQDepth?
    ensures Recorded(HandleTransport(g, e, parse).nodes, res, key)
         == if Observes(e, res, key) then Some(e.value) else Recorded(g.nodes, res, key)
  {}

  lemma NextObserves(s: System, a: Action, res: NodeId, key: string, parse: string -> Option<real>)
    requires Safe(s) && res.ResourceId?
    ensures Recorded(Next(s, a, parse).graph.nodes, res, key)
         == if a.HandleEvent? && Observes(a.event, res, key) then Some(a.event.value)
            else Recorded(s.graph.nodes, res, key)
  {
    match a
    case HandleEvent(e) => HandleObserves(s.graph, e, res, key, parse);
    case PublishSignals(points) => PublishIs(s.graph.nodes, points);
    case BeginCleanup(_) =>
    case FinishCleanup(i) =>
      assert i < |s.inFlight| ==> s.inFlight[i] in s.inFlight;
  }

  /** In every interleaving, whatever cleanups do, the graph has for every resource and key the
      value that was observed last. */
  lemma {:induction false} ObservationIsLatest(actions: seq<Action>, res: NodeId, key: string,
                                               parse: string -> Option<real>)
    requires res.ResourceId?
    ensures Recorded(Exec(Start, actions, parse).graph.nodes, res, key) == LatestValue(actions, res, key)
  {
    if actions != [] {
      var front := actions[..|actions| - 1];
      ObservationIsLatest(front, res, key, parse);
      ReachableIsSafe(front, parse);
      NextObserves(Exec(Start, front, parse), actions[|actions| - 1], res, key, parse);
    }
  }

  /** The event is an observation of the resource, under whatever key. */
  predicate Touches(e: Event, res: NodeId) {
    Observes(e, res, "util") || Observes(e, res, "bw") || Observes(e, res, "drop") || Observes(e, res, "unknown")
  }

  /** The time of the latest observation of the resource in a run, if there is one. */
  function LatestTime(actions: seq<Action>, res: NodeId): Option<nat> {
    if actions == [] then None
    else
      var a := actions[|actions| - 1];
      if a.HandleEvent? && Touches(a.event, res) then Some(a.event.ts)
      else LatestTime(actions[..|actions| - 1], res)
  }

  function Updated(nodes: Nodes, id: NodeId): Option<nat> {
    if id in nodes then Some(nodes[id].lastUpdate) else None
  }

  lemma HandleTouches(g: Graph, e: Event, res: NodeId, parse: string -> Option<real>)
    requires res.ResourceId?
    ensures Updated(Handle(g, e, parse).nodes, res) == if Touches(e, res) then Some(e.ts) else Updated(g.nodes, res)
  {}

  /** In every interleaving a resource is there if it was observed, as of its last observation. */
  lemma {:induction false} ResourceIsUpToDate(actions: seq<Action>, res: NodeId, parse: string -> Option<real>)
    requires res.ResourceId?
    ensures Updated(Exec(Start, actions, parse).graph.nodes, res) == LatestTime(actions, res)
  {
    if actions != [] {
      var front, a := actions[..|actions| - 1], actions[|actions| - 1];
      var s := Exec(Start, front, parse);
      ResourceIsUpToDate(front, res, parse);
      ReachableIsSafe(front, parse);
      match a
      case HandleEvent(e) => HandleTouches(s.graph, e, res, parse);
      case PublishSignals(points) => PublishIs(s.graph.nodes, points);
      case BeginCleanup(_) =>
      case FinishCleanup(i) =>
        assert i < |s.inFlight| ==> s.inFlight[i] in s.inFlight;
    }
  }

  // ---- processes ----

  /** A start puts the process on record as running, with its job and nothing else. */
  lemma StartIsRecorded(g: Graph, e: Event, key: string, parse: string -> Option<real>)
    requires e.kind.ProcessState? && e.pid.Some? && e.value == "start"
    ensures var p, nodes := ProcessId(e.node, e.pid.value), Handle(g, e, parse).nodes;
            && p in nodes && nodes[p].kind.Process? && nodes[p].lastUpdate == e.ts
            && Recorded(nodes, p, key) ==
               if key == "state" then Some("running") else if key == "job_id" then e.job else None
  {}

  /** A process that is first seen by a use has nothing on record; one first seen by a drop
      report is taken to be running. */
  lemma FirstSightIsRecorded(g: Graph, e: Event, p: NodeId, key: string, parse: string -> Option<real>)
    requires p.ProcessId? && p !in g.nodes && p in Handle(g, e, parse).nodes && !e.kind.ProcessState?
    ensures var nodes := Handle(g, e, parse).nodes;
            && nodes[p].kind.Process? && nodes[p].lastUpdate == e.ts
            && Recorded(nodes, p, key) == if e.kind.TransportDrop? && key == "state" then Some("running") else None
  {}

  /** An exit changes the state of a known process and keeps the rest of its record. */
  lemma EndIsRecorded(g: Graph, e: Event, key: string, parse: string -> Option<real>)
    requires e.pid.Some? && ProcessId(e.node, e.pid.value) in g.nodes
    requires Ends(HandleEvent(e), ProcessId(e.node, e.pid.value))
    ensures var p, nodes := ProcessId(e.node, e.pid.value), Handle(g, e, parse).nodes;
            && p in nodes && nodes[p].kind == g.nodes[p].kind && nodes[p].lastUpdate == e.ts
            && Recorded(nodes, p, key) == if key == "state" then Some(e.value) else Recorded(g.nodes, p, key)
  {}

  /** The action names the process. */
  predicate Names(a: Action, p: NodeId, parse: string -> Option<real>) {
    a.HandleEvent? && p.ProcessId? && a.event.node == p.ns
    && (a.event.pid == Some(p.pid) || Waiter(a.event, parse) == Some(p.pid))
  }

  predicate Gone(nodes: Nodes, p: NodeId) {
    p in nodes ==> HasExited(nodes[p])
  }

  lemma NextStaysGone(s: System, a: Action, p: NodeId, parse: string -> Option<real>)
    requires p.ProcessId? && Gone(s.graph.nodes, p) && !Names(a, p, parse)
    ensures Gone(Next(s, a, parse).graph.nodes, p)
  {
    match a
    case HandleEvent(e) => HandleStaysGone(s.graph, e, p, parse);
    case PublishSignals(points) => PublishIs(s.graph.nodes, points);
    case _ =>
  }

  lemma HandleStaysGone(g: Graph, e: Event, p: NodeId, parse: string -> Option<real>)
    requires p.ProcessId? && Gone(g.nodes, p) && !Names(HandleEvent(e), p, parse)
    ensures Gone(Handle(g, e, parse).nodes, p)
  {}

  /** After its exit or zombie event a process is not listed, in every interleaving that does
      not name it again. */
  lemma {:induction false} EndedIsNotListed(s: System, e: Event, rest: seq<Action>, p: NodeId,
                                            parse: string -> Option<real>)
    requires Ends(HandleEvent(e), p) && forall k | 0 <= k < |rest| :: !Names(rest[k], p, parse)
    ensures var nodes := Exec(Next(s, HandleEvent(e), parse), rest, parse).graph.nodes;
            Gone(nodes, p) && p !in ActiveProcesses(nodes)
  {
    if rest != [] {
      var front := rest[..|rest| - 1];
      EndedIsNotListed(s, e, front, p, parse);
      NextStaysGone(Exec(Next(s, HandleEvent(e), parse), front, parse), rest[|rest| - 1], p, parse);
    }
  }

  // ---- errors ----

  /** Exactly the error kinds, hardware, network and link failures, put an error on record,
      and under the name of their entity only. */
  lemma ErrorIsRecordedIff(g: Graph, e: Event, err: NodeId, parse: string -> Option<real>)
    requires err.ErrorId? && err !in g.nodes
    ensures err in Handle(g, e, parse).nodes <==> IsErrorKind(e.kind) && err == ErrorId(e.node, e.entity)
    ensures IsErrorKind(e.kind) <==> e.kind in {ErrorHw, ErrorNet, TopoLinkDown}
  {}

  // ---- who is shown waiting ----

  lemma FirstLink(e: Event, parse: string -> Option<real>)
    requires e.kind.TransportBw? || e.kind.TransportDrop?
    ensures var w, res := Waiter(e, parse), ResourceId(e.node, TransportEntity(e.entity));
            Handle(Empty, e, parse).edges ==
            if w.None? then [] else [Edge(WaitsOn, ProcessId(e.node, w.value), res, e.ts)]
  {}

  /** Other events, and drop reports that name no process, show nobody waiting. */
  lemma NobodyIsShown(g: Graph, e: Event, parse: string -> Option<real>)
    requires || e.kind.StorageIops? || e.kind.StorageQDepth?
             || (e.kind.TransportBw? && e.pid.None?)
             || (e.kind.TransportDrop? && e.pid.None? && !StartsWith(e.entity, "network-pid-"))
    ensures Handle(g, e, parse).edges == g.edges
  {}

  /** The first bandwidth report of a process shows it waiting if and only if it says so or its
      number is below 1. */
  lemma BandwidthShowsWaitIff(e: Event, parse: string -> Option<real>)
    requires e.kind.TransportBw? && e.pid.Some?
    ensures Report(Handle(Empty, e, parse), ProcessId(e.node, e.pid.value))
                  [WaitCause(ResourceId(e.node, TransportEntity(e.entity)))] ==
            if Contains(e.value, "IO_WAIT") || (parse(e.value).Some? && parse(e.value).value < 1.0) then 1 else 0
  {
    var p, c := ProcessId(e.node, e.pid.value), WaitCause(ResourceId(e.node, TransportEntity(e.entity)));
    FirstLink(e, parse);
    HandleKeepsWellFormed(Empty, e, parse);
    ReportIsExact(Handle(Empty, e, parse), p, c);
    var edges := Handle(Empty, e, parse).edges;
    if edges != [] {
      KeyIn(edges, edges[0]);
    }
  }

  /** The first drop report shows its process waiting, if it has one other than 0. */
  lemma DropShowsWaitIff(e: Event, pid: nat, parse: string -> Option<real>)
    requires e.kind.TransportDrop? && e.pid == Some(pid)
    ensures Report(Handle(Empty, e, parse), ProcessId(e.node, pid))
                  [WaitCause(ResourceId(e.node, TransportEntity(e.entity)))] == if pid > 0 then 1 else 0
  {
    var c := WaitCause(ResourceId(e.node, TransportEntity(e.entity)));
    FirstLink(e, parse);
    HandleKeepsWellFormed(Empty, e, parse);
    ReportIsExact(Handle(Empty, e, parse), ProcessId(e.node, pid), c);
    var edges := Handle(Empty, e, parse).edges;
    if edges != [] {
      KeyIn(edges, edges[0]);
    }
  }
}
