/** The hub with its real graph: what delivery and recovery mean for the causal graph
    (hub/src/main.rs, core/src/graph.rs). */
module Pipeline {
  import opened Events
  import opened Dedup
  import opened Forwarder
  import opened Wal
  import opened Hub
  import opened Recovery
  import opened Crashes
  import opened Delivery
  import Interleaving
  import Attribution
  import Graph
  import Signals
  import opened StateGraph

  type Nodes = Graph.Nodes

  function Fold(fl: Floats): (GraphState, Event) -> GraphState {
    (g: GraphState, e: Event) => FoldEvent(g, e, fl)
  }

  /** The hub's settings around the state graph. */
  datatype Settings = Settings(floats: Floats, fp: Fingerprint, window: nat, bufferSize: nat, codec: Codec)

  function GraphHub(s: Settings): Config<GraphState> {
    Config(NewGraph, Fold(s.floats), s.fp, s.window, s.bufferSize, s.codec)
  }

  lemma {:induction false} FoldsAgree(events: seq<Event>, s: Settings)
    ensures FoldGraph(events, GraphHub(s)) == Attribution.FoldEvents(events, s.floats)
  {
    if events != [] {
      FoldsAgree(events[..|events| - 1], s);
    }
  }

  /** From the agents' probes to the graph: after any run of the forwarder over any
      network, the hub's graph is well-formed and is the graph of a stream that holds
      each acknowledged event once and no event twice. */
  lemma DeliveredGraph(events: seq<Event>, l: Link, s: Settings)
    requires WithinWindow(events, s.window) && InjectiveStamped(events, l.node, s.fp)
    ensures var r := ForwardAll(events, l);
            var graph := Live(r.0.trace.wire, GraphHub(s)).graph;
            var taken := Taken(r.0.trace.wire, GraphHub(s));
            && graph == Attribution.FoldEvents(taken, s.floats)
            && Interleaving.WellFormed(graph.graph)
            && |r.1| == |events|
            && (forall i | 0 <= i < |events| && r.1[i] :: multiset(taken)[Stamp(events[i], l.node)] == 1)
            && (forall x :: multiset(taken)[x] <= 1)
  {
    var wire := ForwardAll(events, l).0.trace.wire;
    var taken := Taken(wire, GraphHub(s));
    ExactlyOnce(events, l, GraphHub(s));
    GraphOf(wire, s);
    RunDelivers(events, l);
    WireWithin(wire, events, l.node, s.window, s.fp);
    TakenOnce(wire, s);
  }

  // ---- whose nodes they are ----

  /** Everything in the graph is of one agent. */
  predicate AllOf(nodes: Nodes, node: string) {
    forall id | id in nodes :: if id.SignalId? then id.owner == node else id.ns == Some(node)
  }

  lemma HandleIsOf(g: Graph.Graph, e: Event, node: string, parse: string -> Option<real>)
    requires AllOf(g.nodes, node) && e.node == Some(node)
    ensures AllOf(Graph.Handle(g, e, parse).nodes, node)
  {}

  lemma {:induction false} PointsAreOf(g: Signals.Engine, specs: seq<Signals.SignalSpec>, e: Event, node: string,
                                       extract: Signals.Extract)
    requires e.node == Some(node)
    ensures forall p | p in Signals.EngineStep(g, specs, e, extract).1 :: p.entity == node
  {
    if specs != [] {
      PointsAreOf(g, specs[..|specs| - 1], e, node, extract);
    }
  }

  lemma {:induction false} PublishIsOf(nodes: Nodes, points: seq<Graph.SignalNode>, node: string)
    requires AllOf(nodes, node) && forall p | p in points :: p.owner == node
    ensures AllOf(Graph.Publish(nodes, points), node)
  {
    if points != [] {
      assert points[|points| - 1] in points;
      PublishIsOf(nodes, points[..|points| - 1], node);
    }
  }

  lemma FoldIsOf(g: GraphState, e: Event, node: string, fl: Floats)
    requires AllOf(g.graph.nodes, node) && e.node == Some(node)
    ensures AllOf(FoldEvent(g, e, fl).graph.nodes, node)
  {
    var h := Graph.Handle(g.graph, e, fl.parse);
    var h' := if CleanupDue(g.lastCleanup, e.ts) then Cleanup(h, e.ts) else h;
    var points := Signals.EngineStep(g.engine, Signals.DefaultRegistry, e, Signals.Extractor(fl.parse)).1;
    HandleIsOf(g.graph, e, node, fl.parse);
    PointsAreOf(g.engine, Signals.DefaultRegistry, e, node, Signals.Extractor(fl.parse));
    PublishIsOf(h'.nodes, ToSignalNodes(points, fl.show), node);
  }

  lemma {:induction false} StreamIsOf(h: seq<Event>, node: string, fl: Floats)
    requires forall e | e in h :: e.node == Some(node)
    ensures AllOf(Attribution.FoldEvents(h, fl).graph.nodes, node)
  {
    if h != [] {
      assert h[|h| - 1] in h;
      StreamIsOf(h[..|h| - 1], node, fl);
      FoldIsOf(Attribution.FoldEvents(h[..|h| - 1], fl), h[|h| - 1], node, fl);
    }
  }

  /** Whatever the network does and whatever node ids the events had, everything an agent
      delivers is in the graph under the agent's own name. */
  lemma DeliveredUnderOwnName(events: seq<Event>, l: Link, s: Settings)
    ensures AllOf(Live(ForwardAll(events, l).0.trace.wire, GraphHub(s)).graph.graph.nodes, l.node)
  {
    var wire := ForwardAll(events, l).0.trace.wire;
    var taken := Taken(wire, GraphHub(s));
    RunDelivers(events, l);
    GraphOf(wire, s);
    TakenIsPart(wire, GraphHub(s));
    forall x | x in taken ensures x.node == Some(l.node) {
      assert StampedFrom(x, events, l.node);
    }
    StreamIsOf(taken, l.node, s.floats);
  }

  lemma {:induction false} TakenIsPart<G>(h: seq<Event>, cfg: Config<G>)
    ensures forall e | e in Taken(h, cfg) :: e in h
  {
    if h != [] {
      TakenIsPart(h[..|h| - 1], cfg);
    }
  }

  /** After any number of crashes that lost no logged line, graph, buffer and store are
      those of the hub that never crashed, and the graph is well-formed. */
  lemma RecoveredGraph(steps: seq<Step>, s: Settings, limit: nat)
    requires Faithful(s.codec)
    requires NoneTooLate(Offered(steps), s.window) && OneTsPerKey(Offered(steps), s.fp)
    requires Run(steps, GraphHub(s), limit).first == 0
    ensures var m := Run(steps, GraphHub(s), limit).memory;
            && m == Live(Survivors(steps), GraphHub(s))
            && m.graph == Attribution.FoldEvents(Taken(Survivors(steps), GraphHub(s)), s.floats)
            && Interleaving.WellFormed(m.graph.graph)
  {
    OfferedIsSafe(steps, s.window, s.fp);
    CrashesAreInvisible(steps, GraphHub(s), limit);
    GraphOf(Survivors(steps), s);
  }

  lemma GraphOf(h: seq<Event>, s: Settings)
    ensures var taken, graph := Taken(h, GraphHub(s)), Live(h, GraphHub(s)).graph;
            graph == Attribution.FoldEvents(taken, s.floats) && Interleaving.WellFormed(graph.graph)
  {
    var taken := Taken(h, GraphHub(s));
    GraphIsFold(h, GraphHub(s));
    FoldsAgree(taken, s);
    Attribution.StreamKeepsWellFormed(taken, s.floats);
  }

  // ---- any network and any crashes together ----

  /** Events that are all from one wire: they lie within a window and their keys tell
      them apart. */
  lemma PartOfWire(h: seq<Event>, wire: seq<Event>, window: nat, fp: Fingerprint)
    requires WithinWindow(wire, window) && InjectiveOn(wire, fp) && forall x | x in h :: x in wire
    ensures WithinWindow(h, window) && InjectiveOn(h, fp)
  {
    forall i, j | 0 <= i < |h| && 0 <= j < |h| ensures h[i].ts <= h[j].ts + window {
      assert h[i] in wire && h[j] in wire;
    }
  }

  /** A hub that has crashed in any way: no event is in its graph twice. */
  lemma CrashedOnce(steps: seq<Step>, s: Settings, limit: nat)
    requires Faithful(s.codec) && WithinWindow(Offered(steps), s.window) && InjectiveOn(Offered(steps), s.fp)
    ensures var hub, base := Run(steps, GraphHub(s), limit), Base(steps, GraphHub(s), limit);
            && base <= hub.first <= |hub.log|
            && hub.memory.graph == Attribution.FoldEvents(hub.log[base..], s.floats)
            && Interleaving.WellFormed(hub.memory.graph.graph)
            && (forall x :: multiset(hub.log[base..])[x] <= 1)
            && (forall x | x in hub.log[base..] :: x in Offered(steps))
  {
    var h := Heard(steps, GraphHub(s), limit);
    HeardIs(steps, GraphHub(s), limit);
    GraphOf(h, s);
    PartOfWire(h, Offered(steps), s.window, s.fp);
    TakenOnce(h, s);
  }

  lemma TakenOnce(h: seq<Event>, s: Settings)
    requires WithinWindow(h, s.window) && InjectiveOn(h, s.fp)
    ensures forall x :: multiset(Taken(h, GraphHub(s)))[x] == if x in h then 1 else 0
    ensures forall x | x in Taken(h, GraphHub(s)) :: x in h
  {
    forall x ensures multiset(Taken(h, GraphHub(s)))[x] == if x in h then 1 else 0 {
      EachOnce(h, x, GraphHub(s));
    }
    forall x | x in Taken(h, GraphHub(s)) ensures x in h {
      assert x in multiset(Taken(h, GraphHub(s)));
    }
  }

  /** A hub that lost no logged line: what survived is in its log exactly once. */
  lemma SurvivorsOnce(steps: seq<Step>, x: Event, s: Settings, limit: nat)
    requires Faithful(s.codec) && WithinWindow(Offered(steps), s.window) && InjectiveOn(Offered(steps), s.fp)
    requires Run(steps, GraphHub(s), limit).first == 0
    ensures multiset(Run(steps, GraphHub(s), limit).log)[x] == if x in Survivors(steps) then 1 else 0
  {
    OfferedIsSafe(steps, s.window, s.fp);
    CrashesAreInvisible(steps, GraphHub(s), limit);
    SurvivorsAreOffered(steps);
    PartOfWire(Survivors(steps), Offered(steps), s.window, s.fp);
    EachOnce(Survivors(steps), x, GraphHub(s));
  }

  /** End to end. The forwarder runs over any network; the hub receives what is on the
      wire and crashes at any points of its appends, any number of times. Its graph is
      then the well-formed graph of a part of its log that holds nothing but offered
      events, none twice. If rotation has thrown no line away, that part is the whole
      log, and every event whose call returned Ok is in it exactly once, unless a crash
      prevented its line. */
  lemma DeliveredDespiteCrashes(events: seq<Event>, l: Link, steps: seq<Step>, s: Settings, limit: nat)
    requires Faithful(s.codec) && WithinWindow(events, s.window) && InjectiveStamped(events, l.node, s.fp)
    requires Offered(steps) == ForwardAll(events, l).0.trace.wire
    ensures var r, hub := ForwardAll(events, l), Run(steps, GraphHub(s), limit);
            var base := Base(steps, GraphHub(s), limit);
            && |r.1| == |events| && base <= hub.first <= |hub.log|
            && hub.memory.graph == Attribution.FoldEvents(hub.log[base..], s.floats)
            && Interleaving.WellFormed(hub.memory.graph.graph)
            && (forall x :: multiset(hub.log[base..])[x] <= 1)
            && (forall x | x in hub.log[base..] :: StampedFrom(x, events, l.node))
            && (hub.first == 0 ==> forall i | 0 <= i < |events| && r.1[i] ::
                  || multiset(hub.log[base..])[Stamp(events[i], l.node)] == 1
                  || exists k | 0 <= k < |steps| :: Prevents(steps[k], Stamp(events[i], l.node)))
  {
    var r, hub := ForwardAll(events, l), Run(steps, GraphHub(s), limit);
    RunDelivers(events, l);
    WireWithin(r.0.trace.wire, events, l.node, s.window, s.fp);
    CrashedOnce(steps, s, limit);
    if hub.first == 0 {
      assert hub.log[0..] == hub.log;
      forall i | 0 <= i < |events| && r.1[i]
        ensures || multiset(hub.log)[Stamp(events[i], l.node)] == 1
                || exists k | 0 <= k < |steps| :: Prevents(steps[k], Stamp(events[i], l.node))
      {
        SurvivesOrPrevented(steps, Stamp(events[i], l.node));
        SurvivorsOnce(steps, Stamp(events[i], l.node), s, limit);
      }
    }
  }
}
