/** What the signals report (core/src/signals/signal.rs, core/src/graph.rs): from a stream of
    events to the numbers on the signal nodes of the graph. */
module Emissions {
  import opened Events
  import opened Text
  import opened Graph
  import opened Interleaving
  import opened Signals
  import opened StateGraph
  import opened Attribution
  import Dedup

  // ---- what is to be reported ----

  /** The samples at most a window before `now`. */
  function Recent(xs: seq<Sample>, now: nat, windowMs: nat): seq<Sample> {
    if xs == [] then []
    else
      var x := xs[|xs| - 1];
      Recent(xs[..|xs| - 1], now, windowMs) + (if now <= x.ts + windowMs then [x] else [])
  }

  /** A counter reports samples per second, a gauge their mean. */
  function ValueOf(spec: SignalSpec, xs: seq<Sample>): real {
    if spec.aggregator.CounterRate? then |xs| as real * 1000.0 / spec.windowMs as real
    else if xs == [] then 0.0
    else SumOf(xs) / |xs| as real
  }

  /** What a history of samples makes a signal report: at each sample, unless it reported
      less than a step before, the value of the window that ends there. */
  function Reported(spec: SignalSpec, xs: seq<Sample>): seq<Sample> {
    if xs == [] then []
    else
      var out, x := Reported(spec, xs[..|xs| - 1]), xs[|xs| - 1];
      if forall o | o in out :: o.ts + spec.stepMs <= x.ts
      then out + [Sample(x.ts, ValueOf(spec, Recent(xs, x.ts, spec.windowMs)))]
      else out
  }

  // ---- a cell reports exactly that ----

  lemma {:induction false} RecentIsWindow(xs: seq<Sample>, now: nat, windowMs: nat)
    ensures Recent(xs, now, windowMs) == InWindow(xs, SatSub(now, windowMs))
  {
    if xs != [] {
      RecentIsWindow(xs[..|xs| - 1], now, windowMs);
    }
  }

  /** The cell remembers its last emission, and emissions of ordered samples are ordered. */
  lemma {:induction false} LastIs(spec: SignalSpec, xs: seq<Sample>)
    ensures var r := FeedAll(spec, xs); r.0.last == if r.1 == [] then None else Some(r.1[|r.1| - 1].ts)
  {
    if xs != [] {
      LastIs(spec, xs[..|xs| - 1]);
    }
  }

  lemma {:induction false} EmittedEarlier(spec: SignalSpec, xs: seq<Sample>)
    requires Signals.Ordered(xs)
    ensures var out := FeedAll(spec, xs).1;
            Signals.Ordered(out) && forall o | o in out :: xs != [] && o.ts <= xs[|xs| - 1].ts
  {
    if xs != [] {
      var front, x := xs[..|xs| - 1], xs[|xs| - 1];
      EmittedEarlier(spec, front);
      var out := FeedAll(spec, front).1;
      forall o | o in out ensures o.ts <= x.ts {
        assert front[|front| - 1].ts <= x.ts;
      }
    }
  }

  /** A sample is due exactly when nothing was emitted less than a step before it. */
  lemma DueIff(spec: SignalSpec, xs: seq<Sample>, x: Sample)
    requires Signals.Ordered(xs + [x])
    ensures var r := FeedAll(spec, xs);
            Due(r.0.last, x.ts, spec.stepMs) <==> forall o | o in r.1 :: o.ts + spec.stepMs <= x.ts
  {
    var out := FeedAll(spec, xs).1;
    assert forall i, j | 0 <= i < j < |xs| :: xs[i] == (xs + [x])[i] && xs[j] == (xs + [x])[j];
    assert xs != [] ==> (xs + [x])[|xs| - 1].ts <= (xs + [x])[|xs|].ts;
    LastIs(spec, xs);
    EmittedEarlier(spec, xs);
    if out != [] {
      var last := out[|out| - 1];
      assert last in out;
      forall o | o in out ensures o.ts <= last.ts {
        var i :| 0 <= i < |out| && out[i] == o;
      }
    }
  }

  lemma RateIs(n: nat, windowMs: nat)
    requires windowMs > 0
    ensures n as real / (windowMs as real / 1000.0) == n as real * 1000.0 / windowMs as real
  {}

  lemma ValueIs(spec: SignalSpec, xs: seq<Sample>)
    requires xs != []
    ensures ValueOf(spec, xs) == if spec.aggregator.CounterRate? then |xs| as real / (spec.windowMs as real / 1000.0)
                                 else SumOf(xs) / |xs| as real
  {
    RateIs(|xs|, spec.windowMs);
  }

  lemma FedValue(spec: SignalSpec, xs: seq<Sample>)
    requires xs != [] && Signals.Ordered(xs)
    ensures ComputeValue(FeedAll(spec, xs).0.state.value, spec.aggregator, spec.windowMs)
         == Some(ValueOf(spec, Recent(xs, xs[|xs| - 1].ts, spec.windowMs)))
  {
    var kept := InWindow(xs, SatSub(xs[|xs| - 1].ts, spec.windowMs));
    ValueIsOfWindow(spec, xs);
    RecentIsWindow(xs, xs[|xs| - 1].ts, spec.windowMs);
    ValueIs(spec, kept);
  }

  /** For samples in time order, the emissions of a signal are exactly what is to be
      reported: which samples emit, and with which values. */
  lemma {:induction false} EmissionsAre(spec: SignalSpec, xs: seq<Sample>)
    requires Signals.Ordered(xs)
    ensures FeedAll(spec, xs).1 == Reported(spec, xs)
  {
    if xs != [] {
      var front, x := xs[..|xs| - 1], xs[|xs| - 1];
      assert xs == front + [x];
      EmissionsAre(spec, front);
      DueIff(spec, front, x);
      FedValue(spec, xs);
    }
  }

  lemma {:induction false} SamplesAreOrdered(spec: SignalSpec, entity: string, h: seq<Event>, extract: Extract)
    requires Dedup.Ordered(h)
    ensures var xs := SamplesOf(spec, entity, h, extract);
            Signals.Ordered(xs) && forall x | x in xs :: h != [] && x.ts <= h[|h| - 1].ts
  {
    if h != [] {
      var front := h[..|h| - 1];
      SamplesAreOrdered(spec, entity, front, extract);
      var xs := SamplesOf(spec, entity, front, extract);
      forall x | x in xs ensures x.ts <= h[|h| - 1].ts {
        assert front[|front| - 1].ts <= h[|h| - 1].ts;
      }
    }
  }

  /** Over every stream in time order, a registered signal of an entity reports exactly what
      its own samples make it report. */
  lemma EngineReports(specs: seq<SignalSpec>, h: seq<Event>, spec: SignalSpec, entity: string, extract: Extract)
    requires DistinctNames(specs) && spec in specs && Dedup.Ordered(h)
    ensures EmissionsOf(RunEngine(specs, h, extract).1, SignalKey(spec.name, entity))
         == Reported(spec, SamplesOf(spec, entity, h, extract))
  {
    EngineIsCells(specs, h, spec, entity, extract);
    SamplesAreOrdered(spec, entity, h, extract);
    EmissionsAre(spec, SamplesOf(spec, entity, h, extract));
  }

  // ---- the two signals there are ----

  /** The agent an event is about. */
  predicate From(e: Event, node: string) {
    e.node == Some(node) || (e.node.None? && node == "local")
  }

  /** The utilisation samples of an agent. */
  function Utilisations(h: seq<Event>, node: string, parse: string -> Option<real>): seq<Sample> {
    if h == [] then []
    else
      var e := h[|h| - 1];
      Utilisations(h[..|h| - 1], node, parse)
      + (if e.kind.ComputeUtil? && From(e, node) && parse(e.value).Some? then [Sample(e.ts, parse(e.value).value)]
         else [])
  }

  /** The same letter, whatever its case; `lower` is a small one. */
  predicate SameLetter(c: char, lower: char) {
    c == lower || ('A' <= c <= 'Z' && c as int - 'A' as int == lower as int - 'a' as int)
  }

  /** The word occurs in the text, whatever its case. */
  predicate MentionsAt(text: string, word: string, k: nat) {
    k + |word| <= |text| && forall j | 0 <= j < |word| :: SameLetter(text[k + j], word[j])
  }

  predicate Mentions(text: string, word: string) {
    exists k | 0 <= k <= |text| :: MentionsAt(text, word, k)
  }

  /** One sample for each drop event of an agent that mentions a retransmit or a drop. */
  function Retransmits(h: seq<Event>, node: string): seq<Sample> {
    if h == [] then []
    else
      var e := h[|h| - 1];
      Retransmits(h[..|h| - 1], node)
      + (if e.kind.TransportDrop? && From(e, node) && (Mentions(e.value, "retransmit") || Mentions(e.value, "drop"))
         then [Sample(e.ts, 1.0)] else [])
  }

  predicate Small(word: string) {
    forall i | 0 <= i < |word| :: 'a' <= word[i] <= 'z'
  }

  lemma LowerIsMention(text: string, word: string)
    requires Small(word)
    ensures Contains(AsciiLower(text), word) <==> Mentions(text, word)
  {
    var lower := AsciiLower(text);
    forall k: nat | k <= |text| ensures OccursAt(lower, word, k) <==> MentionsAt(text, word, k) {
      if OccursAt(lower, word, k) {
        forall j | 0 <= j < |word| ensures SameLetter(text[k + j], word[j]) {
          assert word[j] == lower[k..k + |word|][j] == lower[k + j];
        }
      }
      if MentionsAt(text, word, k) {
        forall j | 0 <= j < |word| ensures lower[k + j] == word[j] {
          assert SameLetter(text[k + j], word[j]);
        }
        assert lower[k..k + |word|] == word;
      }
    }
  }

  const RetransmitRate: SignalSpec :=
    SignalSpec("network.tcp.retransmit_rate_1m", 60_000, 1_000, CounterRate, "count/s")

  const UtilAverage: SignalSpec := SignalSpec("hardware.gpu.util_avg_1m", 60_000, 1_000, GaugeAvg, "percent")

  lemma {:induction false} UtilisationsAre(h: seq<Event>, node: string, parse: string -> Option<real>)
    ensures SamplesOf(UtilAverage, node, h, Extractor(parse)) == Utilisations(h, node, parse)
  {
    if h != [] {
      UtilisationsAre(h[..|h| - 1], node, parse);
    }
  }

  lemma RetransmitIs(e: Event, parse: string -> Option<real>)
    ensures Extractor(parse)(RetransmitRate, e) ==
            if e.kind.TransportDrop? && (Mentions(e.value, "retransmit") || Mentions(e.value, "drop"))
            then Some(1.0) else None
  {
    LowerIsMention(e.value, "retransmit");
    LowerIsMention(e.value, "drop");
  }

  lemma {:induction false} RetransmitsAre(h: seq<Event>, node: string, parse: string -> Option<real>)
    ensures SamplesOf(RetransmitRate, node, h, Extractor(parse)) == Retransmits(h, node)
  {
    if h != [] {
      RetransmitIs(h[|h| - 1], parse);
      RetransmitsAre(h[..|h| - 1], node, parse);
    }
  }

  /** Over every stream in time order, for every agent: the mean utilisation of the last
      minute and the retransmits per second over the last minute, at most once a second. */
  lemma DefaultSignals(h: seq<Event>, node: string, parse: string -> Option<real>)
    requires Dedup.Ordered(h)
    ensures var out := RunEngine(DefaultRegistry, h, Extractor(parse)).1;
            && EmissionsOf(out, SignalKey("hardware.gpu.util_avg_1m", node))
               == Reported(UtilAverage, Utilisations(h, node, parse))
            && EmissionsOf(out, SignalKey("network.tcp.retransmit_rate_1m", node))
               == Reported(RetransmitRate, Retransmits(h, node))
  {
    assert DefaultRegistry == [RetransmitRate, UtilAverage];
    EngineReports(DefaultRegistry, h, UtilAverage, node, Extractor(parse));
    EngineReports(DefaultRegistry, h, RetransmitRate, node, Extractor(parse));
    UtilisationsAre(h, node, parse);
    RetransmitsAre(h, node, parse);
  }

  // ---- what the graph shows ----

  /** The node a report leaves behind. */
  function ReportNode(x: Sample, windowMs: nat, unit: string, show: real -> string): Node {
    Node(Resource, x.ts, map["value" := show(x.value), "window_ms" := Decimal(windowMs), "unit" := unit])
  }

  /** The signal node is that of the latest report, or there is none. */
  predicate ShowsLatest(nodes: Nodes, key: SignalKey, out: seq<Sample>, spec: SignalSpec, show: real -> string) {
    var id := SignalId(key.name, key.entity);
    && (out == [] ==> id !in nodes)
    && (out != [] ==> id in nodes && nodes[id] == ReportNode(out[|out| - 1], spec.windowMs, spec.unit, show))
  }

  /** The points carry window and unit of their signal. */
  predicate PointsOf(points: seq<SignalPoint>, spec: SignalSpec) {
    forall p | p in points && p.name == spec.name :: p.windowMs == spec.windowMs && p.unit == spec.unit
  }

  lemma {:induction false} PointsAre(g: Engine, specs: seq<SignalSpec>, e: Event, spec: SignalSpec, extract: Extract)
    requires forall s | s in specs && s.name == spec.name :: s == spec
    ensures PointsOf(EngineStep(g, specs, e, extract).1, spec)
  {
    if specs != [] {
      assert specs[|specs| - 1] in specs;
      PointsAre(g, specs[..|specs| - 1], e, spec, extract);
    }
  }

  /** Publishing points shows the last of each signal. */
  lemma {:induction false} PublishShows(nodes: Nodes, points: seq<SignalPoint>, key: SignalKey, before: seq<Sample>,
                                        spec: SignalSpec, show: real -> string)
    requires key.name == spec.name && PointsOf(points, spec) && ShowsLatest(nodes, key, before, spec, show)
    ensures ShowsLatest(Publish(nodes, ToSignalNodes(points, show)), key, before + EmissionsOf(points, key), spec, show)
  {
    if points == [] {
      assert before + [] == before;
    } else {
      var front, p := points[..|points| - 1], points[|points| - 1];
      assert p in points && ToSignalNodes(points, show)[..|points| - 1] == ToSignalNodes(front, show);
      PublishShows(nodes, front, key, before, spec, show);
      var out := before + EmissionsOf(front, key);
      assert before + EmissionsOf(points, key)
          == out + (if SignalKey(p.name, p.entity) == key then [Sample(p.ts, p.value)] else []);
      assert out + [] == out;
    }
  }

  /** Handlers and cleanups leave signal nodes alone. */
  lemma SignalsStay(g: Graph, e: Event, now: nat, id: NodeId, parse: string -> Option<real>)
    requires WellFormed(g) && id.SignalId?
    ensures var h := Handle(g, e, parse);
            && (id in h.nodes <==> id in g.nodes) && (id in g.nodes ==> h.nodes[id] == g.nodes[id])
            && (var c := Cleanup(h, now);
                (id in c.nodes <==> id in g.nodes) && (id in g.nodes ==> c.nodes[id] == g.nodes[id]))
  {
    HandleKeepsWellFormed(g, e, parse);
  }

  lemma {:induction false} FoldEngine(h: seq<Event>, fl: Floats)
    ensures FoldEvents(h, fl).engine == RunEngine(DefaultRegistry, h, Extractor(fl.parse)).0
  {
    if h != [] {
      FoldEngine(h[..|h| - 1], fl);
    }
  }

  lemma FoldShows(s: GraphState, e: Event, key: SignalKey, before: seq<Sample>, spec: SignalSpec, fl: Floats)
    requires WellFormed(s.graph) && key.name == spec.name && spec in DefaultRegistry
    requires ShowsLatest(s.graph.nodes, key, before, spec, fl.show)
    ensures var points := EngineStep(s.engine, DefaultRegistry, e, Extractor(fl.parse)).1;
            ShowsLatest(FoldEvent(s, e, fl).graph.nodes, key, before + EmissionsOf(points, key), spec, fl.show)
  {
    var points := EngineStep(s.engine, DefaultRegistry, e, Extractor(fl.parse)).1;
    var g := Handle(s.graph, e, fl.parse);
    var g' := if CleanupDue(s.lastCleanup, e.ts) then Cleanup(g, e.ts) else g;
    assert forall x | x in DefaultRegistry && x.name == spec.name :: x == spec;
    SignalsStay(s.graph, e, e.ts, SignalId(key.name, key.entity), fl.parse);
    PointsAre(s.engine, DefaultRegistry, e, spec, Extractor(fl.parse));
    PublishShows(g'.nodes, points, key, before, spec, fl.show);
  }

  /** After every stream, each signal node of the graph shows the latest report of its signal
      and agent. */
  lemma {:induction false} GraphShowsLatest(h: seq<Event>, key: SignalKey, spec: SignalSpec, fl: Floats)
    requires key.name == spec.name && spec in DefaultRegistry
    ensures ShowsLatest(FoldEvents(h, fl).graph.nodes, key,
                        EmissionsOf(RunEngine(DefaultRegistry, h, Extractor(fl.parse)).1, key), spec, fl.show)
  {
    if h != [] {
      var front, e := h[..|h| - 1], h[|h| - 1];
      var s, r := FoldEvents(front, fl), RunEngine(DefaultRegistry, front, Extractor(fl.parse));
      GraphShowsLatest(front, key, spec, fl);
      FoldEngine(front, fl);
      StreamKeepsWellFormed(front, fl);
      FoldShows(s, e, key, EmissionsOf(r.1, key), spec, fl);
      EmissionsConcat(r.1, EngineStep(r.0, DefaultRegistry, e, Extractor(fl.parse)).1, key);
    }
  }

  /** From the events to the graph: after a stream in time order, the utilisation node of an
      agent shows the mean over the minute before its latest report. */
  lemma UtilisationIsShown(h: seq<Event>, node: string, fl: Floats)
    requires Dedup.Ordered(h)
    ensures ShowsLatest(FoldEvents(h, fl).graph.nodes, SignalKey("hardware.gpu.util_avg_1m", node),
                        Reported(UtilAverage, Utilisations(h, node, fl.parse)), UtilAverage, fl.show)
  {
    assert DefaultRegistry[1] == UtilAverage;
    DefaultSignals(h, node, fl.parse);
    GraphShowsLatest(h, SignalKey("hardware.gpu.util_avg_1m", node), UtilAverage, fl);
  }
}
