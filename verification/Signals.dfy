/** Windowed signals (core/src/signals/signal.rs and registry.rs): per signal and
    entity a queue of samples trimmed to a window, and a rate limit on emissions. */
module Signals {
  import opened Events
  import opened Text

  datatype Aggregator = CounterRate | GaugeAvg

  datatype RawSpec = SignalSpec(name: string, windowMs: nat, stepMs: nat, aggregator: Aggregator, unit: string)

  /** Every registered signal has a window. */
  type SignalSpec = s: RawSpec | s.windowMs > 0 witness SignalSpec("", 1, 0, GaugeAvg, "")

  datatype Sample = Sample(ts: nat, value: real)

  datatype SignalState =
    | CounterTimestamps(events: seq<nat>)
    | GaugeSamples(samples: seq<Sample>)

  datatype SignalKey = SignalKey(name: string, entity: string)

  datatype SignalPoint = SignalPoint(name: string, ts: nat, entity: string, value: real, windowMs: nat, unit: string)

  datatype Engine = Engine(states: map<SignalKey, SignalState>, lastEmit: map<SignalKey, nat>)

  const RETRANSMIT_RATE := "network.tcp.retransmit_rate_1m"
  const GPU_UTIL_AVG := "hardware.gpu.util_avg_1m"

  const DefaultRegistry: seq<SignalSpec> := [
    SignalSpec(RETRANSMIT_RATE, 60_000, 1_000, CounterRate, "count/s"),
    SignalSpec(GPU_UTIL_AVG, 60_000, 1_000, GaugeAvg, "percent")]

  function AsciiLower(s: string): string {
    seq(|s|, i requires 0 <= i < |s| =>
      if 'A' <= s[i] <= 'Z' then (s[i] as int + 32) as char else s[i])
  }

  function ExtractSample(spec: SignalSpec, e: Event, parse: string -> Option<real>): Option<real> {
    if spec.name == RETRANSMIT_RATE then
      var lower := AsciiLower(e.value);
      if e.kind.TransportDrop? && (Contains(lower, "retransmit") || Contains(lower, "drop")) then Some(1.0) else None
    else if spec.name == GPU_UTIL_AVG then
      if e.kind.ComputeUtil? then parse(e.value) else None
    else None
  }

  function EntityOf(e: Event): string {
    if e.node.Some? then e.node.value else "local"
  }

  // ---- trimming ----

  /** What is left after popping expired elements off the front. */
  ghost predicate TrimmedTo<T(!new)>(q: seq<T>, r: seq<T>, ts: T -> nat, cutoff: nat) {
    exists n: nat :: n <= |q| && r == q[n..]
      && (forall i | 0 <= i < n :: ts(q[i]) < cutoff)
      && (r == [] || ts(r[0]) >= cutoff)
  }

  function TrimFront<T>(q: seq<T>, ts: T -> nat, cutoff: nat): seq<T> {
    if q != [] && ts(q[0]) < cutoff then TrimFront(q[1..], ts, cutoff) else q
  }

  /** The pop loop of both trim functions. */
  method TrimQueue<T(!new)>(q: seq<T>, ts: T -> nat, cutoff: nat) returns (r: seq<T>)
    ensures r == TrimFront(q, ts, cutoff)
    ensures TrimmedTo(q, r, ts, cutoff)
  {
    r := q;
    ghost var n := 0;
    while r != [] && ts(r[0]) < cutoff
      invariant n <= |q| && r == q[n..]
      invariant forall i | 0 <= i < n :: ts(q[i]) < cutoff
      invariant TrimFront(r, ts, cutoff) == TrimFront(q, ts, cutoff)
      decreases |r|
    {
      r := r[1..];
      n := n + 1;
    }
  }

  /** Nothing is popped from behind an element that is in the window. */
  lemma {:induction false} TrimKeepsLast<T>(q: seq<T>, ts: T -> nat, cutoff: nat)
    requires q != [] && ts(q[|q| - 1]) >= cutoff
    ensures var r := TrimFront(q, ts, cutoff);
            r != [] && r[|r| - 1] == q[|q| - 1] && (forall x | x in r :: x in q)
  {
    if ts(q[0]) < cutoff {
      TrimKeepsLast(q[1..], ts, cutoff);
    }
  }

  function TsOf(s: Sample): nat { s.ts }

  function Self(n: nat): nat { n }

  // ---- one signal of one entity ----

  datatype Cell = Cell(state: Option<SignalState>, last: Option<nat>)

  function Fresh(a: Aggregator): SignalState {
    match a
    case CounterRate => CounterTimestamps([])
    case GaugeAvg => GaugeSamples([])
  }

  /** Pushes a sample and trims to the window that ends at it. */
  function Push(s: SignalState, spec: SignalSpec, x: Sample): SignalState {
    var cutoff := SatSub(x.ts, spec.windowMs);
    match (s, spec.aggregator)
    case (CounterTimestamps(events), CounterRate) => CounterTimestamps(TrimFront(events + [x.ts], Self, cutoff))
    case (GaugeSamples(samples), GaugeAvg) => GaugeSamples(TrimFront(samples + [x], TsOf, cutoff))
    case _ => s
  }

  function SumOf(samples: seq<Sample>): real {
    if samples == [] then 0.0 else SumOf(samples[..|samples| - 1]) + samples[|samples| - 1].value
  }

  function ComputeValue(s: SignalState, a: Aggregator, windowMs: nat): Option<real>
    requires windowMs > 0
  {
    match (s, a)
    case (CounterTimestamps(events), CounterRate) =>
      Some(|events| as real / (windowMs as real / 1000.0))
    case (GaugeSamples(samples), GaugeAvg) =>
      if samples == [] then None else Some(SumOf(samples) / |samples| as real)
    case _ => None
  }

  predicate Due(last: Option<nat>, now: nat, stepMs: nat) {
    last.None? || SatSub(now, last.value) >= stepMs
  }

  /** One sample: the new cell and the value emitted, if any. */
  function Feed(c: Cell, spec: SignalSpec, x: Sample): (Cell, Option<real>) {
    var s := Push(if c.state.Some? then c.state.value else Fresh(spec.aggregator), spec, x);
    var v := if Due(c.last, x.ts, spec.stepMs) then ComputeValue(s, spec.aggregator, spec.windowMs) else None;
    (Cell(Some(s), if v.Some? then Some(x.ts) else c.last), v)
  }

  /** A whole history of samples: the final cell and the emissions. */
  function FeedAll(spec: SignalSpec, xs: seq<Sample>): (Cell, seq<Sample>) {
    if xs == [] then (Cell(None, None), [])
    else
      var (c, out) := FeedAll(spec, xs[..|xs| - 1]);
      var x := xs[|xs| - 1];
      var (c', v) := Feed(c, spec, x);
      (c', if v.Some? then out + [Sample(x.ts, v.value)] else out)
  }

  // ---- the engine ----

  type Extract = (SignalSpec, Event) -> Option<real>

  function Extractor(parse: string -> Option<real>): Extract {
    (spec: SignalSpec, e: Event) => ExtractSample(spec, e, parse)
  }

  function CellAt(g: Engine, key: SignalKey): Cell {
    Cell(if key in g.states then Some(g.states[key]) else None,
         if key in g.lastEmit then Some(g.lastEmit[key]) else None)
  }

  function StepSpec(g: Engine, spec: SignalSpec, e: Event, extract: Extract): (Engine, seq<SignalPoint>) {
    match extract(spec, e)
    case None => (g, [])
    case Some(x) =>
      var key := SignalKey(spec.name, EntityOf(e));
      var (c, v) := Feed(CellAt(g, key), spec, Sample(e.ts, x));
      (Engine(g.states[key := c.state.value], if v.Some? then g.lastEmit[key := e.ts] else g.lastEmit),
       if v.Some? then [SignalPoint(spec.name, e.ts, EntityOf(e), v.value, spec.windowMs, spec.unit)] else [])
  }

  function EngineStep(g: Engine, specs: seq<SignalSpec>, e: Event, extract: Extract): (Engine, seq<SignalPoint>) {
    if specs == [] then (g, [])
    else
      var (g', out) := EngineStep(g, specs[..|specs| - 1], e, extract);
      var (g'', more) := StepSpec(g', specs[|specs| - 1], e, extract);
      (g'', out + more)
  }

  const NoSignals := Engine(map[], map[])

  /** The engine after a stream of events, and everything it emitted. */
  function RunEngine(specs: seq<SignalSpec>, h: seq<Event>, extract: Extract): (Engine, seq<SignalPoint>) {
    if h == [] then (NoSignals, [])
    else
      var (g, out) := RunEngine(specs, h[..|h| - 1], extract);
      var (g', more) := EngineStep(g, specs, h[|h| - 1], extract);
      (g', out + more)
  }

  class SignalEngine {
    const registry: seq<SignalSpec>
    const parse: string -> Option<real>
    var states: map<SignalKey, SignalState>
    var lastEmit: map<SignalKey, nat>

    constructor (registry: seq<SignalSpec>, parse: string -> Option<real>)
      ensures this.registry == registry && this.parse == parse && View() == NoSignals
    {
      this.registry, this.parse, states, lastEmit := registry, parse, map[], map[];
    }

    function View(): Engine
      reads this
    {
      Engine(states, lastEmit)
    }

    /** Runs every registered signal over one event. */
    method OnEvent(event: Event) returns (out: seq<SignalPoint>)
      modifies this
      ensures (View(), out) == EngineStep(old(View()), registry, event, Extractor(parse))
    {
      out := [];
      for i := 0 to |registry|
        invariant (View(), out) == EngineStep(old(View()), registry[..i], event, Extractor(parse))
      {
        assert registry[..i + 1][..i] == registry[..i];
        var more := OnSample(registry[i], event);
        out := out + more;
      }
      assert registry[..|registry|] == registry;
    }

    /** The body of the loop over the registry. */
    method OnSample(spec: SignalSpec, event: Event) returns (out: seq<SignalPoint>)
      modifies this
      ensures (View(), out) == StepSpec(old(View()), spec, event, Extractor(parse))
    {
      out := [];
      var sample := ExtractSample(spec, event, parse);
      if sample.None? {
        return;
      }
      var entity := EntityOf(event);
      var key := SignalKey(spec.name, entity);
      var state := if key in states then states[key] else Fresh(spec.aggregator);
      var cutoff := SatSub(event.ts, spec.windowMs);
      if spec.aggregator.CounterRate? {
        if state.CounterTimestamps? {
          var events := TrimQueue(state.events + [event.ts], Self, cutoff);
          state := CounterTimestamps(events);
        }
      } else if state.GaugeSamples? {
        var samples := TrimQueue(state.samples + [Sample(event.ts, sample.value)], TsOf, cutoff);
        state := GaugeSamples(samples);
      }
      states := states[key := state];

      var due := key !in lastEmit || SatSub(event.ts, lastEmit[key]) >= spec.stepMs;
      if !due {
        return;
      }
      var value := ComputeValue(state, spec.aggregator, spec.windowMs);
      if value.Some? {
        out := [SignalPoint(spec.name, event.ts, entity, value.value, spec.windowMs, spec.unit)];
        lastEmit := lastEmit[key := event.ts];
      }
    }
  }

  // ---- the engine is one independent cell per signal and entity ----

  predicate DistinctNames(specs: seq<SignalSpec>) {
    forall i, j | 0 <= i < j < |specs| :: specs[i].name != specs[j].name
  }

  /** The samples of one signal and one entity in a stream. */
  function SamplesOf(spec: SignalSpec, entity: string, h: seq<Event>, extract: Extract): seq<Sample> {
    if h == [] then []
    else
      var e := h[|h| - 1];
      var x := extract(spec, e);
      SamplesOf(spec, entity, h[..|h| - 1], extract)
      + (if x.Some? && EntityOf(e) == entity then [Sample(e.ts, x.value)] else [])
  }

  /** The emissions of one signal and one entity. */
  function EmissionsOf(points: seq<SignalPoint>, key: SignalKey): seq<Sample> {
    if points == [] then []
    else
      var p := points[|points| - 1];
      EmissionsOf(points[..|points| - 1], key)
      + (if SignalKey(p.name, p.entity) == key then [Sample(p.ts, p.value)] else [])
  }

  lemma {:induction false} EmissionsConcat(a: seq<SignalPoint>, b: seq<SignalPoint>, key: SignalKey)
    ensures EmissionsOf(a + b, key) == EmissionsOf(a, key) + EmissionsOf(b, key)
  {
    if b == [] {
      assert a + b == a;
    } else {
      assert (a + b)[..|a + b| - 1] == a + b[..|b| - 1];
      EmissionsConcat(a, b[..|b| - 1], key);
    }
  }

  lemma SingleEmission(p: SignalPoint, key: SignalKey)
    ensures EmissionsOf([p], key) == if SignalKey(p.name, p.entity) == key then [Sample(p.ts, p.value)] else []
  {
    assert EmissionsOf([p][..0], key) == [];
  }

  /** What one event does to one cell. */
  function CellStep(c: Cell, spec: SignalSpec, entity: string, e: Event, extract: Extract): (Cell, seq<Sample>) {
    var x := extract(spec, e);
    if x.Some? && EntityOf(e) == entity then
      var (c', v) := Feed(c, spec, Sample(e.ts, x.value));
      (c', if v.Some? then [Sample(e.ts, v.value)] else [])
    else (c, [])
  }

  /** The state and the emissions an engine step leaves for one key. */
  function At(r: (Engine, seq<SignalPoint>), key: SignalKey): (Cell, seq<Sample>) {
    (CellAt(r.0, key), EmissionsOf(r.1, key))
  }

  lemma StepSpecIsLocal(g: Engine, spec: SignalSpec, e: Event, key: SignalKey, extract: Extract)
    ensures At(StepSpec(g, spec, e, extract), key) ==
            if spec.name == key.name then CellStep(CellAt(g, key), spec, key.entity, e, extract)
            else (CellAt(g, key), [])
  {
    var r := StepSpec(g, spec, e, extract);
    if r.1 != [] {
      SingleEmission(r.1[0], key);
      assert r.1 == [r.1[0]];
    }
  }

  /** Signals of other names leave a key alone. */
  lemma {:induction false} EngineStepElsewhere(g: Engine, specs: seq<SignalSpec>, e: Event, key: SignalKey,
                                               extract: Extract)
    requires forall i | 0 <= i < |specs| :: specs[i].name != key.name
    ensures At(EngineStep(g, specs, e, extract), key) == (CellAt(g, key), [])
  {
    if specs != [] {
      var front, last := specs[..|specs| - 1], specs[|specs| - 1];
      EngineStepElsewhere(g, front, e, key, extract);
      var r := EngineStep(g, front, e, extract);
      StepSpecIsLocal(r.0, last, e, key, extract);
      EmissionsConcat(r.1, StepSpec(r.0, last, e, extract).1, key);
    }
  }

  lemma {:induction false} EngineStepIsLocal(g: Engine, specs: seq<SignalSpec>, i: nat, e: Event, entity: string,
                                             extract: Extract)
    requires DistinctNames(specs) && i < |specs|
    ensures var key := SignalKey(specs[i].name, entity);
            At(EngineStep(g, specs, e, extract), key) == CellStep(CellAt(g, key), specs[i], entity, e, extract)
  {
    var front, last := specs[..|specs| - 1], specs[|specs| - 1];
    var key := SignalKey(specs[i].name, entity);
    var r := EngineStep(g, front, e, extract);
    StepSpecIsLocal(r.0, last, e, key, extract);
    EmissionsConcat(r.1, StepSpec(r.0, last, e, extract).1, key);
    var before, after := EmissionsOf(r.1, key), EmissionsOf(StepSpec(r.0, last, e, extract).1, key);
    if i < |front| {
      EngineStepIsLocal(g, front, i, e, entity, extract);
      assert before + [] == before;
    } else {
      EngineStepElsewhere(g, front, e, key, extract);
      assert [] + after == after;
    }
  }

  lemma FeedAppend(spec: SignalSpec, xs: seq<Sample>, x: Sample)
    ensures var r, f := FeedAll(spec, xs), Feed(FeedAll(spec, xs).0, spec, x);
            FeedAll(spec, xs + [x]) == (f.0, if f.1.Some? then r.1 + [Sample(x.ts, f.1.value)] else r.1)
  {
    assert (xs + [x])[..|xs|] == xs;
  }

  /** Feeding the samples of one more event. */
  lemma FeedEvent(spec: SignalSpec, entity: string, h: seq<Event>, extract: Extract)
    requires h != []
    ensures var r := FeedAll(spec, SamplesOf(spec, entity, h[..|h| - 1], extract));
            var s := CellStep(r.0, spec, entity, h[|h| - 1], extract);
            FeedAll(spec, SamplesOf(spec, entity, h, extract)) == (s.0, r.1 + s.1)
  {
    var xs := SamplesOf(spec, entity, h[..|h| - 1], extract);
    var r := FeedAll(spec, xs);
    var e := h[|h| - 1];
    var x := extract(spec, e);
    if x.Some? && EntityOf(e) == entity {
      FeedAppend(spec, xs, Sample(e.ts, x.value));
    }
    assert xs + [] == xs && r.1 + [] == r.1;
  }

  /** Over every stream, a registered signal of an entity has exactly the state and
      the emissions that its own samples produce; other signals and entities do
      not interfere. */
  lemma {:induction false} EngineIsCells(specs: seq<SignalSpec>, h: seq<Event>, spec: SignalSpec, entity: string,
                                         extract: Extract)
    requires DistinctNames(specs) && spec in specs
    ensures At(RunEngine(specs, h, extract), SignalKey(spec.name, entity))
         == FeedAll(spec, SamplesOf(spec, entity, h, extract))
  {
    if h != [] {
      var front, e, key := h[..|h| - 1], h[|h| - 1], SignalKey(spec.name, entity);
      EngineIsCells(specs, front, spec, entity, extract);
      var r := RunEngine(specs, front, extract);
      var i :| 0 <= i < |specs| && specs[i] == spec;
      EngineStepIsLocal(r.0, specs, i, e, entity, extract);
      EmissionsConcat(r.1, EngineStep(r.0, specs, e, extract).1, key);
      FeedEvent(spec, entity, h, extract);
    }
  }

  // ---- what a cell guarantees ----

  predicate Matching(s: SignalState, a: Aggregator) {
    s.CounterTimestamps? <==> a.CounterRate?
  }

  predicate Ordered(xs: seq<Sample>) {
    forall i, j | 0 <= i < j < |xs| :: xs[i].ts <= xs[j].ts
  }

  function InWindow(xs: seq<Sample>, cutoff: nat): seq<Sample> {
    if xs == [] then []
    else
      var x := xs[|xs| - 1];
      InWindow(xs[..|xs| - 1], cutoff) + (if x.ts >= cutoff then [x] else [])
  }

  function Times(xs: seq<Sample>): seq<nat> {
    seq(|xs|, i requires 0 <= i < |xs| => xs[i].ts)
  }

  lemma {:induction false} TrimTimes(xs: seq<Sample>, cutoff: nat)
    ensures TrimFront(Times(xs), Self, cutoff) == Times(TrimFront(xs, TsOf, cutoff))
  {
    if xs != [] {
      assert Times(xs)[1..] == Times(xs[1..]);
      TrimTimes(xs[1..], cutoff);
    }
  }

  /** On ordered samples, popping the expired front is filtering. */
  lemma {:induction false} TrimIsFilter(xs: seq<Sample>, cutoff: nat)
    requires Ordered(xs)
    ensures TrimFront(xs, TsOf, cutoff) == InWindow(xs, cutoff)
  {
    if xs != [] {
      if xs[0].ts < cutoff {
        TrimIsFilter(xs[1..], cutoff);
        DropExpired(xs, cutoff);
      } else {
        AllInWindow(xs, cutoff);
      }
    }
  }

  lemma {:induction false} DropExpired(xs: seq<Sample>, cutoff: nat)
    requires xs != [] && xs[0].ts < cutoff
    ensures InWindow(xs, cutoff) == InWindow(xs[1..], cutoff)
  {
    if |xs| > 1 {
      DropExpired(xs[..|xs| - 1], cutoff);
      assert xs[..|xs| - 1][1..] == xs[1..][..|xs| - 2];
    } else {
      assert xs[..0] == [];
    }
  }

  lemma {:induction false} AllInWindow(xs: seq<Sample>, cutoff: nat)
    requires forall x | x in xs :: x.ts >= cutoff
    ensures InWindow(xs, cutoff) == xs
  {
    if xs != [] {
      AllInWindow(xs[..|xs| - 1], cutoff);
    }
  }

  lemma {:induction false} InWindowTwice(xs: seq<Sample>, c: nat, d: nat)
    requires c <= d
    ensures InWindow(InWindow(xs, c), d) == InWindow(xs, d)
  {
    if xs != [] {
      var front, x := xs[..|xs| - 1], xs[|xs| - 1];
      InWindowTwice(front, c, d);
      var w := InWindow(front, c);
      assert (w + [x])[..|w|] == w;
      assert w + [] == w;
    }
  }

  lemma {:induction false} InWindowOrdered(xs: seq<Sample>, c: nat)
    requires Ordered(xs)
    ensures Ordered(InWindow(xs, c)) && forall x | x in InWindow(xs, c) :: x in xs
  {
    if xs != [] {
      var front, x := xs[..|xs| - 1], xs[|xs| - 1];
      InWindowOrdered(front, c);
      var w := InWindow(front, c);
      forall i | 0 <= i < |w| ensures w[i].ts <= x.ts {
        assert w[i] in front;
      }
    }
  }

  predicate Between(xs: seq<Sample>, lo: real, hi: real) {
    forall x | x in xs :: lo <= x.value <= hi
  }

  /** Whatever the order of arrival, the newest sample survives its own trimming,
      so a gauge has a value and it lies between its kept extremes. */
  lemma {:induction false} NewestSurvives(spec: SignalSpec, xs: seq<Sample>)
    requires xs != []
    ensures var c := FeedAll(spec, xs).0;
            && c.state.Some? && Matching(c.state.value, spec.aggregator)
            && (spec.aggregator.CounterRate? ==>
                 var q := c.state.value.events; q != [] && q[|q| - 1] == xs[|xs| - 1].ts)
            && (spec.aggregator.GaugeAvg? ==>
                 var kept := c.state.value.samples;
                 && kept != [] && kept[|kept| - 1] == xs[|xs| - 1]
                 && (forall y | y in kept :: y in xs)
                 && (var v := ComputeValue(c.state.value, GaugeAvg, spec.windowMs);
                     v.Some? && forall lo, hi | Between(kept, lo, hi) :: lo <= v.value <= hi))
  {
    var front, x := xs[..|xs| - 1], xs[|xs| - 1];
    var cutoff := SatSub(x.ts, spec.windowMs);
    var c := FeedAll(spec, front).0;
    if front != [] {
      NewestSurvives(spec, front);
    }
    var s := if c.state.Some? then c.state.value else Fresh(spec.aggregator);
    if spec.aggregator.CounterRate? {
      TrimKeepsLast(s.events + [x.ts], Self, cutoff);
    } else {
      TrimKeepsLast(s.samples + [x], TsOf, cutoff);
      var kept := TrimFront(s.samples + [x], TsOf, cutoff);
      forall lo, hi | Between(kept, lo, hi)
        ensures lo <= SumOf(kept) / |kept| as real <= hi
      {
        MeanBetween(kept, lo, hi);
      }
    }
  }

  /** `n` times `x`, added up. */
  function Repeated(x: real, n: nat): real {
    if n == 0 then 0.0 else Repeated(x, n - 1) + x
  }

  lemma {:induction false} RepeatedIsProduct(x: real, n: nat)
    ensures Repeated(x, n) == x * n as real
  {
    if n > 0 {
      RepeatedIsProduct(x, n - 1);
      Distribute(x, (n - 1) as real);
    }
  }

  lemma Distribute(x: real, n: real)
    ensures x * (n + 1.0) == x * n + x
  {}

  lemma {:induction false} SumBetween(xs: seq<Sample>, lo: real, hi: real)
    requires Between(xs, lo, hi)
    ensures Repeated(lo, |xs|) <= SumOf(xs) <= Repeated(hi, |xs|)
  {
    if xs != [] {
      assert xs[|xs| - 1] in xs;
      SumBetween(xs[..|xs| - 1], lo, hi);
    }
  }

  lemma MeanBetween(xs: seq<Sample>, lo: real, hi: real)
    requires xs != [] && Between(xs, lo, hi)
    ensures lo <= SumOf(xs) / |xs| as real <= hi
  {
    SumBetween(xs, lo, hi);
    RepeatedIsProduct(lo, |xs|);
    RepeatedIsProduct(hi, |xs|);
    QuotientBetween(SumOf(xs), |xs| as real, lo, hi);
  }

  lemma QuotientBetween(sum: real, n: real, lo: real, hi: real)
    requires n > 0.0 && lo * n <= sum <= hi * n
    ensures lo <= sum / n <= hi
  {
    var q := sum / n;
    assert q * n == sum;
    assert q < lo ==> (lo - q) * n > 0.0;
    assert q > hi ==> (q - hi) * n > 0.0;
  }

  /** For samples in time order the queue is exactly the history cut to the window
      that ends at the newest sample. */
  lemma {:induction false} WindowIsExact(spec: SignalSpec, xs: seq<Sample>)
    requires xs != [] && Ordered(xs)
    ensures FeedAll(spec, xs).0.state ==
            Some(Holding(spec.aggregator, InWindow(xs, SatSub(xs[|xs| - 1].ts, spec.windowMs))))
  {
    var front, x := xs[..|xs| - 1], xs[|xs| - 1];
    var cutoff := SatSub(x.ts, spec.windowMs);
    var kept: seq<Sample> := [];
    if front != [] {
      WindowIsExact(spec, front);
      kept := InWindow(front, SatSub(front[|front| - 1].ts, spec.windowMs));
    }
    SlideWindow(xs, spec.windowMs);
    TrimTimes(kept + [x], cutoff);
    assert Times(kept + [x]) == Times(kept) + [x.ts];
  }

  /** The state that holds exactly the given samples. */
  function Holding(a: Aggregator, xs: seq<Sample>): SignalState {
    match a
    case CounterRate => CounterTimestamps(Times(xs))
    case GaugeAvg => GaugeSamples(xs)
  }

  lemma OrderedAppend(xs: seq<Sample>, x: Sample)
    requires Ordered(xs) && forall y | y in xs :: y.ts <= x.ts
    ensures Ordered(xs + [x])
  {}

  /** Trimming the previous window with the newest sample gives the new window. */
  lemma SlideWindow(xs: seq<Sample>, w: nat)
    requires xs != [] && Ordered(xs)
    ensures var front, x := xs[..|xs| - 1], xs[|xs| - 1];
            var kept := if front == [] then [] else InWindow(front, SatSub(front[|front| - 1].ts, w));
            TrimFront(kept + [x], TsOf, SatSub(x.ts, w)) == InWindow(xs, SatSub(x.ts, w))
  {
    var front, x := xs[..|xs| - 1], xs[|xs| - 1];
    var cutoff := SatSub(x.ts, w);
    var kept: seq<Sample> := [];
    if front != [] {
      var before := SatSub(front[|front| - 1].ts, w);
      kept := InWindow(front, before);
      InWindowOrdered(front, before);
      InWindowTwice(front, before, cutoff);
    }
    var q := kept + [x];
    forall y | y in kept ensures y.ts <= x.ts {
      assert y in front;
    }
    OrderedAppend(kept, x);
    TrimIsFilter(q, cutoff);
    assert q[..|q| - 1] == kept;
  }

  /** Emissions of one signal of one entity are at least a step apart, even when
      samples arrive out of order. */
  lemma {:induction false} EmissionsAreSpaced(spec: SignalSpec, xs: seq<Sample>)
    requires spec.stepMs > 0
    ensures var (c, out) := FeedAll(spec, xs);
            && (forall i, j | 0 <= i < j < |out| :: out[i].ts + spec.stepMs <= out[j].ts)
            && c.last == if out == [] then None else Some(out[|out| - 1].ts)
  {
    if xs != [] {
      EmissionsAreSpaced(spec, xs[..|xs| - 1]);
    }
  }

  /** For samples in time order a counter reports the number of events in the window
      per second, and a gauge their mean. */
  lemma ValueIsOfWindow(spec: SignalSpec, xs: seq<Sample>)
    requires xs != [] && Ordered(xs)
    ensures var kept := InWindow(xs, SatSub(xs[|xs| - 1].ts, spec.windowMs));
            && kept != []
            && ComputeValue(FeedAll(spec, xs).0.state.value, spec.aggregator, spec.windowMs) ==
               Some(if spec.aggregator.CounterRate? then |kept| as real / (spec.windowMs as real / 1000.0)
                    else SumOf(kept) / |kept| as real)
  {
    WindowIsExact(spec, xs);
  }

  /** The guarantees of a whole engine run: emissions of one signal of one entity are a
      step apart whatever the order of events, and each key's queue is that of its own
      samples. */
  lemma EngineGuarantees(specs: seq<SignalSpec>, h: seq<Event>, spec: SignalSpec, entity: string, extract: Extract)
    requires DistinctNames(specs) && spec in specs && spec.stepMs > 0
    ensures var r := At(RunEngine(specs, h, extract), SignalKey(spec.name, entity));
            var xs := SamplesOf(spec, entity, h, extract);
            && (forall i, j | 0 <= i < j < |r.1| :: r.1[i].ts + spec.stepMs <= r.1[j].ts)
            && (xs != [] && Ordered(xs) ==>
                 r.0.state == Some(Holding(spec.aggregator, InWindow(xs, SatSub(xs[|xs| - 1].ts, spec.windowMs)))))
  {
    var xs := SamplesOf(spec, entity, h, extract);
    EngineIsCells(specs, h, spec, entity, extract);
    EmissionsAreSpaced(spec, xs);
    if xs != [] && Ordered(xs) {
      WindowIsExact(spec, xs);
    }
  }
}
