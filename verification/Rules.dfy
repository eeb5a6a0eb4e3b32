/** The rule language (core/src/rules/matcher.rs, core/src/rules/rule.rs): condition
    trees, their evaluation over recent events and a snapshot of the graph, and the
    normal form of a rule. */
module Rules {
  import opened Events
  import opened Text
  import opened Glob
  import opened Graph

  datatype ComparisonOp = Gt | Lt | Eq | Gte | Lte | Ne | Has

  datatype ValueType = Numeric | Textual | Auto

  datatype MetricCondition = MetricCondition(key: string, op: ComparisonOp, target: string, valueType: ValueType)

  datatype Condition =
    | EventIs(eventType: string, entityPattern: Option<string>, valuePattern: Option<string>, threshold: Option<real>)
    | EdgeIs(edgeType: string, fromPattern: Option<string>, toPattern: Option<string>)
    | NodeHas(nodeType: Option<string>, idPattern: Option<string>, metrics: seq<MetricCondition>)
    | SignalIs(signal: string, ownerPattern: Option<string>, op: ComparisonOp, target: string, valueType: ValueType)
    | AnyOf(conditions: seq<Condition>)
    | AllOf(conditions: seq<Condition>)

  /** The graph as rules see it: ids are plain text. */
  datatype EdgeView = EdgeView(kind: EdgeKind, from: string, to: string)

  datatype View = View(edges: seq<EdgeView>, nodes: map<string, Node>)

  function EdgeTypeName(k: EdgeKind): string {
    match k
    case Consumes => "consumes"
    case WaitsOn => "waits_on"
    case BlockedBy => "blocked_by"
  }

  function NodeTypeName(k: NodeKind): string {
    match k
    case Process => "process"
    case Resource => "resource"
    case Error => "error"
  }

  // ---- leaves ----

  predicate Fits(text: string, pattern: Option<string>) {
    pattern.Some? ==> GlobAny(text, pattern.value)
  }

  function Abs(x: real): real {
    if x < 0.0 then -x else x
  }

  predicate CompareNumbers(a: real, b: real, op: ComparisonOp, actual: string, target: string) {
    match op
    case Gt => a > b
    case Lt => a < b
    case Eq => Abs(a - b) < 0.001
    case Gte => a >= b
    case Lte => a <= b
    case Ne => Abs(a - b) >= 0.001
    case Has => Contains(actual, target)
  }

  predicate CompareText(actual: string, target: string, op: ComparisonOp) {
    match op
    case Eq => actual == target
    case Ne => actual != target
    case Has => Contains(actual, target)
    case _ => false
  }

  predicate CompareValue(actual: string, target: string, op: ComparisonOp, vt: ValueType,
                         parse: string -> Option<real>)
  {
    var a, b := parse(actual), parse(target);
    match vt
    case Numeric => a.Some? && b.Some? && CompareNumbers(a.value, b.value, op, actual, target)
    case Textual => CompareText(actual, target, op)
    case Auto => if a.Some? && b.Some? then CompareNumbers(a.value, b.value, op, actual, target)
                 else CompareText(actual, target, op)
  }

  predicate EventFits(e: Event, c: Condition, parse: string -> Option<real>)
    requires c.EventIs?
  {
    && KindName(e.kind) == c.eventType
    && Fits(e.entity, c.entityPattern)
    && (c.valuePattern.Some? ==> ValuePattern(e.value, c.valuePattern.value))
    && (c.threshold.Some? ==> parse(e.value).Some? && parse(e.value).value >= c.threshold.value)
  }

  predicate EdgeFits(e: EdgeView, c: Condition)
    requires c.EdgeIs?
  {
    EdgeTypeName(e.kind) == c.edgeType && Fits(e.from, c.fromPattern) && Fits(e.to, c.toPattern)
  }

  predicate MetricFits(m: MetricCondition, metadata: map<string, string>, parse: string -> Option<real>) {
    m.key in metadata && CompareValue(metadata[m.key], m.target, m.op, m.valueType, parse)
  }

  predicate NodeFits(id: string, n: Node, c: Condition, parse: string -> Option<real>)
    requires c.NodeHas?
  {
    && (c.nodeType.Some? ==> NodeTypeName(n.kind) == c.nodeType.value)
    && Fits(id, c.idPattern)
    && (forall i | 0 <= i < |c.metrics| :: MetricFits(c.metrics[i], n.metadata, parse))
  }

  function SignalPrefix(signal: string): string {
    "signal::" + signal + "::"
  }

  predicate SignalFits(id: string, n: Node, c: Condition, parse: string -> Option<real>)
    requires c.SignalIs?
  {
    && StartsWith(id, SignalPrefix(c.signal))
    && Fits(id[|SignalPrefix(c.signal)|..], c.ownerPattern)
    && "value" in n.metadata
    && CompareValue(n.metadata["value"], c.target, c.op, c.valueType, parse)
  }

  // ---- trees ----

  /** Does the condition hold of these events and this graph? */
  predicate Holds(c: Condition, events: seq<Event>, v: View, parse: string -> Option<real>)
    decreases c
  {
    match c
    case EventIs(_, _, _, _) => exists i | 0 <= i < |events| :: EventFits(events[i], c, parse)
    case EdgeIs(_, _, _) => exists i | 0 <= i < |v.edges| :: EdgeFits(v.edges[i], c)
    case NodeHas(_, _, _) => exists id | id in v.nodes :: NodeFits(id, v.nodes[id], c, parse)
    case SignalIs(_, _, _, _, _) => exists id | id in v.nodes :: SignalFits(id, v.nodes[id], c, parse)
    case AnyOf(cs) => exists i | 0 <= i < |cs| :: Holds(cs[i], events, v, parse)
    case AllOf(cs) => forall i | 0 <= i < |cs| :: Holds(cs[i], events, v, parse)
  }

  /** A rule matches when all its conditions hold. */
  predicate MatchesAll(cs: seq<Condition>, events: seq<Event>, v: View, parse: string -> Option<real>) {
    forall i | 0 <= i < |cs| :: Holds(cs[i], events, v, parse)
  }

  // ---- evaluation is monotone ----

  predicate ViewGrows(v: View, v': View) {
    && (forall e | e in v.edges :: e in v'.edges)
    && (forall id | id in v.nodes :: id in v'.nodes && v'.nodes[id] == v.nodes[id])
  }

  predicate EventsGrow(events: seq<Event>, events': seq<Event>) {
    forall e | e in events :: e in events'
  }

  /** More events, edges or nodes never make a condition that holds fail. */
  lemma {:induction false} HoldsIsMonotone(c: Condition, events: seq<Event>, events': seq<Event>, v: View, v': View,
                                           parse: string -> Option<real>)
    requires EventsGrow(events, events') && ViewGrows(v, v') && Holds(c, events, v, parse)
    ensures Holds(c, events', v', parse)
    decreases c
  {
    match c
    case EventIs(_, _, _, _) =>
      var i :| 0 <= i < |events| && EventFits(events[i], c, parse);
      assert events[i] in events';
    case EdgeIs(_, _, _) =>
      var i :| 0 <= i < |v.edges| && EdgeFits(v.edges[i], c);
      assert v.edges[i] in v'.edges;
    case NodeHas(_, _, _) =>
      var id :| id in v.nodes && NodeFits(id, v.nodes[id], c, parse);
      assert id in v'.nodes;
    case SignalIs(_, _, _, _, _) =>
      var id :| id in v.nodes && SignalFits(id, v.nodes[id], c, parse);
      assert id in v'.nodes;
    case AnyOf(cs) =>
      var i :| 0 <= i < |cs| && Holds(cs[i], events, v, parse);
      HoldsIsMonotone(cs[i], events, events', v, v', parse);
    case AllOf(cs) =>
      forall i | 0 <= i < |cs| ensures Holds(cs[i], events', v', parse) {
        HoldsIsMonotone(cs[i], events, events', v, v', parse);
      }
  }

  /** What the comparison operators mean, for every pair of texts: between numbers the order
      of the numbers, equal when less than a thousandth apart; between other texts equality
      only; and nothing where a numeric comparison does not parse. `contains` is about the
      text. */
  lemma ComparisonLaws(actual: string, target: string, vt: ValueType, parse: string -> Option<real>)
    ensures var a, b := parse(actual), parse(target);
            var cmp := op => CompareValue(actual, target, op, vt, parse);
            && (a.Some? && b.Some? && !vt.Textual? ==>
                 && (cmp(Gt) <==> a.value > b.value) && (cmp(Lt) <==> a.value < b.value)
                 && (cmp(Gte) <==> a.value >= b.value) && (cmp(Lte) <==> a.value <= b.value)
                 && (cmp(Eq) <==> -0.001 < a.value - b.value < 0.001) && (cmp(Ne) <==> !cmp(Eq)))
            && (vt.Textual? || (vt.Auto? && !(a.Some? && b.Some?)) ==>
                 && !cmp(Gt) && !cmp(Lt) && !cmp(Gte) && !cmp(Lte)
                 && (cmp(Eq) <==> actual == target) && (cmp(Ne) <==> actual != target))
            && (vt.Numeric? && !(a.Some? && b.Some?) ==> forall op :: !cmp(op))
            && (!(vt.Numeric? && !(a.Some? && b.Some?)) ==> (cmp(Has) <==> Contains(actual, target)))
  {
    if vt.Numeric? && !(parse(actual).Some? && parse(target).Some?) {
      forall op: ComparisonOp ensures !CompareValue(actual, target, op, vt, parse) {}
    }
  }

  // ---- higher values ----

  /** The same text, or a number that is at least as high. */
  predicate AtLeast(x: string, x': string, parse: string -> Option<real>) {
    x' == x || (parse(x).Some? && parse(x').Some? && parse(x).value <= parse(x').value)
  }

  /** A threshold from below: `gt` or `gte` between numbers. */
  predicate FromBelow(op: ComparisonOp, vt: ValueType) {
    (op.Gt? || op.Gte?) && vt.Numeric?
  }

  /** Conditions that ask for high values only. */
  predicate AsksForMore(c: Condition)
    decreases c
  {
    match c
    case EventIs(_, _, valuePattern, _) => valuePattern.None?
    case EdgeIs(_, _, _) => true
    case NodeHas(_, _, metrics) => forall i | 0 <= i < |metrics| :: FromBelow(metrics[i].op, metrics[i].valueType)
    case SignalIs(_, _, op, _, vt) => FromBelow(op, vt)
    case AnyOf(cs) => forall i | 0 <= i < |cs| :: AsksForMore(cs[i])
    case AllOf(cs) => forall i | 0 <= i < |cs| :: AsksForMore(cs[i])
  }

  predicate MetadataRaised(m: map<string, string>, m': map<string, string>, parse: string -> Option<real>) {
    forall k | k in m :: k in m' && AtLeast(m[k], m'[k], parse)
  }

  /** The same events, edges and nodes with values at least as high. */
  predicate Raised(events: seq<Event>, events': seq<Event>, v: View, v': View, parse: string -> Option<real>) {
    && |events'| == |events|
    && (forall i | 0 <= i < |events| ::
          events'[i] == events[i].(value := events'[i].value) && AtLeast(events[i].value, events'[i].value, parse))
    && v'.edges == v.edges
    && (forall id | id in v.nodes ::
          id in v'.nodes && v'.nodes[id].kind == v.nodes[id].kind
          && MetadataRaised(v.nodes[id].metadata, v'.nodes[id].metadata, parse))
  }

  lemma HigherCompares(x: string, x': string, target: string, op: ComparisonOp, vt: ValueType,
                       parse: string -> Option<real>)
    requires AtLeast(x, x', parse) && FromBelow(op, vt) && CompareValue(x, target, op, vt, parse)
    ensures CompareValue(x', target, op, vt, parse)
  {}

  lemma HigherNodeFits(id: string, n: Node, n': Node, c: Condition, parse: string -> Option<real>)
    requires c.NodeHas? && AsksForMore(c) && NodeFits(id, n, c, parse)
    requires n'.kind == n.kind && MetadataRaised(n.metadata, n'.metadata, parse)
    ensures NodeFits(id, n', c, parse)
  {
    forall i | 0 <= i < |c.metrics| ensures MetricFits(c.metrics[i], n'.metadata, parse) {
      var m := c.metrics[i];
      assert MetricFits(m, n.metadata, parse);
      HigherCompares(n.metadata[m.key], n'.metadata[m.key], m.target, m.op, m.valueType, parse);
    }
  }

  /** A condition that asks for high values and holds still holds when values rise. */
  lemma {:induction false} HigherStillHolds(c: Condition, events: seq<Event>, events': seq<Event>, v: View, v': View,
                                            parse: string -> Option<real>)
    requires AsksForMore(c) && Raised(events, events', v, v', parse) && Holds(c, events, v, parse)
    ensures Holds(c, events', v', parse)
    decreases c
  {
    match c
    case EventIs(_, _, _, _) =>
      var i :| 0 <= i < |events| && EventFits(events[i], c, parse);
      assert EventFits(events'[i], c, parse);
    case EdgeIs(_, _, _) =>
    case NodeHas(_, _, _) =>
      var id :| id in v.nodes && NodeFits(id, v.nodes[id], c, parse);
      HigherNodeFits(id, v.nodes[id], v'.nodes[id], c, parse);
    case SignalIs(_, _, op, target, vt) =>
      var id :| id in v.nodes && SignalFits(id, v.nodes[id], c, parse);
      HigherCompares(v.nodes[id].metadata["value"], v'.nodes[id].metadata["value"], target, op, vt, parse);
      assert SignalFits(id, v'.nodes[id], c, parse);
    case AnyOf(cs) =>
      var i :| 0 <= i < |cs| && Holds(cs[i], events, v, parse);
      HigherStillHolds(cs[i], events, events', v, v', parse);
    case AllOf(cs) =>
      forall i | 0 <= i < |cs| ensures Holds(cs[i], events', v', parse) {
        HigherStillHolds(cs[i], events, events', v, v', parse);
      }
  }

  // ---- what leaves ask for ----

  /** The number under the key exceeds the limit. */
  predicate Exceeds(metadata: map<string, string>, key: string, limit: real, parse: string -> Option<real>) {
    key in metadata && parse(metadata[key]).Some? && parse(metadata[key]).value > limit
  }

  /** A metric condition asks for a node that exceeds its target. */
  lemma MetricMeans(key: string, target: string, limit: real, events: seq<Event>, v: View,
                    parse: string -> Option<real>)
    requires parse(target) == Some(limit)
    ensures Holds(NodeHas(None, None, [MetricCondition(key, Gt, target, Numeric)]), events, v, parse) <==>
            exists id | id in v.nodes :: Exceeds(v.nodes[id].metadata, key, limit, parse)
  {
    var m := MetricCondition(key, Gt, target, Numeric);
    var c := NodeHas(None, None, [m]);
    forall id | id in v.nodes
      ensures NodeFits(id, v.nodes[id], c, parse) <==> Exceeds(v.nodes[id].metadata, key, limit, parse)
    {
      assert c.metrics[0] == m;
    }
  }

  /** A signal condition asks for a node of the signal, of any owner, that exceeds its target. */
  lemma SignalMeans(signal: string, target: string, limit: real, events: seq<Event>, v: View,
                    parse: string -> Option<real>)
    requires parse(target) == Some(limit)
    ensures Holds(SignalIs(signal, None, Gt, target, Numeric), events, v, parse) <==>
            exists id | id in v.nodes ::
              StartsWith(id, "signal::" + signal + "::") && Exceeds(v.nodes[id].metadata, "value", limit, parse)
  {
    var c := SignalIs(signal, None, Gt, target, Numeric);
    forall id | id in v.nodes
      ensures SignalFits(id, v.nodes[id], c, parse) <==>
              StartsWith(id, "signal::" + signal + "::") && Exceeds(v.nodes[id].metadata, "value", limit, parse)
    {}
  }

  /** An edge condition with plain words for its ends asks for that edge. */
  lemma EdgeMeans(kind: EdgeKind, a: string, b: string, events: seq<Event>, v: View, parse: string -> Option<real>)
    requires Plain(a) && Plain(b)
    ensures Holds(EdgeIs(EdgeTypeName(kind), Some(a), Some(b)), events, v, parse) <==> EdgeView(kind, a, b) in v.edges
  {
    var c := EdgeIs(EdgeTypeName(kind), Some(a), Some(b));
    forall i | 0 <= i < |v.edges| ensures EdgeFits(v.edges[i], c) <==> v.edges[i] == EdgeView(kind, a, b) {
      PatternLaws(v.edges[i].from, a);
      PatternLaws(v.edges[i].to, b);
      assert EdgeTypeName(v.edges[i].kind)[0] == EdgeTypeName(kind)[0] <==> v.edges[i].kind == kind;
    }
  }

  // ---- what the names in a condition stand for ----

  predicate SomeEvent(events: seq<Event>, kind: EventKind) {
    exists i | 0 <= i < |events| :: events[i].kind == kind
  }

  /** The condition by name alone asks for an event of the kind. */
  predicate AsksFor(name: string, kind: EventKind, events: seq<Event>, v: View, parse: string -> Option<real>) {
    Holds(EventIs(name, None, None, None), events, v, parse) <==> SomeEvent(events, kind)
  }

  const EVENT_NAMES: map<string, EventKind> := map[
    "compute.util" := ComputeUtil, "compute.mem" := ComputeMem, "transport.bw" := TransportBw,
    "transport.drop" := TransportDrop, "storage.iops" := StorageIops, "storage.qdepth" := StorageQDepth,
    "process.state" := ProcessState, "error.hw" := ErrorHw, "error.net" := ErrorNet,
    "topo.link_down" := TopoLinkDown, "intent.run" := IntentRun, "action.exec" := ActionExec]

  /** What the names of events in conditions stand for. */
  lemma EventNames(name: string, events: seq<Event>, v: View, parse: string -> Option<real>)
    requires name in EVENT_NAMES
    ensures AsksFor(name, EVENT_NAMES[name], events, v, parse)
  {
    assert KindName(EVENT_NAMES[name]) == name;
    NamedEvent(name, EVENT_NAMES[name], events, v, parse);
  }

  lemma KindNamesDiffer(a: EventKind, b: EventKind)
    ensures KindName(a) == KindName(b) <==> a == b
  {
    var x, y := KindName(a), KindName(b);
    assert a != b ==> |x| != |y| || x[0] != y[0] || x[1] != y[1];
  }

  lemma NamedEvent(name: string, kind: EventKind, events: seq<Event>, v: View, parse: string -> Option<real>)
    requires name == KindName(kind)
    ensures AsksFor(name, kind, events, v, parse)
  {
    var c := EventIs(name, None, None, None);
    forall i | 0 <= i < |events| ensures EventFits(events[i], c, parse) <==> events[i].kind == kind {
      KindNamesDiffer(events[i].kind, kind);
    }
  }

  /** A threshold asks for an event of the kind with a number that is at least that high. */
  lemma ThresholdMeans(kind: EventKind, limit: real, events: seq<Event>, v: View, parse: string -> Option<real>)
    ensures Holds(EventIs(KindName(kind), None, None, Some(limit)), events, v, parse) <==>
            exists i | 0 <= i < |events| ::
              events[i].kind == kind && parse(events[i].value).Some? && parse(events[i].value).value >= limit
  {
    var c := EventIs(KindName(kind), None, None, Some(limit));
    forall i | 0 <= i < |events|
      ensures EventFits(events[i], c, parse) <==>
              events[i].kind == kind && parse(events[i].value).Some? && parse(events[i].value).value >= limit
    {
      KindNamesDiffer(events[i].kind, kind);
    }
  }

  predicate SomeEdge(v: View, kind: EdgeKind) {
    exists i | 0 <= i < |v.edges| :: v.edges[i].kind == kind
  }

  predicate SomeNode(v: View, kind: NodeKind) {
    exists id | id in v.nodes :: v.nodes[id].kind == kind
  }

  /** Edge and node conditions by type alone ask for an edge or node of that type. */
  lemma TypeNames(events: seq<Event>, v: View, parse: string -> Option<real>)
    ensures var edge := name => Holds(EdgeIs(name, None, None), events, v, parse);
            && (edge("consumes") <==> SomeEdge(v, Consumes))
            && (edge("waits_on") <==> SomeEdge(v, WaitsOn))
            && (edge("blocked_by") <==> SomeEdge(v, BlockedBy))
    ensures var node := name => Holds(NodeHas(Some(name), None, []), events, v, parse);
            && (node("process") <==> SomeNode(v, Process))
            && (node("resource") <==> SomeNode(v, Resource))
            && (node("error") <==> SomeNode(v, Error))
  {
    NamedEdge("consumes", Consumes, events, v, parse);
    NamedEdge("waits_on", WaitsOn, events, v, parse);
    NamedEdge("blocked_by", BlockedBy, events, v, parse);
    NamedNode("process", Process, events, v, parse);
    NamedNode("resource", Resource, events, v, parse);
    NamedNode("error", Error, events, v, parse);
  }

  lemma NamedEdge(name: string, kind: EdgeKind, events: seq<Event>, v: View, parse: string -> Option<real>)
    requires name == EdgeTypeName(kind)
    ensures Holds(EdgeIs(name, None, None), events, v, parse) <==> SomeEdge(v, kind)
  {
    var c := EdgeIs(name, None, None);
    forall i | 0 <= i < |v.edges| ensures EdgeFits(v.edges[i], c) <==> v.edges[i].kind == kind {
      assert EdgeTypeName(v.edges[i].kind)[0] == name[0] <==> v.edges[i].kind == kind;
    }
  }

  lemma NamedNode(name: string, kind: NodeKind, events: seq<Event>, v: View, parse: string -> Option<real>)
    requires name == NodeTypeName(kind)
    ensures Holds(NodeHas(Some(name), None, []), events, v, parse) <==> SomeNode(v, kind)
  {
    var c := NodeHas(Some(name), None, []);
    forall id | id in v.nodes ensures NodeFits(id, v.nodes[id], c, parse) <==> v.nodes[id].kind == kind {
      assert NodeTypeName(v.nodes[id].kind)[0] == name[0] <==> v.nodes[id].kind == kind;
    }
  }

  // ---- rules ----

  datatype Header = Header(name: string, scene: string, priority: nat)

  datatype Rule = Rule(id: Option<string>, header: Header, conditions: seq<Condition>)

  /** Conditions as written: the list form, or the older form with `all` or `any`. */
  datatype ConditionsWire =
    | New(conditions: seq<Condition>)
    | Legacy(all: Option<seq<Condition>>, any: Option<seq<Condition>>)

  datatype RuleWire = RuleWire(id: Option<string>, header: Header, conditions: ConditionsWire)

  datatype Normalized = Normal(rule: Rule, migrated: bool) | Rejected

  function Normalize(w: RuleWire): Normalized {
    match w.conditions
    case New(cs) => Normal(Rule(w.id, w.header, cs), false)
    case Legacy(Some(cs), None) => Normal(Rule(w.id, w.header, [AllOf(cs)]), true)
    case Legacy(None, Some(cs)) => Normal(Rule(w.id, w.header, [AnyOf(cs)]), true)
    case Legacy(Some(_), Some(_)) => Rejected
    case Legacy(None, None) => Rejected
  }

  /** The normal form of an older rule matches exactly as its keyword says. */
  lemma NormalizeMeans(w: RuleWire, events: seq<Event>, v: View, parse: string -> Option<real>)
    requires w.conditions.Legacy?
    ensures var n := Normalize(w);
            && (n.Normal? <==> w.conditions.all.Some? != w.conditions.any.Some?)
            && (n.Normal? && w.conditions.all.Some? ==>
                 (MatchesAll(n.rule.conditions, events, v, parse) <==>
                   MatchesAll(w.conditions.all.value, events, v, parse)))
            && (n.Normal? && w.conditions.any.Some? ==>
                 (MatchesAll(n.rule.conditions, events, v, parse) <==>
                   exists i | 0 <= i < |w.conditions.any.value| :: Holds(w.conditions.any.value[i], events, v, parse)))
  {
    var n := Normalize(w);
    if n.Normal? {
      var c := n.rule.conditions[0];
      assert n.rule.conditions == [c];
      assert MatchesAll(n.rule.conditions, events, v, parse) <==> Holds(c, events, v, parse);
    }
  }
}
