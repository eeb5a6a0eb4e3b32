/** The evaluation of rule conditions (core/src/rules/matcher.rs): scans with early
    returns, proved to decide what `Rules` says a condition means. */
module Matcher {
  import opened Events
  import opened Text
  import opened Seqs
  import opened Glob
  import opened Graph
  import opened Rules

  method MatchesValuePattern(text: string, pattern: string) returns (ok: bool)
    ensures ok <==> ValuePattern(text, pattern)
  {
    var alternatives := Split(pattern, '|');
    for i := 0 to |alternatives|
      invariant forall j | 0 <= j < i :: Trim(alternatives[j]) == "" || !Contains(text, Trim(alternatives[j]))
    {
      var p := Trim(alternatives[i]);
      if p != "" && Contains(text, p) {
        return true;
      }
    }
    return false;
  }

  method MatchesOptional(text: string, pattern: Option<string>) returns (ok: bool)
    ensures ok <==> Fits(text, pattern)
  {
    if pattern.None? {
      return true;
    }
    ok := MatchesPattern(text, pattern.value);
  }

  method MatchEvent(event: Event, c: Condition, parse: string -> Option<real>) returns (ok: bool)
    requires c.EventIs?
    ensures ok <==> EventFits(event, c, parse)
  {
    if KindName(event.kind) != c.eventType {
      return false;
    }
    var hit := MatchesOptional(event.entity, c.entityPattern);
    if !hit {
      return false;
    }
    if c.valuePattern.Some? {
      hit := MatchesValuePattern(event.value, c.valuePattern.value);
      if !hit {
        return false;
      }
    }
    if c.threshold.Some? {
      var value := parse(event.value);
      if value.None? || value.value < c.threshold.value {
        return false;
      }
    }
    return true;
  }

  method MatchAnyEvent(events: seq<Event>, c: Condition, parse: string -> Option<real>) returns (ok: bool)
    requires c.EventIs?
    ensures ok <==> exists i | 0 <= i < |events| :: EventFits(events[i], c, parse)
  {
    for n := 0 to |events|
      invariant forall i | 0 <= i < n :: !EventFits(events[i], c, parse)
    {
      var hit := MatchEvent(events[n], c, parse);
      if hit {
        return true;
      }
    }
    return false;
  }

  method MatchAnyEdge(edges: seq<EdgeView>, c: Condition) returns (ok: bool)
    requires c.EdgeIs?
    ensures ok <==> exists i | 0 <= i < |edges| :: EdgeFits(edges[i], c)
  {
    for n := 0 to |edges|
      invariant forall i | 0 <= i < n :: !EdgeFits(edges[i], c)
    {
      if EdgeTypeName(edges[n].kind) == c.edgeType {
        var source := MatchesOptional(edges[n].from, c.fromPattern);
        if source {
          var target := MatchesOptional(edges[n].to, c.toPattern);
          if target {
            return true;
          }
        }
      }
    }
    return false;
  }

  method MatchNode(id: string, node: Node, c: Condition, parse: string -> Option<real>) returns (ok: bool)
    requires c.NodeHas?
    ensures ok <==> NodeFits(id, node, c, parse)
  {
    if c.nodeType.Some? && NodeTypeName(node.kind) != c.nodeType.value {
      return false;
    }
    var hit := MatchesOptional(id, c.idPattern);
    if !hit {
      return false;
    }
    for n := 0 to |c.metrics|
      invariant forall i | 0 <= i < n :: MetricFits(c.metrics[i], node.metadata, parse)
    {
      if !MetricFits(c.metrics[n], node.metadata, parse) {
        return false;
      }
    }
    return true;
  }

  /** The nodes come in any order. */
  method MatchAnyNode(nodes: map<string, Node>, c: Condition, parse: string -> Option<real>) returns (ok: bool)
    requires c.NodeHas?
    ensures ok <==> exists id | id in nodes :: NodeFits(id, nodes[id], c, parse)
  {
    var left := nodes.Keys;
    while left != {}
      invariant left <= nodes.Keys
      invariant forall id | id in nodes && id !in left :: !NodeFits(id, nodes[id], c, parse)
      decreases |left|
    {
      var id :| id in left;
      var hit := MatchNode(id, nodes[id], c, parse);
      if hit {
        return true;
      }
      left := left - {id};
    }
    return false;
  }

  // ---- signals: the newest candidate first ----

  datatype Candidate = Candidate(id: string, node: Node)

  function LastUpdate(c: Candidate): nat {
    c.node.lastUpdate
  }

  /** The nodes of the signal, in any order. */
  method Candidates(nodes: map<string, Node>, prefix: string) returns (r: seq<Candidate>)
    ensures forall c | c in r :: c.id in nodes && nodes[c.id] == c.node && StartsWith(c.id, prefix)
    ensures forall id | id in nodes && StartsWith(id, prefix) :: Candidate(id, nodes[id]) in r
  {
    r := [];
    var left := nodes.Keys;
    while left != {}
      invariant left <= nodes.Keys
      invariant forall c | c in r :: c.id in nodes && nodes[c.id] == c.node && StartsWith(c.id, prefix)
      invariant forall id | id in nodes && id !in left && StartsWith(id, prefix) :: Candidate(id, nodes[id]) in r
      decreases |left|
    {
      var id :| id in left;
      if StartsWith(id, prefix) {
        r := r + [Candidate(id, nodes[id])];
      }
      left := left - {id};
    }
  }

  /** One candidate, whose id begins with the prefix of the signal. */
  method MatchSignal(id: string, node: Node, c: Condition, parse: string -> Option<real>) returns (ok: bool)
    requires c.SignalIs? && StartsWith(id, SignalPrefix(c.signal))
    ensures ok <==> SignalFits(id, node, c, parse)
  {
    var hit := MatchesOptional(id[|SignalPrefix(c.signal)|..], c.ownerPattern);
    if !hit || "value" !in node.metadata {
      return false;
    }
    return CompareValue(node.metadata["value"], c.target, c.op, c.valueType, parse);
  }

  lemma SortHas(candidates: seq<Candidate>, c: Candidate)
    ensures c in SortDesc(candidates, LastUpdate) <==> c in candidates
  {
    SortDescIs(candidates, LastUpdate, 0);
    SameElements(candidates, SortDesc(candidates, LastUpdate));
  }

  /** Scans the candidates from the newest to the oldest; which of two as old comes first
      depends on the order of collection. */
  method MatchAnySignal(nodes: map<string, Node>, c: Condition, parse: string -> Option<real>) returns (ok: bool)
    requires c.SignalIs?
    ensures ok <==> exists id | id in nodes :: SignalFits(id, nodes[id], c, parse)
  {
    var candidates := Candidates(nodes, SignalPrefix(c.signal));
    var newestFirst := SortDesc(candidates, LastUpdate);
    for n := 0 to |newestFirst|
      invariant forall i | 0 <= i < n :: !SignalFits(newestFirst[i].id, newestFirst[i].node, c, parse)
    {
      SortHas(candidates, newestFirst[n]);
      var hit := MatchSignal(newestFirst[n].id, newestFirst[n].node, c, parse);
      if hit {
        return true;
      }
    }
    forall id | id in nodes ensures !SignalFits(id, nodes[id], c, parse) {
      SortHas(candidates, Candidate(id, nodes[id]));
    }
    return false;
  }

  // ---- condition trees ----

  /** The recursion over a condition decides whether it holds. */
  method MatchCondition(c: Condition, events: seq<Event>, v: View, parse: string -> Option<real>) returns (ok: bool)
    ensures ok <==> Holds(c, events, v, parse)
    decreases c
  {
    match c {
      case EventIs(_, _, _, _) => ok := MatchAnyEvent(events, c, parse);
      case EdgeIs(_, _, _) => ok := MatchAnyEdge(v.edges, c);
      case NodeHas(_, _, _) => ok := MatchAnyNode(v.nodes, c, parse);
      case SignalIs(_, _, _, _, _) => ok := MatchAnySignal(v.nodes, c, parse);
      case AnyOf(cs) =>
        for n := 0 to |cs|
          invariant forall i | 0 <= i < n :: !Holds(cs[i], events, v, parse)
        {
          var hit := MatchCondition(cs[n], events, v, parse);
          if hit {
            return true;
          }
        }
        return false;
      case AllOf(cs) =>
        ok := MatchAllConditions(cs, events, v, parse);
    }
  }

  /** The scan over a list of conditions, stopping at the first that fails. */
  method MatchAllConditions(cs: seq<Condition>, events: seq<Event>, v: View, parse: string -> Option<real>)
    returns (ok: bool)
    ensures ok <==> MatchesAll(cs, events, v, parse)
    decreases cs
  {
    for n := 0 to |cs|
      invariant forall i | 0 <= i < n :: Holds(cs[i], events, v, parse)
    {
      var hit := MatchCondition(cs[n], events, v, parse);
      if !hit {
        return false;
      }
    }
    return true;
  }
}
