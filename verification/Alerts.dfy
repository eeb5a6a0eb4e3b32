/** From the events to a rule (core/src/graph.rs, core/src/rules/matcher.rs): what a rule about
    a signal sees. */
module Alerts {
  import opened Events
  import opened Text
  import opened Graph
  import opened Naming
  import opened Rules
  import opened Signals
  import opened StateGraph
  import opened Attribution
  import opened Emissions
  import Dedup

  /** The rules see every node of the graph under its text. */
  ghost predicate Shows(v: View, nodes: Nodes) {
    forall id | id in nodes :: Render(id) in v.nodes && v.nodes[Render(id)] == nodes[id]
  }

  /** Numbers read back as they were printed. */
  ghost predicate RoundTrips(fl: Floats) {
    forall x :: fl.parse(fl.show(x)) == Some(x)
  }

  lemma SignalTextIs(name: string, owner: string)
    ensures var id := Render(SignalId(name, owner));
            StartsWith(id, SignalPrefix(name)) && id[|SignalPrefix(name)|..] == owner
  {
    var id := Render(SignalId(name, owner));
    assert id == SignalPrefix(name) + owner;
    assert id[..|SignalPrefix(name)|] == SignalPrefix(name);
  }

  /** A rule about a signal node fires when the number on the node is over its target, for an
      owner its pattern takes. */
  lemma SignalFires(v: View, name: string, owner: string, pattern: Option<string>, x: real, target: string, limit: real,
                    events: seq<Event>, fl: Floats)
    requires RoundTrips(fl) && fl.parse(target) == Some(limit) && x > limit && Fits(owner, pattern)
    requires var id := Render(SignalId(name, owner));
             id in v.nodes && "value" in v.nodes[id].metadata && v.nodes[id].metadata["value"] == fl.show(x)
    ensures Holds(SignalIs(name, pattern, Gt, target, Numeric), events, v, fl.parse)
  {
    SignalTextIs(name, owner);
    ComparisonLaws(fl.show(x), target, Numeric, fl.parse);
    assert SignalFits(Render(SignalId(name, owner)), v.nodes[Render(SignalId(name, owner))],
                      SignalIs(name, pattern, Gt, target, Numeric), fl.parse);
  }

  /** A node that shows a report over the target makes the rule fire. */
  lemma ReportFires(v: View, nodes: Nodes, spec: SignalSpec, node: string, out: seq<Sample>, target: string, limit: real,
                    events: seq<Event>, fl: Floats)
    requires RoundTrips(fl) && fl.parse(target) == Some(limit) && Shows(v, nodes)
    requires ShowsLatest(nodes, SignalKey(spec.name, node), out, spec, fl.show)
    requires out != [] && out[|out| - 1].value > limit
    ensures Holds(SignalIs(spec.name, None, Gt, target, Numeric), events, v, fl.parse)
  {
    var id := SignalId(spec.name, node);
    assert id in nodes && nodes[id].metadata["value"] == fl.show(out[|out| - 1].value);
    SignalFires(v, spec.name, node, None, out[|out| - 1].value, target, limit, events, fl);
  }

  /** End to end: after any stream in time order, if the latest report of an agent's utilisation
      is a mean over the target, the rule that asks for more than the target fires. */
  lemma HighUtilisationFires(h: seq<Event>, node: string, target: string, limit: real, v: View,
                             events: seq<Event>, fl: Floats)
    requires Dedup.Ordered(h) && RoundTrips(fl) && fl.parse(target) == Some(limit)
    requires Shows(v, FoldEvents(h, fl).graph.nodes)
    requires var out := Reported(UtilAverage, Utilisations(h, node, fl.parse));
             out != [] && out[|out| - 1].value > limit
    ensures Holds(SignalIs("hardware.gpu.util_avg_1m", None, Gt, target, Numeric), events, v, fl.parse)
  {
    var out := Reported(UtilAverage, Utilisations(h, node, fl.parse));
    UtilisationIsShown(h, node, fl);
    ReportFires(v, FoldEvents(h, fl).graph.nodes, UtilAverage, node, out, target, limit, events, fl);
  }
}
