/** What is safe about the graph over text (core/src/graph.rs) even where names are the
    same text: edges join present nodes of the right kinds in all interleavings exactly
    when no two ids of different kinds are the same text. */
module TextSafety {
  import opened Events
  import opened Seqs
  import opened Graph
  import opened Interleaving
  import opened Naming
  import opened TextGraph

  function TargetKind(k: EdgeKind): NodeKind {
    if k.BlockedBy? then Error else Resource
  }

  /** Every edge leaves a process and enters a resource or, for BlockedBy, an error, that are
      there, and no two edges have the same link. */
  predicate TypedText(g: TextGraph) {
    && (forall i | 0 <= i < |g.edges| ::
          && g.edges[i].from in g.nodes && g.nodes[g.edges[i].from].kind.Process?
          && g.edges[i].to in g.nodes && g.nodes[g.edges[i].to].kind == TargetKind(g.edges[i].kind))
    && (forall i, j | 0 <= i < j < |g.edges| :: !SameLink(g.edges[i], g.edges[j]))
  }

  /** Ids that are the same text are of the same kind. */
  ghost predicate KindsAgree(ids: set<NodeId>) {
    forall a, b | a in ids && b in ids && Render(a) == Render(b) :: KindOf(a) == KindOf(b)
  }

  // ---- the invariant ----

  /** The text is that of an id of this kind. */
  ghost predicate IsA(k: string, kind: NodeKind, ids: set<NodeId>) {
    exists id :: id in ids && Render(id) == k && KindOf(id) == kind
  }

  lemma OneKind(k: string, a: NodeKind, b: NodeKind, ids: set<NodeId>)
    requires KindsAgree(ids) && IsA(k, a, ids) && IsA(k, b, ids)
    ensures a == b
  {}

  ghost predicate NodesTyped(nodes: TextNodes, ids: set<NodeId>) {
    forall k | k in nodes :: IsA(k, nodes[k].kind, ids)
  }

  ghost predicate EndsTyped(e: TextEdge, nodes: TextNodes, ids: set<NodeId>) {
    && e.from in nodes && IsA(e.from, Process, ids)
    && e.to in nodes && IsA(e.to, TargetKind(e.kind), ids)
  }

  datatype Link = Link(kind: EdgeKind, from: string, to: string)

  function LinkOf(e: TextEdge): Link {
    Link(e.kind, e.from, e.to)
  }

  ghost predicate GraphTyped(g: TextGraph, ids: set<NodeId>) {
    && NodesTyped(g.nodes, ids)
    && (forall e | e in g.edges :: EndsTyped(e, g.nodes, ids))
    && DistinctBy(g.edges, LinkOf)
  }

  ghost predicate SnapshotTyped(s: TextSnapshot, ids: set<NodeId>) {
    (forall k | k in s.errors :: IsA(k, Error, ids)) && (forall k | k in s.dead :: IsA(k, Process, ids))
  }

  ghost predicate SystemTyped(t: TextSystem, ids: set<NodeId>) {
    GraphTyped(t.graph, ids) && forall s | s in t.inFlight :: SnapshotTyped(s, ids)
  }

  lemma TypedIsSafe(g: TextGraph, ids: set<NodeId>)
    requires KindsAgree(ids) && GraphTyped(g, ids)
    ensures TypedText(g)
  {
    forall i | 0 <= i < |g.edges|
      ensures && g.edges[i].from in g.nodes && g.nodes[g.edges[i].from].kind.Process?
              && g.edges[i].to in g.nodes && g.nodes[g.edges[i].to].kind == TargetKind(g.edges[i].kind)
    {
      var e := g.edges[i];
      assert e in g.edges && EndsTyped(e, g.nodes, ids);
      OneKind(e.from, g.nodes[e.from].kind, Process, ids);
      OneKind(e.to, g.nodes[e.to].kind, TargetKind(e.kind), ids);
    }
    forall i, j | 0 <= i < j < |g.edges| ensures !SameLink(g.edges[i], g.edges[j]) {
      assert LinkOf(g.edges[i]) != LinkOf(g.edges[j]);
    }
  }

  // ---- handlers keep it ----

  lemma HasKind(id: NodeId, ids: set<NodeId>)
    requires id in ids
    ensures IsA(Render(id), KindOf(id), ids)
  {}

  lemma EnsureTyped(nodes: TextNodes, id: NodeId, ts: nat, metadata: map<string, string>, ids: set<NodeId>)
    requires NodesTyped(nodes, ids) && id in ids
    ensures var nodes' := EnsureText(nodes, Render(id), KindOf(id), ts, metadata);
            NodesTyped(nodes', ids) && nodes'.Keys == nodes.Keys + {Render(id)}
  {
    HasKind(id, ids);
  }

  lemma ObserveTyped(nodes: TextNodes, id: NodeId, ts: nat, key: string, value: string, ids: set<NodeId>)
    requires NodesTyped(nodes, ids) && id in ids && KindOf(id).Resource?
    ensures var nodes' := ObserveText(nodes, Render(id), ts, key, value);
            NodesTyped(nodes', ids) && nodes'.Keys == nodes.Keys + {Render(id)}
  {
    EnsureTyped(nodes, id, ts, map[], ids);
  }

  lemma ProcessTyped(nodes: TextNodes, e: Event, ids: set<NodeId>)
    requires NodesTyped(nodes, ids) && ProcessIn(e.node, e.pid) <= ids
    ensures NodesTyped(ProcessText(nodes, e), ids) && nodes.Keys <= ProcessText(nodes, e).Keys
  {
    if e.pid.Some? {
      Spelled(e, "", e.pid.value);
      assert ProcessId(e.node, e.pid.value) in ids;
      HasKind(ProcessId(e.node, e.pid.value), ids);
    }
  }

  lemma UpsertTyped(edges: seq<TextEdge>, e: TextEdge, nodes: TextNodes, ids: set<NodeId>)
    requires (forall x | x in edges :: EndsTyped(x, nodes, ids)) && DistinctBy(edges, LinkOf)
    requires EndsTyped(e, nodes, ids)
    ensures var edges' := UpsertText(edges, e);
            (forall x | x in edges' :: EndsTyped(x, nodes, ids)) && DistinctBy(edges', LinkOf)
  {
    forall i | 0 <= i < |edges| ensures SameLink(edges[i], e) <==> LinkOf(edges[i]) == LinkOf(e) {}
  }

  /** More nodes do not hurt the edges. */
  lemma EndsStay(edges: seq<TextEdge>, nodes: TextNodes, nodes': TextNodes, ids: set<NodeId>)
    requires (forall x | x in edges :: EndsTyped(x, nodes, ids)) && nodes.Keys <= nodes'.Keys
    ensures forall x | x in edges :: EndsTyped(x, nodes', ids)
  {
    forall x | x in edges ensures EndsTyped(x, nodes', ids) {
      assert EndsTyped(x, nodes, ids);
      assert x.from in nodes.Keys && x.to in nodes.Keys;
    }
  }

  /** An observation and a link from a process to the resource. */
  lemma LinkTyped(g: TextGraph, nodes: TextNodes, kind: EdgeKind, proc: NodeId, res: NodeId, ts: nat,
                  metadata: map<string, string>, ids: set<NodeId>)
    requires GraphTyped(g, ids) && NodesTyped(nodes, ids) && g.nodes.Keys <= nodes.Keys && Render(res) in nodes
    requires proc in ids && res in ids && proc.ProcessId? && KindOf(res).Resource? && !kind.BlockedBy?
    ensures GraphTyped(TextGraph(EnsureText(nodes, Render(proc), Process, ts, metadata),
                                 UpsertText(g.edges, TextEdge(kind, Render(proc), Render(res), ts))), ids)
  {
    var nodes' := EnsureText(nodes, Render(proc), Process, ts, metadata);
    EnsureTyped(nodes, proc, ts, metadata, ids);
    EndsStay(g.edges, g.nodes, nodes', ids);
    HasKind(proc, ids);
    HasKind(res, ids);
    assert Render(proc) in nodes'.Keys && Render(res) in nodes.Keys;
    UpsertTyped(g.edges, TextEdge(kind, Render(proc), Render(res), ts), nodes', ids);
  }

  lemma ComputeTyped(g: TextGraph, e: Event, ids: set<NodeId>)
    requires GraphTyped(g, ids) && {ResourceId(e.node, e.entity)} + ProcessIn(e.node, e.pid) <= ids
    ensures GraphTyped(ComputeText(g, e), ids)
  {
    var res := ResourceId(e.node, e.entity);
    assert res in ids;
    Spelled(e, e.entity, if e.pid.Some? then e.pid.value else 0);
    var nodes := ObserveText(g.nodes, Render(res), e.ts, "util", e.value);
    ObserveTyped(g.nodes, res, e.ts, "util", e.value, ids);
    EndsStay(g.edges, g.nodes, nodes, ids);
    if e.pid.Some? {
      assert ProcessId(e.node, e.pid.value) in ids && Render(res) in nodes.Keys;
      LinkTyped(g, nodes, Consumes, ProcessId(e.node, e.pid.value), res, e.ts, map[], ids);
    }
  }

  lemma TransportTyped(g: TextGraph, e: Event, parse: string -> Option<real>, ids: set<NodeId>)
    requires GraphTyped(g, ids)
    requires {ResourceId(e.node, TransportEntity(e.entity))} + ProcessIn(e.node, Waiter(e, parse)) <= ids
    ensures GraphTyped(TransportText(g, e, parse), ids)
  {
    var res, w := ResourceId(e.node, TransportEntity(e.entity)), Waiter(e, parse);
    assert res in ids;
    Spelled(e, TransportEntity(e.entity), if w.Some? then w.value else 0);
    var nodes := ObserveText(g.nodes, Render(res), e.ts, TransportKey(e.kind), e.value);
    ObserveTyped(g.nodes, res, e.ts, TransportKey(e.kind), e.value, ids);
    EndsStay(g.edges, g.nodes, nodes, ids);
    if w.Some? {
      assert ProcessId(e.node, w.value) in ids && Render(res) in nodes.Keys;
      LinkTyped(g, nodes, WaitsOn, ProcessId(e.node, w.value), res, e.ts,
                if e.kind.TransportDrop? then map["state" := "running"] else map[], ids);
    }
  }

  lemma {:induction false} ConsumersTyped(edges: seq<TextEdge>, res: string, p: string)
    requires p in ConsumersText(edges, res)
    ensures exists e :: e in edges && e.from == p
  {
    var front, last := edges[..|edges| - 1], edges[|edges| - 1];
    if p in ConsumersText(front, res) {
      ConsumersTyped(front, res, p);
      var e :| e in front && e.from == p;
      assert e in edges;
    } else {
      assert last in edges;
    }
  }

  lemma {:induction false} BlockAllTyped(edges: seq<TextEdge>, procs: seq<string>, error: string, ts: nat,
                                         nodes: TextNodes, ids: set<NodeId>)
    requires (forall x | x in edges :: EndsTyped(x, nodes, ids)) && DistinctBy(edges, LinkOf)
    requires (forall p | p in procs :: p in nodes && IsA(p, Process, ids)) && error in nodes && IsA(error, Error, ids)
    ensures var edges' := BlockAllText(edges, procs, error, ts);
            (forall x | x in edges' :: EndsTyped(x, nodes, ids)) && DistinctBy(edges', LinkOf)
    decreases |procs|
  {
    if procs != [] {
      var e := TextEdge(BlockedBy, procs[0], error, ts);
      UpsertTyped(edges, e, nodes, ids);
      BlockAllTyped(UpsertText(edges, e), procs[1..], error, ts, nodes, ids);
    }
  }

  lemma ErrorTyped(g: TextGraph, e: Event, ids: set<NodeId>)
    requires GraphTyped(g, ids) && {ErrorId(e.node, e.entity), ResourceId(e.node, e.entity)} <= ids
    ensures GraphTyped(ErrorText(g, e), ids)
  {
    var id := ErrorId(e.node, e.entity);
    assert id in ids;
    Spelled(e, e.entity, 0);
    var nodes := EnsureText(g.nodes, Render(id), Error, e.ts, map["error_type" := e.value]);
    EnsureTyped(g.nodes, id, e.ts, map["error_type" := e.value], ids);
    EndsStay(g.edges, g.nodes, nodes, ids);
    HasKind(id, ids);
    var procs := ConsumersText(g.edges, Namespaced(e, e.entity));
    forall p | p in procs ensures p in nodes && IsA(p, Process, ids) {
      ConsumersTyped(g.edges, Namespaced(e, e.entity), p);
      var x :| x in g.edges && x.from == p;
      assert EndsTyped(x, nodes, ids);
    }
    assert Render(id) in nodes.Keys;
    BlockAllTyped(g.edges, procs, Render(id), e.ts, nodes, ids);
  }

  lemma HandleTyped(g: TextGraph, e: Event, parse: string -> Option<real>, ids: set<NodeId>)
    requires GraphTyped(g, ids) && EventUses(e, parse) <= ids
    ensures GraphTyped(HandleText(g, e, parse), ids)
  {
    match e.kind
    case ProcessState =>
      ProcessTyped(g.nodes, e, ids);
      EndsStay(g.edges, g.nodes, ProcessText(g.nodes, e), ids);
    case ComputeUtil | ComputeMem => ComputeTyped(g, e, ids);
    case TransportBw | TransportDrop | StorageIops | StorageQDepth => TransportTyped(g, e, parse, ids);
    case ErrorHw | ErrorNet | TopoLinkDown => ErrorTyped(g, e, ids);
    case _ =>
  }

  lemma {:induction false} PublishTyped(nodes: TextNodes, points: seq<SignalNode>, ids: set<NodeId>)
    requires NodesTyped(nodes, ids) && PointUses(points) <= ids
    ensures NodesTyped(PublishText(nodes, points), ids) && nodes.Keys <= PublishText(nodes, points).Keys
  {
    if points != [] {
      var p, front := points[|points| - 1], points[..|points| - 1];
      assert p in points && SignalId(p.name, p.owner) in ids;
      assert PointUses(front) <= PointUses(points);
      SignalIsRendered(p);
      HasKind(SignalId(p.name, p.owner), ids);
      PublishTyped(nodes, front, ids);
    }
  }

  // ---- cleanups keep it ----

  /** The edges left by a cleanup are edges that survive it, with distinct links. */
  lemma SweptTextIs(edges: seq<TextEdge>, s: TextSnapshot)
    requires DistinctBy(edges, LinkOf)
    ensures var r := CappedText(SweptText(edges, s));
            && DistinctBy(r, LinkOf)
            && (forall e | e in r ::
                  e in edges && !(e.kind.BlockedBy? && e.to in s.errors) && e.from !in s.dead && e.to !in s.dead)
  {
    var a := Retain(edges, OffErrorsText(s.errors));
    var b := Retain(a, OffDeadText(s.dead));
    var cutoff := SatSub(s.now, EDGE_TTL_MS);
    var c := Retain(b, SinceText(cutoff));
    RetainDistinct(edges, OffErrorsText(s.errors), LinkOf);
    RetainDistinct(a, OffDeadText(s.dead), LinkOf);
    RetainDistinct(b, SinceText(cutoff), LinkOf);
    CappedTextIs(c);
    forall e | e in CappedText(c)
      ensures e in edges && !(e.kind.BlockedBy? && e.to in s.errors) && e.from !in s.dead && e.to !in s.dead
    {
      RetainHas(b, SinceText(cutoff), e);
      RetainHas(a, OffDeadText(s.dead), e);
      RetainHas(edges, OffErrorsText(s.errors), e);
    }
  }

  lemma CappedTextIs(edges: seq<TextEdge>)
    requires DistinctBy(edges, LinkOf)
    ensures DistinctBy(CappedText(edges), LinkOf) && forall e | e in CappedText(edges) :: e in edges
  {
    var sorted := SortDesc(edges, TextTs);
    SortDescIs(edges, TextTs, 0);
    PermutedDistinct(edges, sorted, LinkOf);
    SameElements(edges, sorted);
  }

  lemma CleanupTyped(g: TextGraph, s: TextSnapshot, ids: set<NodeId>)
    requires KindsAgree(ids) && GraphTyped(g, ids) && SnapshotTyped(s, ids)
    ensures GraphTyped(CleanupText(g, s), ids)
  {
    SweptTextIs(g.edges, s);
    var g' := CleanupText(g, s);
    forall e | e in g'.edges ensures EndsTyped(e, g'.nodes, ids) {
      assert EndsTyped(e, g.nodes, ids);
      if e.from in s.errors {
        OneKind(e.from, Process, Error, ids);
      }
      if e.to in s.errors {
        OneKind(e.to, TargetKind(e.kind), Error, ids);
      }
    }
  }

  lemma SnapshotIsTyped(nodes: TextNodes, now: nat, ids: set<NodeId>)
    requires NodesTyped(nodes, ids)
    ensures SnapshotTyped(SnapshotText(nodes, now), ids)
  {}

  lemma NextTyped(t: TextSystem, a: Action, parse: string -> Option<real>, ids: set<NodeId>)
    requires KindsAgree(ids) && SystemTyped(t, ids) && Uses(a, parse) <= ids
    ensures SystemTyped(NextText(t, a, parse), ids)
  {
    match a
    case HandleEvent(e) => HandleTyped(t.graph, e, parse, ids);
    case PublishSignals(points) =>
      PublishTyped(t.graph.nodes, points, ids);
      EndsStay(t.graph.edges, t.graph.nodes, PublishText(t.graph.nodes, points), ids);
    case BeginCleanup(now) => SnapshotIsTyped(t.graph.nodes, now, ids);
    case FinishCleanup(i) =>
      if i < |t.inFlight| {
        CleanupTyped(t.graph, t.inFlight[i], ids);
      }
  }

  lemma {:induction false} RunTyped(actions: seq<Action>, parse: string -> Option<real>, ids: set<NodeId>)
    requires KindsAgree(ids) && RunUses(actions, parse) <= ids
    ensures SystemTyped(ExecText(TextStart, actions, parse), ids)
  {
    if actions != [] {
      RunTyped(actions[..|actions| - 1], parse, ids);
      NextTyped(ExecText(TextStart, actions[..|actions| - 1], parse), actions[|actions| - 1], parse, ids);
    }
  }

  /** In every interleaving, if ids that are the same text are of the same kind, the edges of
      the graph the code keeps join present nodes of the right kinds and no two have the
      same link. */
  lemma TextIsSafe(actions: seq<Action>, parse: string -> Option<real>)
    requires KindsAgree(RunUses(actions, parse))
    ensures TypedText(ExecText(TextStart, actions, parse).graph)
  {
    RunTyped(actions, parse, RunUses(actions, parse));
    TypedIsSafe(ExecText(TextStart, actions, parse).graph, RunUses(actions, parse));
  }

  // ---- and otherwise they do not ----

  function Use(ns: Option<string>, entity: string, pid: nat): Action {
    HandleEvent(Event(0, ComputeUtil, entity, None, Some(pid), "", ns))
  }

  function LinkText(ns: Option<string>, entity: string, pid: nat): TextEdge {
    TextEdge(Consumes, Render(ProcessId(ns, pid)), Render(ResourceId(ns, entity)), 0)
  }

  /** What the first use does: a link, and a resource if the name was not taken. */
  lemma UseIs(t: TextSystem, ns: Option<string>, entity: string, pid: nat, parse: string -> Option<real>)
    requires t.graph.edges == []
    ensures var g, g' := t.graph, NextText(t, Use(ns, entity, pid), parse).graph;
            && g'.edges == [LinkText(ns, entity, pid)]
            && (forall k | k in g.nodes :: k in g'.nodes && g'.nodes[k].kind == g.nodes[k].kind)
  {}

  lemma SignalMadeIs(t: TextSystem, s: NodeId, parse: string -> Option<real>)
    requires s.SignalId?
    ensures NextText(t, Make(s), parse).graph
         == TextGraph(t.graph.nodes[Render(s) := Node(Resource, 0, map[])], t.graph.edges)
  {
    var p := SignalNode(s.signal, s.owner, 0, map[]);
    SignalIsRendered(p);
    assert [p][..0] == [];
    assert PublishText(t.graph.nodes, [p]) == t.graph.nodes[SignalText(p) := Node(Resource, 0, map[])];
  }

  /** A node that is made anew is of its kind. */
  lemma MadeIs(id: NodeId, parse: string -> Option<real>)
    ensures var g := NextText(TextStart, Make(id), parse).graph;
            g.edges == [] && Render(id) in g.nodes && g.nodes[Render(id)].kind == KindOf(id)
  {
    if id.SignalId? {
      SignalMadeIs(TextStart, id, parse);
    }
  }

  lemma ExecTwo(a: Action, b: Action, parse: string -> Option<real>)
    ensures ExecText(TextStart, [a, b], parse) == NextText(NextText(TextStart, a, parse), b, parse)
  {
    assert [a, b][..1] == [a] && [a][..0] == [];
    assert ExecText(TextStart, [a], parse) == NextText(TextStart, a, parse);
  }

  lemma ExecThree(a: Action, b: Action, c: Action, parse: string -> Option<real>)
    ensures ExecText(TextStart, [a, b, c], parse) ==
            NextText(NextText(NextText(TextStart, a, parse), b, parse), c, parse)
  {
    assert [a, b, c][..2] == [a, b];
    ExecTwo(a, b, parse);
  }

  lemma BlocksOne(one: TextEdge, error: string)
    requires one.kind.Consumes?
    ensures BlockAllText([one], ConsumersText([one], one.to), error, 0)
         == [one, TextEdge(BlockedBy, one.from, error, 0)]
  {
    var block := TextEdge(BlockedBy, one.from, error, 0);
    assert [one][..0] == [] && [] + [one.from] == [one.from] && [one.from][1..] == [];
    assert ConsumersText([one], one.to) == [one.from];
    assert UpsertText([one], block) == [one] + [block] == [one, block];
  }

  /** An error whose name is taken, with one consumer: the consumer is blocked by what has
      the name. */
  lemma TakenErrorIs(t: TextSystem, ns: Option<string>, x: string, pid: nat, parse: string -> Option<real>)
    requires Render(ErrorId(ns, x)) in t.graph.nodes && t.graph.edges == [LinkText(ns, x, pid)]
    ensures var g' := NextText(t, Make(ErrorId(ns, x)), parse).graph;
            && g'.nodes == t.graph.nodes
            && g'.edges == [LinkText(ns, x, pid),
                            TextEdge(BlockedBy, Render(ProcessId(ns, pid)), Render(ErrorId(ns, x)), 0)]
  {
    BlocksOne(LinkText(ns, x, pid), Render(ErrorId(ns, x)));
    Spelled(Make(ErrorId(ns, x)).event, x, pid);
  }

  /** Something else has the text of an error: the error is never recorded, and a process
      that uses the resource is blocked by what is not an error. A resource called
      `error-x` does this to the errors of `x`. */
  lemma ErrorIsSwallowed(a: NodeId, ns: Option<string>, x: string, pid: nat, parse: string -> Option<real>)
    requires Render(a) == Render(ErrorId(ns, x)) && !KindOf(a).Error?
    ensures var g := ExecText(TextStart, [Make(a), Use(ns, x, pid), Make(ErrorId(ns, x))], parse).graph;
            && Render(a) in g.nodes && g.nodes[Render(a)].kind == KindOf(a)
            && TextEdge(BlockedBy, Render(ProcessId(ns, pid)), Render(a), 0) in g.edges
            && !TypedText(g)
  {
    var t1 := NextText(TextStart, Make(a), parse);
    var t2 := NextText(t1, Use(ns, x, pid), parse);
    ExecThree(Make(a), Use(ns, x, pid), Make(ErrorId(ns, x)), parse);
    MadeIs(a, parse);
    UseIs(t1, ns, x, pid, parse);
    TakenErrorIs(t2, ns, x, pid, parse);
    var g := NextText(t2, Make(ErrorId(ns, x)), parse).graph;
    assert g.edges[1] == TextEdge(BlockedBy, Render(ProcessId(ns, pid)), Render(a), 0);
  }

  /** A resource that is called like a process: the process that uses it has an edge into a
      process. */
  lemma ProcessIsUsed(a: NodeId, ns: Option<string>, x: string, pid: nat, parse: string -> Option<real>)
    requires Render(a) == Render(ResourceId(ns, x)) && a.ProcessId?
    ensures !TypedText(ExecText(TextStart, [Make(a), Use(ns, x, pid)], parse).graph)
  {
    var t1 := NextText(TextStart, Make(a), parse);
    ExecTwo(Make(a), Use(ns, x, pid), parse);
    MadeIs(a, parse);
    UseIs(t1, ns, x, pid, parse);
    assert NextText(t1, Use(ns, x, pid), parse).graph.edges[0].to == Render(a);
  }

  /** A signal that has the text of a process takes the place of the process. */
  lemma ProcessIsReplaced(s: NodeId, ns: Option<string>, x: string, pid: nat, parse: string -> Option<real>)
    requires Render(s) == Render(ProcessId(ns, pid)) && s.SignalId?
    ensures !TypedText(ExecText(TextStart, [Use(ns, x, pid), Make(s)], parse).graph)
  {
    var t1 := NextText(TextStart, Use(ns, x, pid), parse);
    ExecTwo(Use(ns, x, pid), Make(s), parse);
    UseIs(TextStart, ns, x, pid, parse);
    SignalMadeIs(t1, s, parse);
    var g := NextText(t1, Make(s), parse).graph;
    assert g.edges[0].from == Render(s) && g.nodes[Render(s)].kind.Resource?;
  }

  /** The agent has a process and a resource. */
  ghost predicate Busy(ids: iset<NodeId>, ns: Option<string>) {
    (exists pid :: ProcessId(ns, pid) in ids) && (exists x :: ResourceId(ns, x) in ids)
  }

  /** In the stock an error has its resource, and whoever has a process, a resource or an
      error has a process and a resource. */
  ghost predicate Full(ids: iset<NodeId>) {
    && (forall id | id in ids && id.ErrorId? :: ResourceId(id.ns, id.entity) in ids)
    && (forall id | id in ids && !id.SignalId? :: Busy(ids, id.ns))
  }

  lemma OverTwo(ids: iset<NodeId>, a: Action, b: Action, parse: string -> Option<real>)
    requires forall id | id in Uses(a, parse) + Uses(b, parse) :: id in ids
    ensures RunsOver(ids, [a, b], parse)
  {
    assert [a, b][..1] == [a] && [a][..0] == [];
    assert RunUses([a], parse) == Uses(a, parse);
    assert RunUses([a, b], parse) == RunUses([a], parse) + Uses(b, parse);
  }

  lemma OverThree(ids: iset<NodeId>, a: Action, b: Action, c: Action, parse: string -> Option<real>)
    requires forall id | id in Uses(a, parse) + Uses(b, parse) + Uses(c, parse) :: id in ids
    ensures RunsOver(ids, [a, b, c], parse)
  {
    assert [a, b, c][..2] == [a, b];
    OverTwo(ids, a, b, parse);
    assert RunUses([a, b, c], parse) == RunUses([a, b], parse) + Uses(c, parse);
  }

  lemma MakeUses(id: NodeId, parse: string -> Option<real>)
    ensures Uses(Make(id), parse) == {id} + (if id.ErrorId? then {ResourceId(id.ns, id.entity)} else {})
  {
    if id.SignalId? {
      var p := SignalNode(id.signal, id.owner, 0, map[]);
      assert PointUses([p]) == {id};
    }
  }

  lemma UseUses(ns: Option<string>, x: string, pid: nat, parse: string -> Option<real>)
    ensures Uses(Use(ns, x, pid), parse) == {ResourceId(ns, x), ProcessId(ns, pid)}
  {}

  /** The run goes over the stock and leaves an edge that is not typed. */
  ghost predicate Breaks(ids: iset<NodeId>, run: seq<Action>, parse: string -> Option<real>) {
    RunsOver(ids, run, parse) && !TypedText(ExecText(TextStart, run, parse).graph)
  }

  lemma ErrorBreaks(ids: iset<NodeId>, a: NodeId, ns: Option<string>, x: string, pid: nat,
                    parse: string -> Option<real>)
    requires a in ids && ErrorId(ns, x) in ids && ResourceId(ns, x) in ids && ProcessId(ns, pid) in ids
    requires Render(a) == Render(ErrorId(ns, x)) && !KindOf(a).Error?
    ensures exists run :: Breaks(ids, run, parse)
  {
    MakeUses(a, parse);
    MakeUses(ErrorId(ns, x), parse);
    UseUses(ns, x, pid, parse);
    OverThree(ids, Make(a), Use(ns, x, pid), Make(ErrorId(ns, x)), parse);
    ErrorIsSwallowed(a, ns, x, pid, parse);
    assert Breaks(ids, [Make(a), Use(ns, x, pid), Make(ErrorId(ns, x))], parse);
  }

  lemma ResourceBreaks(ids: iset<NodeId>, a: NodeId, ns: Option<string>, x: string, pid: nat,
                       parse: string -> Option<real>)
    requires a in ids && ResourceId(ns, x) in ids && ProcessId(ns, pid) in ids
    requires Render(a) == Render(ResourceId(ns, x)) && a.ProcessId?
    ensures exists run :: Breaks(ids, run, parse)
  {
    MakeUses(a, parse);
    UseUses(ns, x, pid, parse);
    OverTwo(ids, Make(a), Use(ns, x, pid), parse);
    ProcessIsUsed(a, ns, x, pid, parse);
    assert Breaks(ids, [Make(a), Use(ns, x, pid)], parse);
  }

  lemma SignalBreaks(ids: iset<NodeId>, s: NodeId, ns: Option<string>, x: string, pid: nat,
                     parse: string -> Option<real>)
    requires s in ids && ResourceId(ns, x) in ids && ProcessId(ns, pid) in ids
    requires Render(s) == Render(ProcessId(ns, pid)) && s.SignalId?
    ensures exists run :: Breaks(ids, run, parse)
  {
    MakeUses(s, parse);
    UseUses(ns, x, pid, parse);
    OverTwo(ids, Use(ns, x, pid), Make(s), parse);
    ProcessIsReplaced(s, ns, x, pid, parse);
    assert Breaks(ids, [Use(ns, x, pid), Make(s)], parse);
  }

  /** Two ids of different kinds that are the same text: some run goes wrong. */
  lemma MixedKindsBreak(ids: iset<NodeId>, a: NodeId, b: NodeId, parse: string -> Option<real>)
    requires Full(ids) && a in ids && b in ids && Render(a) == Render(b) && KindOf(a) != KindOf(b)
    requires b.ErrorId? || (!a.ErrorId? && b.ResourceId?) || (a.SignalId? && b.ProcessId?)
    ensures exists run :: Breaks(ids, run, parse)
  {
    assert Busy(ids, b.ns);
    var pid, x :| ProcessId(b.ns, pid) in ids && ResourceId(b.ns, x) in ids;
    match b
    case ErrorId(ns, y) => ErrorBreaks(ids, a, ns, y, pid, parse);
    case ResourceId(ns, y) => ResourceBreaks(ids, a, ns, y, pid, parse);
    case ProcessId(ns, p) => SignalBreaks(ids, a, ns, x, p, parse);
  }

  /** Exactly when that holds: over a stock of ids, the edges are typed in every interleaving
      if and only if ids that are the same text are of the same kind. */
  lemma TextIsSafeIff(ids: iset<NodeId>, parse: string -> Option<real>)
    requires Full(ids)
    ensures (forall actions | RunsOver(ids, actions, parse) :: TypedText(ExecText(TextStart, actions, parse).graph))
       <==> (forall a, b | a in ids && b in ids && Render(a) == Render(b) :: KindOf(a) == KindOf(b))
  {
    if a, b :| a in ids && b in ids && Render(a) == Render(b) && KindOf(a) != KindOf(b) {
      if b.ErrorId? || (!a.ErrorId? && b.ResourceId?) || (a.SignalId? && b.ProcessId?) {
        MixedKindsBreak(ids, a, b, parse);
      } else {
        MixedKindsBreak(ids, b, a, parse);
      }
      var run :| Breaks(ids, run, parse);
    } else {
      forall actions | RunsOver(ids, actions, parse) ensures TypedText(ExecText(TextStart, actions, parse).graph) {
        TextIsSafe(actions, parse);
      }
    }
  }
}
