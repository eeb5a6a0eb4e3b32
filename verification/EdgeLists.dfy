/** What the edge-list operations of the state graph do: upserts, the retain
    passes of a cleanup and the capacity guard. */
module EdgeLists {
  import opened Events
  import opened Graph
  import opened Seqs

  predicate DistinctKeys(edges: seq<Edge>) {
    forall i, j | 0 <= i < j < |edges| :: Key(edges[i]) != Key(edges[j])
  }

  lemma KeyIn(edges: seq<Edge>, e: Edge)
    requires e in edges
    ensures Key(e) in Keys(edges)
  {}

  lemma UpsertKeeps(edges: seq<Edge>, e: Edge)
    requires DistinctKeys(edges)
    ensures DistinctKeys(Upsert(edges, e))
    ensures Keys(Upsert(edges, e)) == Keys(edges) + {Key(e)}
    ensures edges <= Upsert(edges, e)
    ensures forall x | x in Upsert(edges, e) :: x in edges || x == e
  {
    forall i | 0 <= i < |edges| ensures Key(edges[i]) in Keys(edges) {
      KeyIn(edges, edges[i]);
    }
    var r := Upsert(edges, e);
    if Key(e) !in Keys(edges) {
      assert e in r;
      forall k | k in Keys(edges) ensures k in Keys(r) {
        var x :| x in edges && Key(x) == k;
        assert x in r;
      }
    }
  }

  /** Blocking a list of processes adds, after the old edges, one BlockedBy edge
      for each process that had none to that error. */
  lemma {:induction false} BlockAllKeeps(edges: seq<Edge>, procs: seq<NodeId>, error: NodeId, ts: nat)
    requires DistinctKeys(edges)
    ensures var r := BlockAll(edges, procs, error, ts);
            && DistinctKeys(r)
            && edges <= r
            && (forall k :: k in Keys(r) <==>
                  k in Keys(edges) || (k.kind.BlockedBy? && k.to == error && k.from in procs))
            && (forall x | x in r && x !in edges ::
                  x.kind.BlockedBy? && x.to == error && x.from in procs && x.ts == ts)
    decreases |procs|
  {
    if procs != [] {
      var e := Edge(BlockedBy, procs[0], error, ts);
      assert procs == [procs[0]] + procs[1..];
      UpsertKeeps(edges, e);
      BlockAllKeeps(Upsert(edges, e), procs[1..], error, ts);
    }
  }

  lemma {:induction false} ConsumersAre(edges: seq<Edge>, res: NodeId)
    ensures forall p :: p in Consumers(edges, res) <==> EdgeKey(Consumes, p, res) in Keys(edges)
  {
    if edges != [] {
      var front, e := edges[..|edges| - 1], edges[|edges| - 1];
      ConsumersAre(front, res);
      assert edges == front + [e];
      KeysAppend(front, e);
    }
  }

  lemma KeysAppend(edges: seq<Edge>, e: Edge)
    ensures Keys(edges + [e]) == Keys(edges) + {Key(e)}
  {
    var r := edges + [e];
    assert e in r;
    forall x | x in edges ensures x in r {}
    forall x | x in r ensures x in edges || x == e {}
  }

  lemma LastKeyIsNew(edges: seq<Edge>)
    requires edges != [] && DistinctKeys(edges)
    ensures var front, e := edges[..|edges| - 1], edges[|edges| - 1];
            DistinctKeys(front) && Key(e) !in Keys(front) && Keys(edges) == Keys(front) + {Key(e)}
  {
    var front, e := edges[..|edges| - 1], edges[|edges| - 1];
    assert edges == front + [e];
    KeysAppend(front, e);
    forall x | x in front ensures Key(x) != Key(e) {
      var i :| 0 <= i < |front| && front[i] == x;
      assert edges[i] == x;
    }
  }

  ghost predicate Survives(e: Edge, s: Snapshot) {
    && !(e.kind.BlockedBy? && e.to in s.errors)
    && e.from !in s.dead && e.to !in s.dead
    && e.ts >= SatSub(s.now, EDGE_TTL_MS)
  }

  /** The three passes keep exactly the surviving edges. */
  lemma SweptHas(edges: seq<Edge>, s: Snapshot, e: Edge)
    ensures e in Swept(edges, s) <==> e in edges && Survives(e, s)
  {
    var a := Retain(edges, OffErrors(s.errors));
    var b := Retain(a, OffDead(s.dead));
    RetainHas(edges, OffErrors(s.errors), e);
    RetainHas(a, OffDead(s.dead), e);
    RetainHas(b, Since(SatSub(s.now, EDGE_TTL_MS)), e);
  }

  lemma SweptDistinct(edges: seq<Edge>, s: Snapshot)
    requires DistinctKeys(edges)
    ensures DistinctKeys(Swept(edges, s))
  {
    var a := Retain(edges, OffErrors(s.errors));
    assert DistinctBy(edges, Key);
    RetainDistinct(edges, OffErrors(s.errors), Key);
    RetainDistinct(a, OffDead(s.dead), Key);
    RetainDistinct(Retain(a, OffDead(s.dead)), Since(SatSub(s.now, EDGE_TTL_MS)), Key);
  }

  // ---- the capacity guard ----

  /** The capacity guard: below the limit nothing happens; above it exactly the
      limit stays and nothing that was cut is newer than something kept. */
  lemma CappedIs(edges: seq<Edge>)
    requires DistinctKeys(edges)
    ensures var r := Capped(edges);
            && |r| == (if |edges| > MAX_EDGES then MAX_EDGES else |edges|)
            && (|edges| <= MAX_EDGES ==> r == edges)
            && DistinctKeys(r)
            && (forall e | e in r :: e in edges)
            && (forall cut, kept | cut in edges && cut !in r && kept in r :: cut.ts <= kept.ts)
  {
    if |edges| > MAX_EDGES {
      var sorted := NewestFirst(edges);
      SortDescIs(edges, EdgeTs, 0);
      assert DistinctBy(edges, Key);
      PermutedDistinct(edges, sorted, Key);
      SameElements(edges, sorted);
      forall cut, kept | cut in edges && cut !in sorted[..MAX_EDGES] && kept in sorted[..MAX_EDGES]
        ensures cut.ts <= kept.ts
      {
        PrefixIsGreatest(sorted, MAX_EDGES, EdgeTs, cut, kept);
      }
    }
  }

  /** Right after a cleanup: at most the capacity, everything inside the TTL and
      off the removed nodes, and what was cut for capacity is no newer than what
      stayed; below the capacity every surviving edge stays, in order. */
  lemma CleanupBounds(g: Graph, s: Snapshot)
    requires DistinctKeys(g.edges)
    ensures var r := ApplyCleanup(g, s).edges;
            && |r| <= 100_000
            && DistinctKeys(r)
            && (forall e | e in r :: e in g.edges && Survives(e, s))
            && (forall cut, kept | cut in g.edges && Survives(cut, s) && cut !in r && kept in r ::
                  cut.ts <= kept.ts)
            && (|Swept(g.edges, s)| <= 100_000 ==>
                 forall e :: e in r <==> e in g.edges && Survives(e, s))
            && (|Swept(g.edges, s)| > 100_000 ==> |r| == 100_000)
  {
    forall e ensures e in Swept(g.edges, s) <==> e in g.edges && Survives(e, s) {
      SweptHas(g.edges, s, e);
    }
    SweptDistinct(g.edges, s);
    CappedIs(Swept(g.edges, s));
  }

  /** Which edges the capacity guard keeps: those with fewer than the limit ahead of
      them, newer or as new and earlier in the list. */
  lemma CappedHas(edges: seq<Edge>, e: Edge)
    requires DistinctKeys(edges) && e in edges
    ensures e in Capped(edges) <==> Ahead(edges, e, EdgeTs) < 100_000
  {
    if |edges| > MAX_EDGES {
      var sorted, n := NewestFirst(edges), Ahead(edges, e, EdgeTs);
      assert DistinctBy(edges, Key);
      SortedAt(edges, e, EdgeTs, Key);
      SortDescIs(edges, EdgeTs, 0);
      PermutedDistinct(edges, sorted, Key);
      assert n < MAX_EDGES ==> sorted[..MAX_EDGES][n] == e;
      if i :| 0 <= i < MAX_EDGES && sorted[..MAX_EDGES][i] == e {
        assert sorted[i] == sorted[n];
      }
    }
  }

  /** The cleanup leaves the edge in place: neither end is condemned, it is inside the
      TTL, and fewer than the capacity are ahead of it. */
  ghost predicate Spares(g: Graph, s: Snapshot, e: Edge) {
    Survives(e, s) && Ahead(Swept(g.edges, s), e, EdgeTs) < MAX_EDGES
  }

  /** Exactly which edges are left by a cleanup. */
  lemma CleanupKeepsIff(g: Graph, s: Snapshot, e: Edge)
    requires DistinctKeys(g.edges)
    ensures e in ApplyCleanup(g, s).edges <==> e in g.edges && Spares(g, s, e)
  {
    SweptHas(g.edges, s, e);
    SweptDistinct(g.edges, s);
    if e in Swept(g.edges, s) {
      CappedHas(Swept(g.edges, s), e);
    } else {
      CappedIs(Swept(g.edges, s));
    }
  }
}
