/** From the agent to the hub graph (agent/src/hub_forwarder.rs, hub/src/dedup.rs,
    hub/src/main.rs): at-least-once sending into a de-duplicating hub is
    exactly-once. */
module Delivery {
  import opened Events
  import opened Dedup
  import opened Forwarder
  import opened Hub
  import opened Recovery

  predicate StampedFrom(x: Event, events: seq<Event>, node: string) {
    exists e | e in events :: x == Stamp(e, node)
  }

  /** The queue and the wire carry nothing but the given events. */
  predicate Within(f: Fwd, events: seq<Event>, l: Link) {
    && (forall e | e in f.pending :: e in events)
    && (forall x | x in f.trace.wire :: StampedFrom(x, events, l.node))
  }

  lemma SendWithin(f: Fwd, e: Event, events: seq<Event>, l: Link)
    requires Within(f, events, l) && e in events
    ensures var (f', ok) := Send(f, e, l);
            && Within(f', events, l) && f'.pending == f.pending
            && f.trace.wire <= f'.trace.wire
            && (ok ==> Stamp(e, l.node) in f'.trace.wire)
  {
    assert StampedFrom(Stamp(e, l.node), events, l.node);
  }

  /** A flush that succeeds has delivered the whole queue. */
  lemma {:induction false} FlushWithin(f: Fwd, events: seq<Event>, l: Link)
    requires Within(f, events, l)
    ensures var (f', ok) := Flush(f, l);
            && Within(f', events, l)
            && f.trace.wire <= f'.trace.wire
            && (ok ==> forall e | e in f.pending :: Stamp(e, l.node) in f'.trace.wire)
    decreases |f.pending|
  {
    if f.pending != [] {
      var e := f.pending[0];
      SendWithin(f, e, events, l);
      var (f1, ok) := Send(f, e, l);
      if ok {
        var f2 := Depart(f1, Sent(e));
        FlushWithin(f2, events, l);
        assert f.pending == [e] + f2.pending;
      }
    }
  }

  lemma ClearWithin(f: Fwd, events: seq<Event>, l: Link)
    requires Within(f, events, l)
    ensures Within(ClearBacklog(f, l), events, l) && f.trace.wire <= ClearBacklog(f, l).trace.wire
  {
    if f.pending != [] {
      FlushWithin(f, events, l);
      var f1 := Flush(f, l).0;
      var f3 := Reconnect(f1.(flushFailures := SatInc(f1.flushFailures), retries := SatInc(f1.retries)), l).0;
      FlushWithin(f3, events, l);
    }
  }

  lemma RetryWithin(f: Fwd, e: Event, events: seq<Event>, l: Link)
    requires Within(f, events, l) && e in events
    ensures var (f', ok) := Retry(f, e, l);
            && Within(f', events, l)
            && f.trace.wire <= f'.trace.wire
            && (ok ==> Stamp(e, l.node) in f'.trace.wire)
  {
    var f1 := Enqueue(f, e);
    assert e in f1.pending && Within(f1, events, l);
    FlushWithin(Reconnect(f1.(retries := SatInc(f1.retries)), l).0, events, l);
  }

  lemma WithinMore(f: Fwd, events: seq<Event>, e: Event, l: Link)
    requires Within(f, events, l)
    ensures Within(f, events + [e], l)
  {
    forall x | x in f.trace.wire ensures StampedFrom(x, events + [e], l.node) {
      var y :| y in events && x == Stamp(y, l.node);
      assert y in events + [e];
    }
  }

  /** A call that returns Ok has put its event on the wire; the wire only grows. */
  lemma ForwardWithin(f: Fwd, e: Event, events: seq<Event>, l: Link)
    requires Within(f, events, l)
    ensures var (f', ok) := Forward(f, e, l);
            && Within(f', events + [e], l)
            && f.trace.wire <= f'.trace.wire
            && (ok ==> Stamp(e, l.node) in f'.trace.wire)
  {
    ClearWithin(f, events, l);
    var f0 := ClearBacklog(f, l);
    WithinMore(f0, events, e, l);
    assert e in events + [e];
    SendWithin(f0, e, events + [e], l);
    var (f1, ok) := Send(f0, e, l);
    if !ok {
      RetryWithin(f1, e, events + [e], l);
    }
  }

  lemma {:induction false} RunDelivers(events: seq<Event>, l: Link)
    ensures var r := ForwardAll(events, l);
            && |r.1| == |events|
            && Within(r.0, events, l)
            && (forall i | 0 <= i < |events| && r.1[i] :: Stamp(events[i], l.node) in r.0.trace.wire)
  {
    if events != [] {
      var front, e := events[..|events| - 1], events[|events| - 1];
      assert events == front + [e];
      RunDelivers(front, l);
      ForwardWithin(ForwardAll(front, l).0, e, front, l);
    }
  }

  // ---- the hub end ----

  /** Different events on the wire have different keys. */
  predicate InjectiveOn(h: seq<Event>, fp: Fingerprint) {
    forall a, b | a in h && b in h && fp(a) == fp(b) :: a == b
  }

  /** Within one window the hub takes in each delivered event exactly once. */
  lemma {:induction false} EachOnce<G>(h: seq<Event>, x: Event, cfg: Config<G>)
    requires WithinWindow(h, cfg.window) && InjectiveOn(h, cfg.fp)
    ensures multiset(Taken(h, cfg))[x] == if x in h then 1 else 0
  {
    if h != [] {
      var n := |h| - 1;
      var front, e := h[..n], h[n];
      assert h == front + [e];
      EachOnce(front, x, cfg);
      LiveDedup(front, cfg);
      FirstOfKey(h, n, cfg.window, cfg.fp);
      FirstMeansNew(h, cfg.fp);
      assert Taken(h, cfg) == if e in front then Taken(front, cfg) + [] else Taken(front, cfg) + [e];
      assert Taken(front, cfg) + [] == Taken(front, cfg);
    }
  }

  lemma FirstMeansNew(h: seq<Event>, fp: Fingerprint)
    requires h != [] && InjectiveOn(h, fp)
    ensures (forall i | 0 <= i < |h| - 1 :: fp(h[i]) != fp(h[|h| - 1])) <==> h[|h| - 1] !in h[..|h| - 1]
  {
    var n := |h| - 1;
    forall i | 0 <= i < n ensures fp(h[i]) == fp(h[n]) <==> h[i] == h[n] {
      assert h[i] in h && h[n] in h;
    }
    assert forall i | 0 <= i < n :: h[..n][i] == h[i];
  }

  /** Different events stay different, under their keys, once the agent has put its
      node id on them. */
  predicate InjectiveStamped(events: seq<Event>, node: string, fp: Fingerprint) {
    forall a, b | a in events && b in events && fp(Stamp(a, node)) == fp(Stamp(b, node)) :: a == b
  }

  /** End to end: whatever the network does, every offered event enters the hub graph
      at most once, every one whose call returned Ok exactly once, and nothing else
      enters it. */
  lemma ExactlyOnce<G>(events: seq<Event>, l: Link, cfg: Config<G>)
    requires WithinWindow(events, cfg.window)
    requires InjectiveStamped(events, l.node, cfg.fp)
    ensures var r := ForwardAll(events, l);
            var taken := Taken(r.0.trace.wire, cfg);
            && |r.1| == |events|
            && Live(r.0.trace.wire, cfg).graph == FoldGraph(taken, cfg)
            && (forall i | 0 <= i < |events| :: multiset(taken)[Stamp(events[i], l.node)] <= 1)
            && (forall i | 0 <= i < |events| && r.1[i] :: multiset(taken)[Stamp(events[i], l.node)] == 1)
            && (forall x | x in taken :: StampedFrom(x, events, l.node))
  {
    var r := ForwardAll(events, l);
    var wire := r.0.trace.wire;
    RunDelivers(events, l);
    WireWithin(wire, events, l.node, cfg.window, cfg.fp);
    GraphIsFold(wire, cfg);
    forall x ensures multiset(Taken(wire, cfg))[x] == if x in wire then 1 else 0 {
      EachOnce(wire, x, cfg);
    }
    forall x | x in Taken(wire, cfg) ensures StampedFrom(x, events, l.node) {
      assert x in multiset(Taken(wire, cfg));
    }
  }

  lemma WireWithin(wire: seq<Event>, events: seq<Event>, node: string, window: nat, fp: Fingerprint)
    requires forall x | x in wire :: StampedFrom(x, events, node)
    requires WithinWindow(events, window) && InjectiveStamped(events, node, fp)
    ensures WithinWindow(wire, window) && InjectiveOn(wire, fp)
  {
    forall i, j | 0 <= i < |wire| && 0 <= j < |wire| ensures wire[i].ts <= wire[j].ts + window {
      assert StampedFrom(wire[i], events, node) && StampedFrom(wire[j], events, node);
    }
  }
}
