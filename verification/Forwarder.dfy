/** The agent's event forwarder (agent/src/hub_forwarder.rs): a bounded queue of
    unsent events in front of a connection that may fail at any time. The network
    is an oracle that answers every send and reconnect as it pleases. */
module Forwarder {
  import opened Events

  const PENDING_EVENT_CAPACITY: nat := 1024

  /** How a send ends: acknowledged, delivered although it reported failure, or
      lost. */
  datatype SendResult = Delivered | LostAck | Lost

  /** The answers to the n-th network operation. */
  datatype Network = Network(send: nat -> SendResult, reconnect: nat -> bool)

  datatype Departure = Sent(event: Event) | Evicted(event: Event)

  /** What has happened so far: the events offered, those sent without queueing, those
      queued, those that left the queue, and what reached the hub. */
  datatype Trace = Trace(
    offered: seq<Event>,
    direct: seq<Event>,
    queued: seq<Event>,
    departed: seq<Departure>,
    wire: seq<Event>)

  datatype Fwd = Fwd(
    pending: seq<Event>,
    retries: nat,
    dropped: nat,
    flushFailures: nat,
    tick: nat,
    trace: Trace)

  const Fresh := Fwd([], 0, 0, 0, 0, Trace([], [], [], [], []))

  /** The agent puts its own node id on what it sends. */
  function Stamp(e: Event, node: string): Event {
    e.(node := Some(node))
  }

  /** The network and the sender's name. */
  datatype Link = Link(net: Network, node: string)

  function Send(f: Fwd, e: Event, l: Link): (Fwd, bool) {
    var r := l.net.send(f.tick);
    (f.(tick := f.tick + 1,
        trace := f.trace.(wire := if r.Lost? then f.trace.wire else f.trace.wire + [Stamp(e, l.node)])),
     r.Delivered?)
  }

  function Reconnect(f: Fwd, l: Link): (Fwd, bool) {
    (f.(tick := f.tick + 1), l.net.reconnect(f.tick))
  }

  /** Drops the front of the queue for the given reason. */
  function Depart(f: Fwd, d: Departure): Fwd
    requires f.pending != []
  {
    f.(pending := f.pending[1..], trace := f.trace.(departed := f.trace.departed + [d]))
  }

  /** Sends the queue in order until it is empty or a send fails. */
  function Flush(f: Fwd, l: Link): (Fwd, bool)
    decreases |f.pending|
  {
    if f.pending == [] then (f, true)
    else
      var (f', ok) := Send(f, f.pending[0], l);
      if ok then Flush(Depart(f', Sent(f.pending[0])), l) else (f', false)
  }

  /** A full queue gives up its oldest event. */
  function MakeRoom(f: Fwd): Fwd {
    if |f.pending| >= PENDING_EVENT_CAPACITY
    then Depart(f, Evicted(f.pending[0])).(dropped := SatInc(f.dropped)) else f
  }

  function Enqueue(f: Fwd, e: Event): Fwd {
    var f := MakeRoom(f);
    f.(pending := f.pending + [e],
       trace := f.trace.(offered := f.trace.offered + [e], queued := f.trace.queued + [e]))
  }

  /** The attempt to clear the backlog before a new event. */
  function ClearBacklog(f: Fwd, l: Link): Fwd {
    if f.pending == [] then f
    else
      var (f1, ok) := Flush(f, l);
      if ok then f1
      else
        var f2 := f1.(flushFailures := SatInc(f1.flushFailures), retries := SatInc(f1.retries));
        var (f3, up) := Reconnect(f2, l);
        if !up then f3
        else
          var (f4, ok') := Flush(f3, l);
          if ok' then f4 else f4.(flushFailures := SatInc(f4.flushFailures))
  }

  /** What follows a failed direct send. */
  function Retry(f: Fwd, e: Event, l: Link): (Fwd, bool) {
    var f1 := Enqueue(f, e);
    var (f2, up) := Reconnect(f1.(retries := SatInc(f1.retries)), l);
    if !up then (f2, false)
    else
      var (f3, ok) := Flush(f2, l);
      if ok then (f3, true) else (f3.(flushFailures := SatInc(f3.flushFailures)), false)
  }

  /** One call: the new state and whether it returned Ok. */
  function Forward(f: Fwd, e: Event, l: Link): (Fwd, bool) {
    var (f', ok) := Send(ClearBacklog(f, l), e, l);
    if ok then
      (f'.(trace := f'.trace.(offered := f'.trace.offered + [e], direct := f'.trace.direct + [e])), true)
    else Retry(f', e, l)
  }

  class HubForwarder {
    const link: Link
    var pending: seq<Event>
    var retries: nat
    var dropped: nat
    var flushFailures: nat
    var tick: nat
    ghost var trace: Trace

    constructor (link: Link)
      ensures this.link == link && View() == Fresh
    {
      this.link, pending, retries, dropped, flushFailures, tick := link, [], 0, 0, 0, 0;
      trace := Trace([], [], [], [], []);
    }

    ghost function View(): Fwd
      reads this
    {
      Fwd(pending, retries, dropped, flushFailures, tick, trace)
    }

    method ForwardEvent(event: Event) returns (ok: bool)
      modifies this`tick, this`trace
      ensures (View(), ok) == Send(old(View()), event, link)
    {
      var result := link.net.send(tick);
      tick := tick + 1;
      if !result.Lost? {
        trace := trace.(wire := trace.wire + [Stamp(event, link.node)]);
      }
      ok := result.Delivered?;
    }

    method TryReconnect() returns (ok: bool)
      modifies this`tick
      ensures (View(), ok) == Reconnect(old(View()), link)
    {
      ok := link.net.reconnect(tick);
      tick := tick + 1;
    }

    method FlushPendingEvents() returns (ok: bool)
      modifies this`pending, this`tick, this`trace
      ensures (View(), ok) == Flush(old(View()), link)
    {
      while pending != []
        invariant Flush(View(), link) == Flush(old(View()), link)
        decreases |pending|
      {
        var event := pending[0];
        ghost var before := View();
        pending := pending[1..];
        var sent := ForwardEvent(event);
        if !sent {
          pending := [event] + pending;
          assert View() == Send(before, event, link).0;
          return false;
        }
        trace := trace.(departed := trace.departed + [Sent(event)]);
        assert View() == Depart(Send(before, event, link).0, Sent(event));
      }
      return true;
    }

    method EnqueuePendingEvent(event: Event)
      modifies this`pending, this`dropped, this`trace
      ensures View() == Enqueue(old(View()), event)
    {
      if |pending| >= PENDING_EVENT_CAPACITY {
        trace := trace.(departed := trace.departed + [Evicted(pending[0])]);
        pending := pending[1..];
        dropped := SatInc(dropped);
      }
      pending := pending + [event];
      trace := trace.(offered := trace.offered + [event], queued := trace.queued + [event]);
    }

    method ForwardEventWithRetry(event: Event) returns (ok: bool)
      modifies this
      ensures (View(), ok) == Forward(old(View()), event, link)
    {
      if pending != [] {
        var flushed := FlushPendingEvents();
        if !flushed {
          flushFailures := SatInc(flushFailures);
          retries := SatInc(retries);
          var up := TryReconnect();
          if up {
            flushed := FlushPendingEvents();
            if !flushed {
              flushFailures := SatInc(flushFailures);
            }
          }
        }
      }
      assert View() == ClearBacklog(old(View()), link);

      var sent := ForwardEvent(event);
      if sent {
        trace := trace.(offered := trace.offered + [event], direct := trace.direct + [event]);
        return true;
      }
      EnqueuePendingEvent(event);
      retries := SatInc(retries);
      var up := TryReconnect();
      if !up {
        return false;
      }
      ok := FlushPendingEvents();
      if !ok {
        flushFailures := SatInc(flushFailures);
      }
    }
  }

  // ---- conservation ----

  function EventsOf(departed: seq<Departure>): seq<Event> {
    seq(|departed|, i requires 0 <= i < |departed| => departed[i].event)
  }

  /** Of what left the queue, the events that were sent, in order. */
  function SentOf(departed: seq<Departure>): seq<Event> {
    if departed == [] then []
    else
      var d := departed[|departed| - 1];
      SentOf(departed[..|departed| - 1]) + (if d.Sent? then [d.event] else [])
  }

  /** Of what left the queue, the events that were evicted. */
  function EvictedOf(departed: seq<Departure>): seq<Event> {
    if departed == [] then []
    else
      var d := departed[|departed| - 1];
      EvictedOf(departed[..|departed| - 1]) + (if d.Evicted? then [d.event] else [])
  }

  function AtMostU64(n: nat): nat {
    if n < U64_MAX then n else U64_MAX
  }

  /** `a` is `b` with some elements left out. */
  predicate Subsequence(a: seq<Event>, b: seq<Event>)
    decreases |b|
  {
    if b == [] then a == []
    else
      || Subsequence(a, b[..|b| - 1])
      || (a != [] && a[|a| - 1] == b[|b| - 1] && Subsequence(a[..|a| - 1], b[..|b| - 1]))
  }

  /** Nothing is lost without being counted: every offered event was sent directly or
      queued; the queue lets events out at its front only, so they leave in order of
      arrival, sent or evicted; evictions are counted. */
  predicate Accounted(f: Fwd) {
    && |f.pending| <= PENDING_EVENT_CAPACITY
    && f.trace.queued == EventsOf(f.trace.departed) + f.pending
    && multiset(f.trace.offered) == multiset(f.trace.direct) + multiset(f.trace.queued)
    && f.dropped == AtMostU64(|EvictedOf(f.trace.departed)|)
    && Subsequence(f.trace.queued, f.trace.offered)
  }

  lemma DepartIs(f: Fwd, d: Departure)
    requires f.pending != [] && d.event == f.pending[0]
    ensures var f' := Depart(f, d);
            && EventsOf(f'.trace.departed) + f'.pending == EventsOf(f.trace.departed) + f.pending
            && |EvictedOf(f'.trace.departed)| == |EvictedOf(f.trace.departed)| + (if d.Evicted? then 1 else 0)
  {
    var dep := f.trace.departed + [d];
    assert dep[..|dep| - 1] == f.trace.departed;
    assert EventsOf(dep) == EventsOf(f.trace.departed) + [d.event];
  }

  lemma {:induction false} FlushAccounts(f: Fwd, l: Link)
    requires Accounted(f)
    ensures var r := Flush(f, l);
            && Accounted(r.0) && r.0.trace.offered == f.trace.offered && r.0.trace.direct == f.trace.direct
            && r.0.trace.queued == f.trace.queued
            && (r.1 <==> r.0.pending == [])
    decreases |f.pending|
  {
    if f.pending != [] {
      var (f', ok) := Send(f, f.pending[0], l);
      if ok {
        DepartIs(f', Sent(f.pending[0]));
        FlushAccounts(Depart(f', Sent(f.pending[0])), l);
      }
    }
  }

  lemma MakeRoomAccounts(f: Fwd)
    requires Accounted(f)
    ensures var f' := MakeRoom(f);
            && Accounted(f') && |f'.pending| < PENDING_EVENT_CAPACITY
            && f'.trace.offered == f.trace.offered && f'.trace.queued == f.trace.queued
            && f'.trace.wire == f.trace.wire
  {
    if |f.pending| >= PENDING_EVENT_CAPACITY {
      DepartIs(f, Evicted(f.pending[0]));
    }
  }

  lemma EnqueueAccounts(f: Fwd, e: Event)
    requires Accounted(f)
    ensures var f' := Enqueue(f, e);
            && Accounted(f')
            && f'.trace.offered == f.trace.offered + [e]
            && f'.trace.queued == f.trace.queued + [e]
            && f'.trace.wire == f.trace.wire
  {
    MakeRoomAccounts(f);
    var r := MakeRoom(f);
    SubsequenceAppend(r.trace.queued, r.trace.offered, e);
    assert EventsOf(r.trace.departed) + (r.pending + [e]) == EventsOf(r.trace.departed) + r.pending + [e];
  }

  lemma ClearAccounts(f: Fwd, l: Link)
    requires Accounted(f)
    ensures var f' := ClearBacklog(f, l);
            Accounted(f') && f'.trace.offered == f.trace.offered && f'.trace.direct == f.trace.direct
            && f'.trace.queued == f.trace.queued
  {
    if f.pending != [] {
      FlushAccounts(f, l);
      var f1 := Flush(f, l).0;
      var f3 := Reconnect(f1.(flushFailures := SatInc(f1.flushFailures), retries := SatInc(f1.retries)), l).0;
      FlushAccounts(f3, l);
    }
  }

  /** The retry after queueing: the newest event is the last to go. */
  lemma FlushNewest(f: Fwd, e: Event, l: Link)
    requires Accounted(f) && f.trace.queued != [] && f.trace.queued[|f.trace.queued| - 1] == e
    ensures var r := Flush(f, l);
            && Accounted(r.0) && r.0.trace.offered == f.trace.offered && r.0.trace.queued == f.trace.queued
            && (r.1 <==> r.0.pending == [])
            && (r.0.pending != [] ==> r.0.pending[|r.0.pending| - 1] == e)
  {
    var r := Flush(f, l);
    FlushAccounts(f, l);
    LastPending(r.0);
  }

  /** The counters and the clock are not part of the books. */
  lemma StillAccounted(f: Fwd, retries: nat, flushFailures: nat, tick: nat)
    requires Accounted(f)
    ensures Accounted(f.(retries := retries, flushFailures := flushFailures, tick := tick))
  {}

  /** The state in which the retry flushes: queued, counted and reconnected. */
  function Ready(f: Fwd, e: Event): Fwd {
    var f1 := Enqueue(f, e);
    f1.(retries := SatInc(f1.retries), tick := f1.tick + 1)
  }

  lemma ReadyAccounts(f: Fwd, e: Event)
    requires Accounted(f)
    ensures var f2 := Ready(f, e);
            && Accounted(f2) && f2.trace.offered == f.trace.offered + [e] && f2.trace.queued == f.trace.queued + [e]
            && f2.pending != [] && f2.pending[|f2.pending| - 1] == e
  {
    EnqueueAccounts(f, e);
    var f1 := Enqueue(f, e);
    StillAccounted(f1, SatInc(f1.retries), f1.flushFailures, f1.tick + 1);
  }

  lemma RetryIs(f: Fwd, e: Event, l: Link)
    ensures var f2 := Ready(f, e);
            var r := Flush(f2, l);
            || Retry(f, e, l) == (f2, false)
            || (r.1 && Retry(f, e, l) == (r.0, true))
            || (!r.1 && Retry(f, e, l) == (r.0.(flushFailures := SatInc(r.0.flushFailures)), false))
  {
    var f1 := Enqueue(f, e);
    assert Reconnect(f1.(retries := SatInc(f1.retries)), l).0 == Ready(f, e);
  }

  lemma RetryAccounts(f: Fwd, e: Event, l: Link)
    requires Accounted(f)
    ensures var r := Retry(f, e, l);
            && Accounted(r.0) && r.0.trace.offered == f.trace.offered + [e] && r.0.trace.queued == f.trace.queued + [e]
            && (r.1 ==> r.0.pending == [])
            && (!r.1 ==> r.0.pending != [] && r.0.pending[|r.0.pending| - 1] == e)
  {
    var f2 := Ready(f, e);
    RetryIs(f, e, l);
    ReadyAccounts(f, e);
    FlushNewest(f2, e, l);
    var f3 := Flush(f2, l).0;
    StillAccounted(f3, f3.retries, SatInc(f3.flushFailures), f3.tick);
  }

  lemma LastPending(f: Fwd)
    requires Accounted(f)
    ensures f.pending != [] ==>
              f.trace.queued != [] && f.pending[|f.pending| - 1] == f.trace.queued[|f.trace.queued| - 1]
  {}

  /** One call under any network: the books still balance, and the result tells where
      the event is. Ok: it was sent, directly or as the last to leave the queue.
      Err: it is the last one waiting. */
  lemma ForwardAccounts(f: Fwd, e: Event, l: Link)
    requires Accounted(f)
    ensures var (f', ok) := Forward(f, e, l);
            && Accounted(f') && f'.trace.offered == f.trace.offered + [e]
            && (ok ==> f'.trace.direct == f.trace.direct + [e]
                       || (f'.pending == [] && f'.trace.queued == f.trace.queued + [e]))
            && (!ok ==> f'.pending != [] && f'.pending[|f'.pending| - 1] == e)
  {
    ClearAccounts(f, l);
    var f0 := ClearBacklog(f, l);
    var (f1, ok) := Send(f0, e, l);
    if ok {
      SubsequenceAppend(f1.trace.queued, f1.trace.offered, e);
    } else {
      RetryAccounts(f1, e, l);
    }
  }

  /** A whole run: the final state and the result of every call. */
  function ForwardAll(events: seq<Event>, l: Link): (Fwd, seq<bool>) {
    if events == [] then (Fresh, [])
    else
      var (f, oks) := ForwardAll(events[..|events| - 1], l);
      var (f', ok) := Forward(f, events[|events| - 1], l);
      (f', oks + [ok])
  }

  lemma FreshIsAccounted()
    ensures Accounted(Fresh)
  {
    assert EventsOf([]) == [];
  }

  lemma {:induction false} RunIsAccounted(events: seq<Event>, l: Link)
    ensures var r := ForwardAll(events, l);
            Accounted(r.0) && r.0.trace.offered == events && |r.1| == |events|
  {
    if events == [] {
      FreshIsAccounted();
    } else {
      var front, e := events[..|events| - 1], events[|events| - 1];
      assert events == front + [e];
      RunIsAccounted(front, l);
      ForwardAccounts(ForwardAll(front, l).0, e, l);
    }
  }

  lemma EventsOfLast(departed: seq<Departure>)
    requires departed != []
    ensures EventsOf(departed) == EventsOf(departed[..|departed| - 1]) + [departed[|departed| - 1].event]
  {}

  lemma {:induction false} DepartedSplit(departed: seq<Departure>)
    ensures multiset(EventsOf(departed)) == multiset(SentOf(departed)) + multiset(EvictedOf(departed))
  {
    if departed != [] {
      DepartedSplit(departed[..|departed| - 1]);
      EventsOfLast(departed);
    }
  }

  lemma SubsequenceAppend(a: seq<Event>, b: seq<Event>, x: Event)
    requires Subsequence(a, b)
    ensures Subsequence(a, b + [x]) && Subsequence(a + [x], b + [x])
  {
    assert (b + [x])[..|b|] == b && (a + [x])[..|a|] == a;
  }

  lemma {:induction false} SentInOrder(departed: seq<Departure>)
    ensures Subsequence(SentOf(departed), EventsOf(departed))
  {
    if departed != [] {
      var front, d := departed[..|departed| - 1], departed[|departed| - 1];
      SentInOrder(front);
      EventsOfLast(departed);
      SubsequenceAppend(SentOf(front), EventsOf(front), d.event);
      assert SentOf(front) + [] == SentOf(front);
    }
  }

  lemma {:induction false} SubsequenceTrans(a: seq<Event>, b: seq<Event>, c: seq<Event>)
    requires Subsequence(a, b) && Subsequence(b, c)
    ensures Subsequence(a, c)
    decreases |c|
  {
    if c != [] {
      var c' := c[..|c| - 1];
      if Subsequence(b, c') {
        SubsequenceTrans(a, b, c');
      } else {
        var b' := b[..|b| - 1];
        if Subsequence(a, b') {
          SubsequenceTrans(a, b', c');
        } else {
          SubsequenceTrans(a[..|a| - 1], b', c');
        }
      }
    }
  }

  lemma {:induction false} PrefixIsSubsequence(a: seq<Event>, b: seq<Event>)
    ensures Subsequence(a, a + b)
    decreases |a| + |b|
  {
    var c := a + b;
    if b != [] {
      assert c[..|c| - 1] == a + b[..|b| - 1];
      PrefixIsSubsequence(a, b[..|b| - 1]);
    } else if a != [] {
      assert c == a;
      PrefixIsSubsequence(a[..|a| - 1], []);
      assert a[..|a| - 1] + [] == a[..|a| - 1];
    }
  }

  /** Conservation over every run and every network: what was offered is, as a
      multiset, what was sent directly, sent from the queue, evicted or is still
      pending; the queue is bounded; the drop counter counts the evictions; and what
      went through the queue was sent in order of arrival. */
  lemma RunConserves(events: seq<Event>, l: Link)
    ensures var f := ForwardAll(events, l).0;
            var sent, evicted := SentOf(f.trace.departed), EvictedOf(f.trace.departed);
            && multiset(events) == multiset(f.trace.direct) + multiset(sent) + multiset(evicted) + multiset(f.pending)
            && |f.pending| <= 1024
            && f.dropped == AtMostU64(|evicted|)
            && Subsequence(sent, events)
  {
    var f := ForwardAll(events, l).0;
    RunIsAccounted(events, l);
    DepartedSplit(f.trace.departed);
    SentInOrder(f.trace.departed);
    var gone := EventsOf(f.trace.departed);
    PrefixIsSubsequence(gone, f.pending);
    SubsequenceTrans(SentOf(f.trace.departed), gone, f.trace.queued);
    SubsequenceTrans(SentOf(f.trace.departed), f.trace.queued, events);
  }

  // ---- when the network is up ----

  /** The agent's name is put on the event and nothing else is changed. */
  lemma StampIs(e: Event, node: string)
    ensures var x := Stamp(e, node);
            && x.node == Some(node) && x.ts == e.ts && x.kind == e.kind && x.entity == e.entity
            && x.job == e.job && x.pid == e.pid && x.value == e.value
  {}

  function Stamped(events: seq<Event>, node: string): seq<Event> {
    seq(|events|, i requires 0 <= i < |events| => Stamp(events[i], node))
  }

  /** The next `n` sends are delivered, and reported so. */
  predicate UpFor(l: Link, tick: nat, n: nat) {
    forall i | tick <= i < tick + n :: l.net.send(i).Delivered?
  }

  predicate SameCounters(f: Fwd, f': Fwd) {
    f'.retries == f.retries && f'.dropped == f.dropped && f'.flushFailures == f.flushFailures
  }

  /** A flush while the network is up empties the queue, in order. */
  lemma {:induction false} FlushDelivers(f: Fwd, l: Link)
    requires UpFor(l, f.tick, |f.pending|)
    ensures var (f', ok) := Flush(f, l);
            && ok && f'.pending == [] && f'.tick == f.tick + |f.pending| && SameCounters(f, f')
            && f'.trace.wire == f.trace.wire + Stamped(f.pending, l.node)
    decreases |f.pending|
  {
    if f.pending == [] {
      assert f.trace.wire + [] == f.trace.wire;
    } else {
      var e := f.pending[0];
      var f1 := Depart(Send(f, e, l).0, Sent(e));
      assert l.net.send(f.tick).Delivered?;
      assert f.trace.wire + Stamped(f.pending, l.node)
          == f.trace.wire + [Stamp(e, l.node)] + Stamped(f1.pending, l.node);
      FlushDelivers(f1, l);
    }
  }

  /** A call while the network is up: the backlog goes out in order, then the event; nothing
      is left and nothing is counted. */
  lemma ForwardDelivers(f: Fwd, e: Event, l: Link)
    requires UpFor(l, f.tick, |f.pending| + 1)
    ensures var (f', ok) := Forward(f, e, l);
            && ok && f'.pending == [] && f'.tick == f.tick + |f.pending| + 1 && SameCounters(f, f')
            && f'.trace.wire == f.trace.wire + Stamped(f.pending, l.node) + [Stamp(e, l.node)]
  {
    assert l.net.send(f.tick + |f.pending|).Delivered?;
    FlushDelivers(f, l);
    assert f.trace.wire + [] == f.trace.wire;
  }

  /** What a failed send may still have put on the wire. */
  function Trickle(l: Link, tick: nat, e: Event): seq<Event> {
    if l.net.send(tick).Lost? then [] else [Stamp(e, l.node)]
  }

  /** The first send of the backlog fails but the reconnect succeeds: the backlog goes out
      again from its front, then the event; one retry and one failed flush are counted. */
  lemma ForwardReconnects(f: Fwd, e: Event, l: Link)
    requires f.pending != [] && !l.net.send(f.tick).Delivered? && l.net.reconnect(f.tick + 1)
    requires UpFor(l, f.tick + 2, |f.pending| + 1)
    ensures var (f', ok) := Forward(f, e, l);
            && ok && f'.pending == [] && f'.dropped == f.dropped
            && f'.retries == SatInc(f.retries) && f'.flushFailures == SatInc(f.flushFailures)
            && f'.trace.wire == f.trace.wire + Trickle(l, f.tick, f.pending[0])
                                + Stamped(f.pending, l.node) + [Stamp(e, l.node)]
  {
    var f1 := Flush(f, l).0;
    var f3 := Reconnect(f1.(flushFailures := SatInc(f1.flushFailures), retries := SatInc(f1.retries)), l).0;
    assert f1.trace.wire == f.trace.wire + Trickle(l, f.tick, f.pending[0]);
    assert f3.pending == f.pending && f3.tick == f.tick + 2;
    assert l.net.send(f3.tick + |f3.pending|).Delivered?;
    FlushDelivers(f3, l);
  }

  /** Without a backlog, a send that fails is made good by a reconnect: the event goes
      through the queue, and one retry is counted. */
  lemma ForwardRetries(f: Fwd, e: Event, l: Link)
    requires f.pending == [] && !l.net.send(f.tick).Delivered? && l.net.reconnect(f.tick + 1)
    requires l.net.send(f.tick + 2).Delivered?
    ensures var (f', ok) := Forward(f, e, l);
            && ok && f'.pending == [] && f'.dropped == f.dropped
            && f'.retries == SatInc(f.retries) && f'.flushFailures == f.flushFailures
            && f'.trace.wire == f.trace.wire + Trickle(l, f.tick, e) + [Stamp(e, l.node)]
  {
    var f0 := Send(f, e, l).0;
    var f1 := Enqueue(f0, e);
    var f2 := Reconnect(f1.(retries := SatInc(f1.retries)), l).0;
    assert f0.trace.wire == f.trace.wire + Trickle(l, f.tick, e);
    assert f2.pending == [e] && Stamped([e], l.node) == [Stamp(e, l.node)];
    FlushDelivers(f2, l);
  }

  /** While nothing gets through and no reconnect succeeds, the event joins the queue, at the
      cost of the oldest if there are 1024 already, and the counters say so. */
  lemma ForwardWhileDown(f: Fwd, e: Event, l: Link)
    requires |f.pending| <= 1024
    requires forall i | f.tick <= i < f.tick + 4 :: !l.net.send(i).Delivered? && !l.net.reconnect(i)
    ensures var (f', ok) := Forward(f, e, l);
            && !ok
            && (|f.pending| < 1024 ==> f'.pending == f.pending + [e] && f'.dropped == f.dropped)
            && (|f.pending| == 1024 ==> f'.pending == f.pending[1..] + [e] && f'.dropped == SatInc(f.dropped))
            && f'.retries == SatInc(if f.pending == [] then f.retries else SatInc(f.retries))
            && f'.flushFailures == (if f.pending == [] then f.flushFailures else SatInc(f.flushFailures))
  {
    assert !l.net.send(f.tick).Delivered?;
    assert !l.net.reconnect(f.tick + 1) && !l.net.send(f.tick + 2).Delivered? && !l.net.reconnect(f.tick + 3);
  }

  // ---- runs ----

  lemma ForwardAllNext(events: seq<Event>, e: Event, l: Link)
    ensures var r := ForwardAll(events, l);
            var (f', ok) := Forward(r.0, e, l);
            ForwardAll(events + [e], l) == (f', r.1 + [ok])
  {
    assert (events + [e])[..|events|] == events;
  }

  /** From `f`, the old queue and then `more` went out in order, and nothing else happened. */
  predicate CaughtUp(f: Fwd, f': Fwd, more: seq<Event>, l: Link) {
    && f'.pending == [] && f'.tick >= f.tick && SameCounters(f, f')
    && f'.trace.wire == f.trace.wire + Stamped(f.pending, l.node) + Stamped(more, l.node)
  }

  lemma FirstCatchesUp(f: Fwd, e: Event, l: Link)
    requires forall i | i >= f.tick :: l.net.send(i).Delivered?
    ensures Forward(f, e, l).1 && CaughtUp(f, Forward(f, e, l).0, [e], l)
  {
    assert Stamped([e], l.node) == [Stamp(e, l.node)];
    ForwardDelivers(f, e, l);
  }

  lemma NextCatchesUp(f: Fwd, g: Fwd, more: seq<Event>, e: Event, l: Link)
    requires CaughtUp(f, g, more, l) && forall i | i >= f.tick :: l.net.send(i).Delivered?
    ensures Forward(g, e, l).1 && CaughtUp(f, Forward(g, e, l).0, more + [e], l)
  {
    assert Stamped(more + [e], l.node) == Stamped(more, l.node) + [Stamp(e, l.node)];
    assert g.trace.wire + Stamped([], l.node) == g.trace.wire;
    ForwardDelivers(g, e, l);
  }

  /** Once the network is up for good, whatever happened before: the first call empties the
      queue, and from then on the wire carries the old queue and every further event, in
      order. */
  lemma {:induction false} UpForGood(events: seq<Event>, more: seq<Event>, l: Link)
    requires more != []
    requires forall i | i >= ForwardAll(events, l).0.tick :: l.net.send(i).Delivered?
    ensures CaughtUp(ForwardAll(events, l).0, ForwardAll(events + more, l).0, more, l)
  {
    var front, e := more[..|more| - 1], more[|more| - 1];
    assert events + more == (events + front) + [e] && more == front + [e];
    ForwardAllNext(events + front, e, l);
    if front == [] {
      assert events + front == events;
      FirstCatchesUp(ForwardAll(events, l).0, e, l);
    } else {
      UpForGood(events, front, l);
      NextCatchesUp(ForwardAll(events, l).0, ForwardAll(events + front, l).0, front, e, l);
    }
  }

  /** And every call returns Ok. */
  lemma {:induction false} UpForGoodIsOk(events: seq<Event>, more: seq<Event>, i: nat, l: Link)
    requires forall k | k >= ForwardAll(events, l).0.tick :: l.net.send(k).Delivered?
    requires |events| <= i < |events| + |more|
    ensures |ForwardAll(events + more, l).1| == |events| + |more| && ForwardAll(events + more, l).1[i]
  {
    var front, e := more[..|more| - 1], more[|more| - 1];
    assert events + more == (events + front) + [e];
    ForwardAllNext(events + front, e, l);
    RunIsAccounted(events + front, l);
    if i < |events| + |front| {
      UpForGoodIsOk(events, front, i, l);
    } else if front == [] {
      assert events + front == events;
      FirstCatchesUp(ForwardAll(events, l).0, e, l);
    } else {
      UpForGood(events, front, l);
      NextCatchesUp(ForwardAll(events, l).0, ForwardAll(events + front, l).0, front, e, l);
    }
  }
}
