/** Edge roll-up in the agent (agent/src/hub_forwarder.rs): which events are worth
    forwarding. Resource samples of a process and entity are forwarded when the pair
    is new, and compute samples again when the utilisation swings. */
module Rollup {
  import opened Events

  datatype Pair = Pair(pid: nat, entity: string)

  datatype Memo = Memo(bindings: set<Pair>, lastUtil: map<Pair, real>)

  const Blank := Memo({}, map[])

  predicate IsUrgent(k: EventKind) {
    k.ErrorHw? || k.ErrorNet? || k.ProcessState? || k.TransportDrop? || k.TopoLinkDown?
  }

  predicate IsCompute(k: EventKind) {
    k.ComputeUtil? || k.ComputeMem?
  }

  predicate IsResource(k: EventKind) {
    IsCompute(k) || k.StorageIops? || k.StorageQDepth? || k.TransportBw?
  }

  /** From above 80 to below 1, or back. */
  predicate Swing(a: real, b: real) {
    (a > 80.0 && b < 1.0) || (a < 1.0 && b > 80.0)
  }

  function PairOf(e: Event): Pair
    requires e.pid.Some?
  {
    Pair(e.pid.value, e.entity)
  }

  function Decide(m: Memo, e: Event, parse: string -> Option<real>): (Memo, bool) {
    if IsUrgent(e.kind) then (m, true)
    else if !IsResource(e.kind) || e.pid.None? then (m, false)
    else
      var p, v := PairOf(e), parse(e.value);
      if p !in m.bindings then
        (Memo(m.bindings + {p}, if IsCompute(e.kind) && v.Some? then m.lastUtil[p := v.value] else m.lastUtil), true)
      else if IsCompute(e.kind) && v.Some? && p in m.lastUtil && Swing(m.lastUtil[p], v.value) then
        (m.(lastUtil := m.lastUtil[p := v.value]), true)
      else (m, false)
  }

  class EdgeRollup {
    const parse: string -> Option<real>
    var bindings: set<Pair>
    var lastUtil: map<Pair, real>

    constructor (parse: string -> Option<real>)
      ensures this.parse == parse && View() == Blank
    {
      this.parse, bindings, lastUtil := parse, {}, map[];
    }

    function View(): Memo
      reads this
    {
      Memo(bindings, lastUtil)
    }

    method ShouldForward(event: Event) returns (forward: bool)
      modifies this
      ensures (View(), forward) == Decide(old(View()), event, parse)
    {
      match event.kind {
        case ErrorHw | ErrorNet | ProcessState | TransportDrop | TopoLinkDown =>
          return true;
        case ComputeUtil | ComputeMem =>
          if event.pid.Some? {
            var key := Pair(event.pid.value, event.entity);
            if key !in bindings {
              bindings := bindings + {key};
              var util := parse(event.value);
              if util.Some? {
                lastUtil := lastUtil[key := util.value];
              }
              return true;
            }
            var current := parse(event.value);
            if current.Some? && key in lastUtil {
              var last := lastUtil[key];
              if (last > 80.0 && current.value < 1.0) || (last < 1.0 && current.value > 80.0) {
                lastUtil := lastUtil[key := current.value];
                return true;
              }
            }
          }
          return false;
        case StorageIops | StorageQDepth | TransportBw =>
          if event.pid.Some? {
            var key := Pair(event.pid.value, event.entity);
            if key !in bindings {
              bindings := bindings + {key};
              return true;
            }
          }
          return false;
        case IntentRun | ActionExec =>
          return false;
      }
    }
  }

  // ---- whole streams ----

  function MemoAfter(h: seq<Event>, parse: string -> Option<real>): Memo {
    if h == [] then Blank else Decide(MemoAfter(h[..|h| - 1], parse), h[|h| - 1], parse).0
  }

  predicate Forwarded(h: seq<Event>, i: nat, parse: string -> Option<real>)
    requires i < |h|
  {
    Decide(MemoAfter(h[..i], parse), h[i], parse).1
  }

  /** A resource event of the pair. */
  predicate Concerns(e: Event, p: Pair) {
    IsResource(e.kind) && e.pid.Some? && PairOf(e) == p
  }

  function Util(e: Event, parse: string -> Option<real>): Option<real> {
    if IsCompute(e.kind) then parse(e.value) else None
  }

  /** Both are compute samples that parse, and the utilisation swings between them. */
  predicate Swings(a: Event, b: Event, parse: string -> Option<real>) {
    var x, y := Util(a, parse), Util(b, parse);
    x.Some? && y.Some? && Swing(x.value, y.value)
  }

  /** The resource events of the pair that were forwarded, in order. */
  function Sent(h: seq<Event>, p: Pair, parse: string -> Option<real>): (r: seq<Event>)
    ensures |r| <= |h|
  {
    if h == [] then []
    else
      var n := |h| - 1;
      Sent(h[..n], p, parse) + (if Concerns(h[n], p) && Forwarded(h, n, parse) then [h[n]] else [])
  }

  function Recorded(m: Memo, p: Pair): Option<real> {
    if p in m.lastUtil then Some(m.lastUtil[p]) else None
  }

  /** The memo knows the pairs that were forwarded, and the sample forwarded last. */
  lemma {:induction false} MemoIs(h: seq<Event>, p: Pair, parse: string -> Option<real>)
    ensures var m, sent := MemoAfter(h, parse), Sent(h, p, parse);
            && (p in m.bindings <==> sent != [])
            && Recorded(m, p) == if sent == [] then None else Util(sent[|sent| - 1], parse)
  {
    if h != [] {
      var n := |h| - 1;
      MemoIs(h[..n], p, parse);
      DecideOn(MemoAfter(h[..n], parse), h[n], p, parse);
    }
  }

  /** What one decision does to one pair. */
  lemma DecideOn(m: Memo, e: Event, p: Pair, parse: string -> Option<real>)
    requires p !in m.bindings ==> p !in m.lastUtil
    ensures var (m', forward) := Decide(m, e, parse);
            && (p in m'.bindings <==> p in m.bindings || Concerns(e, p))
            && (Concerns(e, p) && p !in m.bindings ==> forward)
            && Recorded(m', p) == if Concerns(e, p) && forward then Util(e, parse) else Recorded(m, p)
  {}

  /** A resource event of the pair is forwarded exactly when none was before, or when it
      and the one forwarded last swing. */
  lemma ForwardedIff(h: seq<Event>, j: nat, p: Pair, parse: string -> Option<real>)
    requires j < |h| && Concerns(h[j], p)
    ensures var sent := Sent(h[..j], p, parse);
            Forwarded(h, j, parse) <==> sent == [] || Swings(sent[|sent| - 1], h[j], parse)
  {
    MemoIs(h[..j], p, parse);
  }

  // ---- what reaches the hub, over whole runs ----

  predicate IsFirst(h: seq<Event>, i: nat, p: Pair)
    requires i < |h|
  {
    Concerns(h[i], p) && forall j | 0 <= j < i :: !Concerns(h[j], p)
  }

  predicate Alternates(s: seq<Event>, parse: string -> Option<real>) {
    forall k | 0 < k < |s| :: Swings(s[k - 1], s[k], parse)
  }

  lemma SentNext(h: seq<Event>, e: Event, p: Pair, parse: string -> Option<real>)
    ensures var before, sent := Sent(h, p, parse), Sent(h + [e], p, parse);
            sent == if Concerns(e, p) && (before == [] || Swings(before[|before| - 1], e, parse))
                    then before + [e] else before
  {
    var all := h + [e];
    assert all[..|h|] == h;
    assert Sent(h, p, parse) + [] == Sent(h, p, parse);
    if Concerns(e, p) {
      ForwardedIff(all, |h|, p, parse);
    }
  }

  /** Over every run, the forwarded resource events of a pair are samples that swing,
      each against the one before it. */
  lemma {:induction false} SentSwings(h: seq<Event>, p: Pair, parse: string -> Option<real>)
    ensures Alternates(Sent(h, p, parse), parse)
  {
    if h != [] {
      var front, e := h[..|h| - 1], h[|h| - 1];
      assert h == front + [e];
      SentSwings(front, p, parse);
      SentNext(front, e, p, parse);
    }
  }

  /** What is forwarded begins with the first resource event of the pair; nothing is
      only if there was none. */
  lemma {:induction false} SentFromFirst(h: seq<Event>, p: Pair, parse: string -> Option<real>)
    ensures var sent := Sent(h, p, parse);
            && (sent == [] <==> forall i | 0 <= i < |h| :: !Concerns(h[i], p))
            && (forall i | 0 <= i < |h| && IsFirst(h, i, p) :: sent != [] && sent[0] == h[i])
  {
    if h != [] {
      var n := |h| - 1;
      var front, e := h[..n], h[n];
      assert h == front + [e];
      assert forall i | 0 <= i < n :: h[i] == front[i];
      SentFromFirst(front, p, parse);
      SentNext(front, e, p, parse);
      forall i | 0 <= i < |h| && IsFirst(h, i, p)
        ensures Sent(h, p, parse) != [] && Sent(h, p, parse)[0] == h[i]
      {
        if i < n {
          assert IsFirst(front, i, p);
        }
      }
    }
  }

  predicate High(e: Event, parse: string -> Option<real>) {
    Util(e, parse).Some? && Util(e, parse).value > 80.0
  }

  predicate Low(e: Event, parse: string -> Option<real>) {
    Util(e, parse).Some? && Util(e, parse).value < 1.0
  }

  /** Samples that swing strictly alternate between above 80 and below 1. */
  lemma {:induction false} AlternationIs(s: seq<Event>, k: nat, parse: string -> Option<real>)
    requires Alternates(s, parse) && |s| > 1 && k < |s|
    ensures High(s[0], parse) != Low(s[0], parse)
    ensures if (k % 2 == 0) == High(s[0], parse) then High(s[k], parse) else Low(s[k], parse)
  {
    assert Swings(s[0], s[1], parse);
    if k > 0 {
      AlternationIs(s, k - 1, parse);
      assert Swings(s[k - 1], s[k], parse);
    }
  }

  /** Over every run, if a pair has more than one forwarded event, all of them are
      samples strictly alternating between above 80 and below 1, from the first. */
  lemma SentAlternates(h: seq<Event>, p: Pair, k: nat, parse: string -> Option<real>)
    requires var sent := Sent(h, p, parse); |sent| > 1 && k < |sent|
    ensures var sent := Sent(h, p, parse);
            if (k % 2 == 0) == High(sent[0], parse) then High(sent[k], parse) else Low(sent[k], parse)
  {
    SentSwings(h, p, parse);
    AlternationIs(Sent(h, p, parse), k, parse);
  }

  /** Samples swing exactly when one is above 80 and the other below 1. */
  lemma SwingMeans(a: Event, b: Event, parse: string -> Option<real>)
    ensures Swings(a, b, parse) <==>
            (High(a, parse) && Low(b, parse)) || (Low(a, parse) && High(b, parse))
  {}

  /** Of one of the kinds that report on a resource. */
  predicate Reports(k: EventKind) {
    k == ComputeUtil || k == ComputeMem || k == StorageIops || k == StorageQDepth || k == TransportBw
  }

  /** The first report on a resource by a process is forwarded. */
  lemma FirstIsForwarded(h: seq<Event>, j: nat, p: Pair, parse: string -> Option<real>)
    requires j < |h| && Reports(h[j].kind) && h[j].pid == Some(p.pid) && h[j].entity == p.entity
    requires forall i | 0 <= i < j && Reports(h[i].kind) :: h[i].pid != Some(p.pid) || h[i].entity != p.entity
    ensures Forwarded(h, j, parse)
  {
    SentFromFirst(h[..j], p, parse);
    ForwardedIff(h, j, p, parse);
  }

  /** Later storage and bandwidth events of a pair, and samples that do not parse, never
      are. */
  lemma LaterOthersAreNot(h: seq<Event>, i: nat, j: nat, p: Pair, parse: string -> Option<real>)
    requires i < j < |h| && Concerns(h[i], p) && Concerns(h[j], p) && Util(h[j], parse).None?
    ensures !Forwarded(h, j, parse)
  {
    assert h[..j][i] == h[i];
    SentFromFirst(h[..j], p, parse);
    ForwardedIff(h, j, p, parse);
  }

  // ---- no swing is lost ----

  /** Positions of resource events of the pair, in order, whose samples swing. */
  predicate IsChain(h: seq<Event>, at: seq<nat>, p: Pair, parse: string -> Option<real>) {
    && (forall k | 0 <= k < |at| :: at[k] < |h| && Concerns(h[at[k]], p))
    && (forall k | 0 < k < |at| :: at[k - 1] < at[k] && Swings(h[at[k - 1]], h[at[k]], parse))
  }

  function Pick(h: seq<Event>, at: seq<nat>): seq<Event>
    requires forall k | 0 <= k < |at| :: at[k] < |h|
  {
    seq(|at|, k requires 0 <= k < |at| => h[at[k]])
  }

  lemma {:induction false} ChainAscends(h: seq<Event>, at: seq<nat>, n: nat, p: Pair, parse: string -> Option<real>)
    requires IsChain(h, at, p, parse) && n <= |at|
    ensures forall k | 0 <= k < n :: at[k] <= at[n - 1]
  {
    if n > 1 {
      ChainAscends(h, at, n - 1, p, parse);
    }
  }

  /** The part of a chain that lies in front of the last event. */
  lemma ChainFront(h: seq<Event>, at: seq<nat>, n: nat, p: Pair, parse: string -> Option<real>)
    requires IsChain(h, at, p, parse) && 0 < n <= |at| && at[n - 1] < |h| - 1 && IsFirst(h, at[0], p)
    ensures var front := h[..|h| - 1]; IsChain(front, at[..n], p, parse) && IsFirst(front, at[0], p)
  {
    ChainAscends(h, at, n, p, parse);
  }

  /** Two alternations of one length from one event end on the same side. */
  lemma SameSide(a: seq<Event>, b: seq<Event>, e: Event, parse: string -> Option<real>)
    requires Alternates(a, parse) && Alternates(b, parse) && |a| == |b| > 0 && a[0] == b[0]
    ensures Swings(a[|a| - 1], e, parse) <==> Swings(b[|b| - 1], e, parse)
  {
    if |a| > 1 {
      AlternationIs(a, |a| - 1, parse);
      AlternationIs(b, |b| - 1, parse);
    }
  }

  /** A chain as long as what was forwarded, and one more sample that continues it. */
  lemma ChainGoesOn(h: seq<Event>, at: seq<nat>, e: Event, p: Pair, parse: string -> Option<real>)
    requires IsChain(h, at, p, parse) && at != [] && IsFirst(h, at[0], p) && |at| == |Sent(h, p, parse)|
    requires Concerns(e, p) && Swings(h[at[|at| - 1]], e, parse)
    ensures |Sent(h + [e], p, parse)| == |at| + 1
  {
    var sent, chain := Sent(h, p, parse), Pick(h, at);
    SentSwings(h, p, parse);
    SentFromFirst(h, p, parse);
    SentNext(h, e, p, parse);
    assert Alternates(chain, parse) && chain[0] == sent[0];
    SameSide(chain, sent, e, parse);
  }

  /** No choice of samples that swing, beginning with the first event of the pair, is
      longer than what was forwarded. */
  lemma {:induction false} NoSwingIsLost(h: seq<Event>, at: seq<nat>, p: Pair, parse: string -> Option<real>)
    requires IsChain(h, at, p, parse) && at != [] && IsFirst(h, at[0], p)
    ensures |at| <= |Sent(h, p, parse)|
  {
    var n, last := |h| - 1, |at| - 1;
    var front := h[..n];
    assert h == front + [h[n]];
    if at[last] < n {
      assert at[..|at|] == at;
      ChainFront(h, at, |at|, p, parse);
      NoSwingIsLost(front, at, p, parse);
    } else if last == 0 {
      SentFromFirst(h, p, parse);
    } else {
      assert at[last - 1] < at[last] == n && Swings(h[at[last - 1]], h[n], parse);
      ChainFront(h, at, last, p, parse);
      NoSwingIsLost(front, at[..last], p, parse);
      if last == |Sent(front, p, parse)| {
        ChainGoesOn(front, at[..last], h[n], p, parse);
      }
    }
  }

  /** Hardware, network and link errors, process states and drops always go out; intents and
      actions never do, nor do reports on a resource without a process. */
  lemma OthersAreConstant(h: seq<Event>, j: nat, parse: string -> Option<real>)
    requires j < |h|
    ensures h[j].kind in {ErrorHw, ErrorNet, ProcessState, TransportDrop, TopoLinkDown} ==> Forwarded(h, j, parse)
    ensures h[j].kind in {IntentRun, ActionExec} ==> !Forwarded(h, j, parse)
    ensures Reports(h[j].kind) && h[j].pid.None? ==> !Forwarded(h, j, parse)
  {}
}
