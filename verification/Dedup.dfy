/** The sliding de-duplication store of the hub (hub/src/dedup.rs). The fingerprint
    is any function from events to keys. */
module Dedup {
  import opened Events

  type Store = map<nat, nat>
  type Fingerprint = Event -> nat

  function Pruned(store: Store, cutoff: nat): Store {
    map k | k in store && store[k] >= cutoff :: store[k]
  }

  /** Expired keys go first; then the event is accepted unless its key is there. */
  function Offer(store: Store, e: Event, window: nat, fp: Fingerprint): (Store, bool) {
    var kept := Pruned(store, SatSub(e.ts, window));
    if fp(e) in kept then (kept, false) else (kept[fp(e) := e.ts], true)
  }

  class DedupStore {
    const window: nat
    const fp: Fingerprint
    var store: Store

    constructor (window: nat, fp: Fingerprint)
      ensures this.window == window && this.fp == fp && store == map[]
    {
      this.window, this.fp, store := window, fp, map[];
    }

    method Accept(event: Event) returns (accepted: bool)
      modifies this
      ensures (store, accepted) == Offer(old(store), event, window, fp)
    {
      var key := fp(event);
      var cutoff := SatSub(event.ts, window);
      store := map k | k in store && store[k] >= cutoff :: store[k];
      if key in store {
        return false;
      }
      store := store[key := event.ts];
      return true;
    }
  }

  // ---- whole streams ----

  function StoreAfter(h: seq<Event>, window: nat, fp: Fingerprint): Store {
    if h == [] then map[] else Offer(StoreAfter(h[..|h| - 1], window, fp), h[|h| - 1], window, fp).0
  }

  /** The i-th event of the stream was accepted. */
  predicate Accepted(h: seq<Event>, i: nat, window: nat, fp: Fingerprint)
    requires i < |h|
  {
    Offer(StoreAfter(h[..i], window, fp), h[i], window, fp).1
  }

  /** Some event after the i-th and before position `n` was more than a window
      later than the i-th. */
  predicate Outlasted(h: seq<Event>, i: nat, n: nat, window: nat)
    requires i < |h| && n <= |h|
  {
    exists k | i < k < n :: h[k].ts > h[i].ts + window
  }

  /** The i-th event was accepted and nothing handled since has outlasted it. */
  predicate Alive(h: seq<Event>, i: nat, window: nat, fp: Fingerprint)
    requires i < |h|
  {
    Accepted(h, i, window, fp) && !Outlasted(h, i, |h|, window)
  }

  lemma AcceptedPrefix(h: seq<Event>, n: nat, i: nat, window: nat, fp: Fingerprint)
    requires i < n <= |h|
    ensures Accepted(h[..n], i, window, fp) == Accepted(h, i, window, fp)
    ensures Outlasted(h[..n], i, n, window) == Outlasted(h, i, n, window)
  {
    assert h[..n][..i] == h[..i];
  }

  lemma AliveNext(h: seq<Event>, i: nat, window: nat, fp: Fingerprint)
    requires i < |h| - 1
    ensures var front, e := h[..|h| - 1], h[|h| - 1];
            Alive(h, i, window, fp) <==> Alive(front, i, window, fp) && e.ts <= h[i].ts + window
  {
    var n := |h| - 1;
    AcceptedPrefix(h, n, i, window, fp);
    if Outlasted(h, i, n, window) {
      var k :| i < k < n && h[k].ts > h[i].ts + window;
      assert i < k < |h|;
    }
  }

  /** For any order of arrival, the store holds exactly the keys of the events that
      are alive, each with the timestamp of such an event. */
  lemma {:induction false} StoreIsAlive(h: seq<Event>, key: nat, window: nat, fp: Fingerprint)
    ensures var store := StoreAfter(h, window, fp);
            && (forall i | 0 <= i < |h| && fp(h[i]) == key && Alive(h, i, window, fp) ::
                  key in store && store[key] == h[i].ts)
            && (key in store ==> exists i | 0 <= i < |h| :: fp(h[i]) == key && Alive(h, i, window, fp))
  {
    if h != [] {
      var n := |h| - 1;
      var front, e := h[..n], h[n];
      StoreIsAlive(front, key, window, fp);
      var store, store' := StoreAfter(front, window, fp), StoreAfter(h, window, fp);
      forall i | 0 <= i < |h| && fp(h[i]) == key && Alive(h, i, window, fp)
        ensures key in store' && store'[key] == h[i].ts
      {
        if i < n {
          AliveNext(h, i, window, fp);
          assert fp(front[i]) == key;
        }
      }
      if key in store' {
        if Accepted(h, n, window, fp) && fp(e) == key {
          assert Alive(h, n, window, fp);
        } else {
          var i :| 0 <= i < n && fp(front[i]) == key && Alive(front, i, window, fp);
          AliveNext(h, i, window, fp);
          assert fp(h[i]) == key;
        }
      }
    }
  }

  /** An accepted event with the key of the j-th that nothing up to and including
      the j-th has outlasted. */
  predicate Bars(h: seq<Event>, i: nat, j: nat, window: nat, fp: Fingerprint)
    requires i < j < |h|
  {
    fp(h[i]) == fp(h[j]) && Accepted(h, i, window, fp) && !Outlasted(h, i, j + 1, window)
  }

  /** An event is accepted exactly when no earlier event bars it. */
  lemma AcceptedIff(h: seq<Event>, j: nat, window: nat, fp: Fingerprint)
    requires j < |h|
    ensures Accepted(h, j, window, fp) <==> !exists i | 0 <= i < j :: Bars(h, i, j, window, fp)
  {
    var upTo, front, key := h[..j + 1], h[..j], fp(h[j]);
    assert upTo[..j] == front;
    StoreIsAlive(front, key, window, fp);
    forall i | 0 <= i < j
      ensures Bars(h, i, j, window, fp) <==>
              fp(front[i]) == key && Alive(front, i, window, fp) && h[j].ts <= h[i].ts + window
    {
      AcceptedPrefix(h, j + 1, i, window, fp);
      AliveNext(upTo, i, window, fp);
    }
    var store := StoreAfter(front, window, fp);
    if !Accepted(h, j, window, fp) {
      var i :| 0 <= i < |front| && fp(front[i]) == key && Alive(front, i, window, fp);
      assert store[key] == front[i].ts;
      assert Bars(h, i, j, window, fp);
    }
  }

  /** An exact repeat of an accepted event is accepted again only if some event
      handled strictly in between, accepted or not, was more than a window later;
      that is also sufficient unless the repeat was accepted in between. */
  lemma RepeatAccepted(h: seq<Event>, i: nat, j: nat, window: nat, fp: Fingerprint)
    requires i < j < |h| && h[j] == h[i] && Accepted(h, i, window, fp)
    ensures Accepted(h, j, window, fp) ==> Outlasted(h, i, j, window)
    ensures (forall m | i < m < j && fp(h[m]) == fp(h[i]) :: !Accepted(h, m, window, fp)) ==>
            (Accepted(h, j, window, fp) <==> Outlasted(h, i, j, window))
  {
    AcceptedIff(h, j, window, fp);
    if Accepted(h, j, window, fp) {
      assert !Bars(h, i, j, window, fp);
      var k :| i < k < j + 1 && h[k].ts > h[i].ts + window;
      assert k < j;
    }
    if k :| i < k < j && h[k].ts > h[i].ts + window {
      assert i < k < j + 1 && !Bars(h, i, j, window, fp);
      AcceptedIff(h, i, window, fp);
      forall m | 0 <= m < i ensures !Bars(h, m, j, window, fp) {
        StaysUnbarred(h, m, i, j, window, fp);
      }
    }
  }

  /** What no longer bars an event does not bar a later one of the same key. */
  lemma StaysUnbarred(h: seq<Event>, m: nat, i: nat, j: nat, window: nat, fp: Fingerprint)
    requires m < i < j < |h| && fp(h[i]) == fp(h[j]) && !Bars(h, m, i, window, fp)
    ensures !Bars(h, m, j, window, fp)
  {
    if Outlasted(h, m, i + 1, window) {
      var l :| m < l < i + 1 && h[l].ts > h[m].ts + window;
      assert m < l < j + 1;
    }
  }

  predicate Ordered(h: seq<Event>) {
    forall i, j | 0 <= i < j < |h| :: h[i].ts <= h[j].ts
  }

  /** With non-decreasing timestamps the store is exactly the accepted keys still
      inside the window that ends at the newest event. */
  lemma StoreIsWindow(h: seq<Event>, key: nat, window: nat, fp: Fingerprint)
    requires h != [] && Ordered(h)
    ensures key in StoreAfter(h, window, fp) <==>
            exists i | 0 <= i < |h| :: Accepted(h, i, window, fp) && fp(h[i]) == key
                                       && h[|h| - 1].ts <= h[i].ts + window
  {
    StoreIsAlive(h, key, window, fp);
    forall i | 0 <= i < |h|
      ensures Outlasted(h, i, |h|, window) <==> h[|h| - 1].ts > h[i].ts + window
    {
      if k :| i < k < |h| && h[k].ts > h[i].ts + window {
        assert k < |h| - 1 ==> h[k].ts <= h[|h| - 1].ts;
      }
    }
    if key in StoreAfter(h, window, fp) {
      var i :| 0 <= i < |h| && fp(h[i]) == key && Alive(h, i, window, fp);
      assert Accepted(h, i, window, fp) && h[|h| - 1].ts <= h[i].ts + window;
    }
    if i :| 0 <= i < |h| && Accepted(h, i, window, fp) && fp(h[i]) == key && h[|h| - 1].ts <= h[i].ts + window {
      assert Alive(h, i, window, fp);
    }
  }

  predicate WithinWindow(h: seq<Event>, window: nat) {
    forall i, j | 0 <= i < |h| && 0 <= j < |h| :: h[i].ts <= h[j].ts + window
  }

  /** When all timestamps lie within one window, exactly the first event of each
      key is accepted. */
  lemma FirstOfKey(h: seq<Event>, j: nat, window: nat, fp: Fingerprint)
    requires WithinWindow(h, window) && j < |h|
    ensures Accepted(h, j, window, fp) <==> forall i | 0 <= i < j :: fp(h[i]) != fp(h[j])
  {
    AcceptedIff(h, j, window, fp);
    if i :| 0 <= i < j && fp(h[i]) == fp(h[j]) {
      var m := AcceptedOfKey(h, i, window, fp);
      assert Bars(h, m, j, window, fp);
    }
  }

  lemma AcceptedOfKey(h: seq<Event>, i: nat, window: nat, fp: Fingerprint) returns (m: nat)
    requires i < |h|
    ensures m <= i && fp(h[m]) == fp(h[i]) && Accepted(h, m, window, fp)
  {
    m := i;
    if !Accepted(h, i, window, fp) {
      AcceptedIff(h, i, window, fp);
      m :| 0 <= m < i && Bars(h, m, i, window, fp);
    }
  }
}
