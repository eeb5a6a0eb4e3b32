/** Crash recovery (hub/src/wal.rs, hub/src/main.rs): a hub that crashes and replays
    its log is the hub that never crashed. */
module Recovery {
  import opened Events
  import opened Text
  import opened Dedup
  import opened Wal
  import opened Hub

  // ---- the memory as a function of the stream ----

  lemma {:induction false} LiveDedup<G>(h: seq<Event>, cfg: Config<G>)
    ensures Live(h, cfg).dedup == StoreAfter(h, cfg.window, cfg.fp)
  {
    if h != [] {
      LiveDedup(h[..|h| - 1], cfg);
    }
  }

  lemma LiveNext<G>(h: seq<Event>, e: Event, cfg: Config<G>)
    ensures var (m, ok) := Ingest(Live(h, cfg), e, cfg);
            Live(h + [e], cfg) == m && Taken(h + [e], cfg) == Taken(h, cfg) + (if ok then [e] else [])
  {
    assert (h + [e])[..|h|] == h;
  }

  function Last<T>(s: seq<T>, n: nat): seq<T> {
    if |s| <= n then s else s[|s| - n..]
  }

  /** The buffer is exactly the newest accepted events, up to its size; a buffer of
      size 0 still holds one. */
  lemma {:induction false} BufferIsNewest<G>(h: seq<Event>, cfg: Config<G>)
    ensures Live(h, cfg).buffer == Last(Taken(h, cfg), if cfg.bufferSize == 0 then 1 else cfg.bufferSize)
  {
    if h != [] {
      BufferIsNewest(h[..|h| - 1], cfg);
      TakenLast(h, cfg);
      PushIsLast(Taken(h[..|h| - 1], cfg), h[|h| - 1], cfg.bufferSize);
    }
  }

  lemma PushIsLast(t: seq<Event>, e: Event, size: nat)
    ensures var n := if size == 0 then 1 else size;
            Push(Last(t, n), e, size) == Last(t + [e], n)
  {
    var n := if size == 0 then 1 else size;
    if |t| >= n {
      assert Last(t, n) == t[|t| - n..];
      assert Last(t + [e], n) == t[|t| - n + 1..] + [e];
    }
  }

  /** The graph is the fold of the accepted events. */
  function FoldGraph<G>(events: seq<Event>, cfg: Config<G>): G {
    if events == [] then cfg.empty else cfg.apply(FoldGraph(events[..|events| - 1], cfg), events[|events| - 1])
  }

  lemma {:induction false} GraphIsFold<G>(h: seq<Event>, cfg: Config<G>)
    ensures Live(h, cfg).graph == FoldGraph(Taken(h, cfg), cfg)
  {
    if h != [] {
      var front, e := h[..|h| - 1], h[|h| - 1];
      TakenLast(h, cfg);
      GraphIsFold(front, cfg);
      FoldAppend(Taken(front, cfg), e, cfg);
      assert Live(h, cfg).graph ==
             if Ingest(Live(front, cfg), e, cfg).1 then cfg.apply(Live(front, cfg).graph, e)
             else Live(front, cfg).graph;
    }
  }

  lemma TakenLast<G>(h: seq<Event>, cfg: Config<G>)
    requires h != []
    ensures var front, e := h[..|h| - 1], h[|h| - 1];
            Taken(h, cfg) == if Ingest(Live(front, cfg), e, cfg).1 then Taken(front, cfg) + [e] else Taken(front, cfg)
  {
    var t := Taken(h[..|h| - 1], cfg);
    assert t + [] == t;
  }

  lemma FoldAppend<G>(t: seq<Event>, e: Event, cfg: Config<G>)
    ensures FoldGraph(t + [e], cfg) == cfg.apply(FoldGraph(t, cfg), e)
  {
    assert (t + [e])[..|t|] == t;
  }

  // ---- replaying only what was accepted ----

  /** The n-th event is at most a window later than everything alive when it comes, so
      that it prunes nothing. */
  predicate PrunesNothing(h: seq<Event>, n: nat, window: nat, fp: Fingerprint)
    requires n < |h|
  {
    forall i | 0 <= i < n && Alive(h[..n], i, window, fp) :: h[n].ts <= h[i].ts + window
  }

  /** No rejected event prunes anything: what the log does not show left no trace. */
  predicate ReplaySafe(h: seq<Event>, window: nat, fp: Fingerprint) {
    forall n | 0 <= n < |h| && !Accepted(h, n, window, fp) :: PrunesNothing(h, n, window, fp)
  }

  /** A rejected event leaves the store as it was exactly when it prunes nothing. */
  lemma RejectedChangesNothingIff(h: seq<Event>, window: nat, fp: Fingerprint)
    requires h != [] && !Accepted(h, |h| - 1, window, fp)
    ensures StoreAfter(h, window, fp) == StoreAfter(h[..|h| - 1], window, fp)
       <==> PrunesNothing(h, |h| - 1, window, fp)
  {
    var n := |h| - 1;
    var front, e := h[..n], h[n];
    var store, cutoff := StoreAfter(front, window, fp), SatSub(e.ts, window);
    assert StoreAfter(h, window, fp) == Pruned(store, cutoff);
    if PrunesNothing(h, n, window, fp) {
      forall k | k in store ensures store[k] >= cutoff {
        var i := SourceOf(front, k, window, fp);
        assert h[i] == front[i];
      }
      assert Pruned(store, cutoff) == store;
    } else {
      var i :| 0 <= i < n && Alive(front, i, window, fp) && h[n].ts > h[i].ts + window;
      StoreIsAlive(front, fp(h[i]), window, fp);
      assert fp(front[i]) == fp(h[i]);
      assert fp(h[i]) in store && fp(h[i]) !in Pruned(store, cutoff);
    }
  }

  /** The event a stored key came from. */
  lemma SourceOf(h: seq<Event>, key: nat, window: nat, fp: Fingerprint) returns (i: nat)
    requires key in StoreAfter(h, window, fp)
    ensures i < |h| && fp(h[i]) == key && Alive(h, i, window, fp) && StoreAfter(h, window, fp)[key] == h[i].ts
  {
    StoreIsAlive(h, key, window, fp);
    i :| 0 <= i < |h| && fp(h[i]) == key && Alive(h, i, window, fp);
  }

  lemma SafePrefix(h: seq<Event>, m: nat, window: nat, fp: Fingerprint)
    requires ReplaySafe(h, window, fp) && m <= |h|
    ensures ReplaySafe(h[..m], window, fp)
  {
    forall n | 0 <= n < m && !Accepted(h[..m], n, window, fp) ensures PrunesNothing(h[..m], n, window, fp) {
      AcceptedPrefix(h, m, n, window, fp);
      assert h[..m][..n] == h[..n];
      assert PrunesNothing(h, n, window, fp);
    }
  }

  /** Feeding a hub only the events that another one accepted rebuilds the same memory
      and rejects none of them. */
  lemma {:induction false} TakenSuffices<G>(h: seq<Event>, cfg: Config<G>)
    requires ReplaySafe(h, cfg.window, cfg.fp)
    ensures Live(Taken(h, cfg), cfg) == Live(h, cfg)
    ensures Taken(Taken(h, cfg), cfg) == Taken(h, cfg)
  {
    if h != [] {
      var n := |h| - 1;
      var front, e := h[..n], h[n];
      SafePrefix(h, n, cfg.window, cfg.fp);
      TakenSuffices(front, cfg);
      LiveDedup(front, cfg);
      LiveDedup(h, cfg);
      TakenLast(h, cfg);
      if Ingest(Live(front, cfg), e, cfg).1 {
        LiveNext(Taken(front, cfg), e, cfg);
      } else {
        assert !Accepted(h, n, cfg.window, cfg.fp);
        RejectedChangesNothingIff(h, cfg.window, cfg.fp);
      }
    }
  }

  /** If the replay of the stream is exact before and after a rejected event, that
      event prunes nothing. */
  lemma ExactPrunesNothing<G>(h: seq<Event>, cfg: Config<G>)
    requires h != [] && !Accepted(h, |h| - 1, cfg.window, cfg.fp)
    requires Live(Taken(h, cfg), cfg) == Live(h, cfg)
    requires var front := h[..|h| - 1]; Live(Taken(front, cfg), cfg) == Live(front, cfg)
    ensures PrunesNothing(h, |h| - 1, cfg.window, cfg.fp)
  {
    var front := h[..|h| - 1];
    LiveDedup(front, cfg);
    LiveDedup(h, cfg);
    TakenLast(h, cfg);
    RejectedChangesNothingIff(h, cfg.window, cfg.fp);
  }

  /** Events with one key have one timestamp; true in particular of an injective
      fingerprint. */
  predicate OneTsPerKey(h: seq<Event>, fp: Fingerprint) {
    forall a, b | a in h && b in h && fp(a) == fp(b) :: a.ts == b.ts
  }

  /** No event is more than a window older than one before it. */
  predicate NoneTooLate(h: seq<Event>, window: nat) {
    forall i, j | 0 <= i < j < |h| :: h[i].ts <= h[j].ts + window
  }

  /** A caller can check this much: with one timestamp per key, a stream in which
      nothing is more than a window late is safe. The entry that bars a rejected event
      has its timestamp, so what is alive from before the entry was not outlasted by
      it, and what is alive from after it is at most a window older. */
  lemma TimelyIsSafe(h: seq<Event>, window: nat, fp: Fingerprint)
    requires NoneTooLate(h, window) && OneTsPerKey(h, fp)
    ensures ReplaySafe(h, window, fp)
  {
    forall n | 0 <= n < |h| && !Accepted(h, n, window, fp) ensures PrunesNothing(h, n, window, fp) {
      var front := h[..n];
      var m := SourceOf(front, fp(h[n]), window, fp);
      assert h[m] in h && h[n] in h && fp(h[m]) == fp(h[n]);
      forall i | 0 <= i < n && Alive(front, i, window, fp) ensures h[n].ts <= h[i].ts + window {
        assert front[i] == h[i] && front[m] == h[m];
        if i < m {
          assert !Outlasted(front, i, n, window);
        }
      }
    }
  }

  /** Streams that are not safe: if `b` is more than a window older than `a`, then in
      a, b, a, b the rejected repeat of `a` makes the hub forget `b`, so that the
      second `b` is accepted and logged; the replay never sees that repeat and
      rejects it. */
  lemma DisorderBreaksReplay<G>(a: Event, b: Event, cfg: Config<G>)
    requires b.ts + cfg.window < a.ts && cfg.fp(a) != cfg.fp(b)
    ensures Taken([a, b, a, b], cfg) == [a, b, b]
    ensures Taken([a, b, b], cfg) == [a, b]
  {
    assert [] + [a] == [a] && [a] + [b] == [a, b] && [a, b] + [a] == [a, b, a];
    assert [a, b, a] + [b] == [a, b, a, b] && [a, b] + [b] == [a, b, b];
    DisorderedOffers(a, b, cfg.window, cfg.fp);
    StoreNext([], a, cfg);
    StoreNext([a], b, cfg);
    StoreNext([a, b], a, cfg);
    StoreNext([a, b, a], b, cfg);
    StoreNext([a, b], b, cfg);
  }

  lemma DisorderedOffers(a: Event, b: Event, window: nat, fp: Fingerprint)
    requires b.ts + window < a.ts && fp(a) != fp(b)
    ensures var one, two := map[fp(a) := a.ts], map[fp(a) := a.ts, fp(b) := b.ts];
            && Offer(map[], a, window, fp) == (one, true)
            && Offer(one, b, window, fp) == (two, true)
            && Offer(two, a, window, fp) == (one, false)
            && Offer(two, b, window, fp) == (two, false)
  {
    var one, two := map[fp(a) := a.ts], map[fp(a) := a.ts, fp(b) := b.ts];
    assert Pruned(one, SatSub(b.ts, window)) == one;
    assert Pruned(two, SatSub(a.ts, window)) == one;
    assert Pruned(two, SatSub(b.ts, window)) == two;
  }

  /** One more event, as far as the store is concerned. */
  lemma StoreNext<G>(h: seq<Event>, e: Event, cfg: Config<G>)
    ensures var r := Offer(Live(h, cfg).dedup, e, cfg.window, cfg.fp);
            Live(h + [e], cfg).dedup == r.0 && Taken(h + [e], cfg) == if r.1 then Taken(h, cfg) + [e] else Taken(h, cfg)
  {
    LiveNext(h, e, cfg);
    assert Taken(h, cfg) + [] == Taken(h, cfg);
  }

  // ---- reading the files back ----

  function TakeAll<G>(p: Progress<G>, events: seq<Event>, cfg: Config<G>): Progress<G> {
    if events == [] then p else Take(TakeAll(p, events[..|events| - 1], cfg), events[|events| - 1], cfg)
  }

  lemma {:induction false} TakeConcat<G>(p: Progress<G>, a: seq<Event>, b: seq<Event>, cfg: Config<G>)
    ensures TakeAll(p, a + b, cfg) == TakeAll(TakeAll(p, a, cfg), b, cfg)
  {
    if b == [] {
      assert a + b == a;
    } else {
      assert (a + b)[..|a + b| - 1] == a + b[..|b| - 1];
      TakeConcat(p, a, b[..|b| - 1], cfg);
    }
  }

  function Rendered(events: seq<Event>, c: Codec): seq<string> {
    seq(|events|, i requires 0 <= i < |events| => c.render(events[i]))
  }

  lemma {:induction false} EncodeCons(e: Event, events: seq<Event>, c: Codec)
    ensures Encode([e] + events, c) == Line(e, c) + Encode(events, c)
  {
    var all := [e] + events;
    if events == [] {
      assert all == [e] && all[..0] == [];
    } else {
      EncodeCons(e, events[..|events| - 1], c);
      assert all[..|all| - 1] == [e] + events[..|events| - 1];
    }
  }

  /** Splitting a log file gives its lines back, then an empty piece. */
  lemma {:induction false} LinesOf(events: seq<Event>, c: Codec)
    requires Faithful(c)
    ensures Split(Encode(events, c), '\n') == Rendered(events, c) + [""]
  {
    if events != [] {
      var e, rest := events[0], events[1..];
      assert events == [e] + rest;
      assert Rendered(events, c) == [c.render(e)] + Rendered(rest, c);
      EncodeCons(e, rest, c);
      LineFirst(c.render(e), Encode(rest, c));
      LinesOf(rest, c);
    }
  }

  lemma LineFirst(line: string, rest: string)
    requires '\n' !in line
    ensures Split(line + "\n" + rest, '\n') == [line] + Split(rest, '\n')
  {
    assert line + ['\n'] + rest == line + "\n" + rest;
    SplitFirst(line, '\n', rest);
  }

  lemma {:induction false} ReplayRendered<G>(p: Progress<G>, events: seq<Event>, cfg: Config<G>)
    requires Faithful(cfg.codec)
    ensures ReplayLines(p, Rendered(events, cfg.codec), cfg) == TakeAll(p, events, cfg)
  {
    if events != [] {
      var lines, front := Rendered(events, cfg.codec), events[..|events| - 1];
      assert lines[..|lines| - 1] == Rendered(front, cfg.codec);
      assert lines[|lines| - 1] == cfg.codec.render(events[|events| - 1]);
      ReplayRendered(p, front, cfg);
    }
  }

  /** Replaying a file takes in exactly the events written to it. */
  lemma ReplayEncoded<G>(p: Progress<G>, file: Option<string>, events: seq<Event>, cfg: Config<G>)
    requires Faithful(cfg.codec) && Contents(file) == Encode(events, cfg.codec)
    ensures ReplayFile(p, file, cfg) == TakeAll(p, events, cfg)
  {
    if file.None? {
      NothingEncoded(events, cfg.codec);
    } else {
      var lines := Rendered(events, cfg.codec);
      LinesOf(events, cfg.codec);
      ReplayRendered(p, events, cfg);
      BlankLine(p, lines, cfg);
    }
  }

  lemma BlankLine<G>(p: Progress<G>, lines: seq<string>, cfg: Config<G>)
    ensures ReplayLines(p, lines + [""], cfg) == ReplayLines(p, lines, cfg)
  {
    assert (lines + [""])[..|lines|] == lines;
    assert Trim("") == "";
  }

  lemma NothingEncoded(events: seq<Event>, c: Codec)
    requires Encode(events, c) == ""
    ensures events == []
  {}

  lemma ReplayBoth<G>(d: Disk, older: seq<Event>, recent: seq<Event>, cfg: Config<G>)
    requires Faithful(cfg.codec)
    requires Contents(d.rotated) == Encode(older, cfg.codec) && Contents(d.active) == Encode(recent, cfg.codec)
    ensures Replay(d, cfg) == TakeAll(Progress(Initial(cfg), NoStats), older + recent, cfg)
  {
    var p := Progress(Initial(cfg), NoStats);
    ReplayEncoded(p, d.rotated, older, cfg);
    ReplayEncoded(TakeAll(p, older, cfg), d.active, recent, cfg);
    TakeConcat(p, older, recent, cfg);
  }

  /** Replaying both files takes in the retained part of the log, in order. */
  lemma ReplayRetained<G>(d: Disk, log: seq<Event>, first: nat, cut: nat, cfg: Config<G>)
    requires Faithful(cfg.codec) && Retains(d, log, first, cut, cfg.codec)
    ensures Replay(d, cfg) == TakeAll(Progress(Initial(cfg), NoStats), log[first..], cfg)
  {
    assert log[first..cut] + log[cut..] == log[first..];
    ReplayBoth(d, log[first..cut], log[cut..], cfg);
  }

  lemma {:induction false} TakeIsLive<G>(h: seq<Event>, cfg: Config<G>)
    ensures var p := TakeAll(Progress(Initial(cfg), NoStats), h, cfg);
            && p.memory == Live(h, cfg)
            && p.stats.replayed == |Taken(h, cfg)|
            && p.stats.corrupted == 0
            && p.stats.replayed + p.stats.dropped == |h|
  {
    if h != [] {
      TakeIsLive(h[..|h| - 1], cfg);
    }
  }

  /** The events in some lines: blank lines and lines that do not parse have none. */
  function Decoded(lines: seq<string>, c: Codec): seq<Event> {
    if lines == [] then []
    else
      var e := c.decode(Trim(lines[|lines| - 1]));
      Decoded(lines[..|lines| - 1], c) + (if Trim(lines[|lines| - 1]) != "" && e.Some? then [e.value] else [])
  }

  /** How many lines are neither blank nor parse. */
  function CorruptIn(lines: seq<string>, c: Codec): nat {
    if lines == [] then 0
    else
      var line := Trim(lines[|lines| - 1]);
      CorruptIn(lines[..|lines| - 1], c) + (if line != "" && c.decode(line).None? then 1 else 0)
  }

  /** Whatever the lines, replay is the stream of the events in them: blank and corrupt lines
      change nothing, and the counters add up. */
  lemma {:induction false} ReplayIsStream<G>(lines: seq<string>, cfg: Config<G>)
    ensures var p, h := ReplayLines(Progress(Initial(cfg), NoStats), lines, cfg), Decoded(lines, cfg.codec);
            && p.memory == Live(h, cfg)
            && p.stats.replayed == |Taken(h, cfg)| && p.stats.dropped == |h| - |Taken(h, cfg)|
            && p.stats.corrupted == CorruptIn(lines, cfg.codec)
  {
    if lines != [] {
      var front, line := lines[..|lines| - 1], Trim(lines[|lines| - 1]);
      var h := Decoded(front, cfg.codec);
      assert h + [] == h && Taken(h, cfg) + [] == Taken(h, cfg);
      ReplayIsStream(front, cfg);
      if line != "" && cfg.codec.decode(line).Some? {
        LiveNext(h, cfg.codec.decode(line).value, cfg);
      }
    }
  }

  // ---- any retained suffix ----

  predicate AllAccepted<G>(h: seq<Event>, cfg: Config<G>) {
    forall i | 0 <= i < |h| :: Accepted(h, i, cfg.window, cfg.fp)
  }

  lemma AllAcceptedNext<G>(h: seq<Event>, cfg: Config<G>)
    requires h != []
    ensures AllAccepted(h, cfg) <==> AllAccepted(h[..|h| - 1], cfg) && Accepted(h, |h| - 1, cfg.window, cfg.fp)
  {
    var n := |h| - 1;
    var front := h[..n];
    forall i | 0 <= i < n ensures Accepted(front, i, cfg.window, cfg.fp) == Accepted(h, i, cfg.window, cfg.fp) {
      AcceptedPrefix(h, n, i, cfg.window, cfg.fp);
    }
    if AllAccepted(h, cfg) {
      forall i | 0 <= i < n ensures Accepted(front, i, cfg.window, cfg.fp) {
        assert Accepted(h, i, cfg.window, cfg.fp);
      }
    }
  }

  lemma {:induction false} TakenIsAccepted<G>(h: seq<Event>, cfg: Config<G>)
    ensures |Taken(h, cfg)| <= |h|
    ensures |Taken(h, cfg)| == |h| ==> AllAccepted(h, cfg)
    ensures AllAccepted(h, cfg) ==> Taken(h, cfg) == h
  {
    if h != [] {
      var n := |h| - 1;
      var front, e := h[..n], h[n];
      assert h == front + [e];
      AllAcceptedNext(h, cfg);
      TakenLast(h, cfg);
      LiveDedup(front, cfg);
      TakenIsAccepted(front, cfg);
      assert Ingest(Live(front, cfg), e, cfg).1 == Accepted(h, n, cfg.window, cfg.fp);
    }
  }

  /** Dropping a prefix of a stream that was accepted throughout rejects nothing. */
  lemma {:induction false} SuffixIsAccepted<G>(h: seq<Event>, first: nat, cfg: Config<G>)
    requires AllAccepted(h, cfg) && first <= |h|
    ensures AllAccepted(h[first..], cfg)
  {
    var t := h[first..];
    forall j | 0 <= j < |t| ensures Accepted(t, j, cfg.window, cfg.fp) {
      AcceptedIff(t, j, cfg.window, cfg.fp);
      AcceptedIff(h, first + j, cfg.window, cfg.fp);
      forall i | 0 <= i < j ensures !Bars(t, i, j, cfg.window, cfg.fp) {
        assert !Bars(h, first + i, first + j, cfg.window, cfg.fp);
        if Outlasted(h, first + i, first + j + 1, cfg.window) {
          var k :| first + i < k < first + j + 1 && h[k].ts > h[first + i].ts + cfg.window;
          assert t[k - first].ts > t[i].ts + cfg.window;
        }
      }
    }
  }

  /** The last part of the log of a safe stream is accepted throughout. */
  lemma SuffixIsTaken<G>(h: seq<Event>, gone: seq<Event>, kept: seq<Event>, cfg: Config<G>)
    requires ReplaySafe(h, cfg.window, cfg.fp) && Taken(h, cfg) == gone + kept
    ensures Taken(kept, cfg) == kept
  {
    var log := gone + kept;
    assert log[|gone|..] == kept;
    TakenSuffices(h, cfg);
    TakenIsAccepted(log, cfg);
    SuffixIsAccepted(log, |gone|, cfg);
    TakenIsAccepted(kept, cfg);
  }

  /** Replaying files that hold the last part of the log of a safe stream. */
  lemma SuffixRecovers<G>(h: seq<Event>, gone: seq<Event>, kept: seq<Event>,
                          older: seq<Event>, recent: seq<Event>, d: Disk, cfg: Config<G>)
    requires ReplaySafe(h, cfg.window, cfg.fp) && Faithful(cfg.codec)
    requires Taken(h, cfg) == gone + kept && kept == older + recent
    requires Contents(d.rotated) == Encode(older, cfg.codec) && Contents(d.active) == Encode(recent, cfg.codec)
    ensures Taken(kept, cfg) == kept && Replay(d, cfg) == Progress(Live(kept, cfg), Stats(|kept|, 0, 0))
  {
    SuffixIsTaken(h, gone, kept, cfg);
    ReplayBoth(d, older, recent, cfg);
    TakeIsLive(kept, cfg);
  }

  /** Recovery: whatever suffix of the log the files still hold, replay rejects none of
      it, finds nothing corrupt and rebuilds exactly the memory of a hub that received
      that suffix. With the whole log on disk that is the memory the hub had. */
  lemma ReplayRecovers<G>(h: seq<Event>, d: Disk, first: nat, cut: nat, cfg: Config<G>)
    requires ReplaySafe(h, cfg.window, cfg.fp) && Faithful(cfg.codec)
    requires Retains(d, Taken(h, cfg), first, cut, cfg.codec)
    ensures var kept := Taken(h, cfg)[first..];
            Replay(d, cfg) == Progress(Live(kept, cfg), Stats(|kept|, 0, 0))
    ensures first == 0 ==> Replay(d, cfg).memory == Live(h, cfg)
  {
    var log := Taken(h, cfg);
    assert log[0..] == log;
    assert log == log[..first] + log[first..] && log[first..] == log[first..cut] + log[cut..];
    SuffixRecovers(h, log[..first], log[first..], log[first..cut], log[cut..], d, cfg);
    TakenSuffices(h, cfg);
  }

  // ---- exactly when replay is exact ----

  /** The files of a hub that has written the whole log of a stream. */
  function WholeLog<G>(h: seq<Event>, cfg: Config<G>): Disk {
    Disk(Some(Encode(Taken(h, cfg), cfg.codec)), None)
  }

  /** Restarting after the stream rebuilds the memory and rejects no line of the log. */
  ghost predicate Recovers<G(!new)>(h: seq<Event>, cfg: Config<G>) {
    Replay(WholeLog(h, cfg), cfg) == Progress(Live(h, cfg), Stats(|Taken(h, cfg)|, 0, 0))
  }

  lemma ReplayWhole<G(!new)>(h: seq<Event>, cfg: Config<G>)
    requires Faithful(cfg.codec)
    ensures Recovers(h, cfg) <==>
            Live(Taken(h, cfg), cfg) == Live(h, cfg) && Taken(Taken(h, cfg), cfg) == Taken(h, cfg)
  {
    var log := Taken(h, cfg);
    assert log[0..0] == [] && log[0..] == log;
    ReplayRetained(WholeLog(h, cfg), log, 0, 0, cfg);
    TakeIsLive(log, cfg);
    TakenIsAccepted(log, cfg);
  }

  /** A restart after any prefix of a stream is exact if and only if no rejected event
      is more than a window later than an event that is still remembered. */
  lemma ReplayIsExactIff<G(!new)>(h: seq<Event>, cfg: Config<G>)
    requires Faithful(cfg.codec)
    ensures (forall m | 0 <= m <= |h| :: Recovers(h[..m], cfg)) <==> ReplaySafe(h, cfg.window, cfg.fp)
  {
    if ReplaySafe(h, cfg.window, cfg.fp) {
      forall m | 0 <= m <= |h| ensures Recovers(h[..m], cfg) {
        SafePrefix(h, m, cfg.window, cfg.fp);
        TakenSuffices(h[..m], cfg);
        ReplayWhole(h[..m], cfg);
      }
    }
    if forall m | 0 <= m <= |h| :: Recovers(h[..m], cfg) {
      forall n | 0 <= n < |h| && !Accepted(h, n, cfg.window, cfg.fp)
        ensures PrunesNothing(h, n, cfg.window, cfg.fp)
      {
        ExactPrunes(h, n, cfg);
      }
    }
  }

  /** So it is for every stream in time order with one timestamp per key. */
  lemma OrderedRecovers<G(!new)>(h: seq<Event>, m: nat, cfg: Config<G>)
    requires Faithful(cfg.codec) && Ordered(h) && OneTsPerKey(h, cfg.fp) && m <= |h|
    ensures Recovers(h[..m], cfg)
  {
    TimelyIsSafe(h, cfg.window, cfg.fp);
    ReplayIsExactIff(h, cfg);
  }

  lemma ExactPrunes<G(!new)>(h: seq<Event>, n: nat, cfg: Config<G>)
    requires Faithful(cfg.codec) && n < |h| && !Accepted(h, n, cfg.window, cfg.fp)
    requires Recovers(h[..n], cfg) && Recovers(h[..n + 1], cfg)
    ensures PrunesNothing(h, n, cfg.window, cfg.fp)
  {
    var upTo := h[..n + 1];
    assert upTo[..n] == h[..n];
    ReplayWhole(h[..n], cfg);
    ReplayWhole(upTo, cfg);
    ExactPrunesNothing(upTo, cfg);
  }
}
