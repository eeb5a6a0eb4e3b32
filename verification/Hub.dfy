/** The hub's event step and its start-up replay (hub/src/main.rs, hub/src/wal.rs):
    de-duplicate, fold into the graph, keep a bounded buffer. The graph is any
    state with a step function. */
module Hub {
  import opened Events
  import opened Text
  import opened Dedup
  import opened Wal

  datatype Memory<G> = Memory(graph: G, buffer: seq<Event>, dedup: Store)

  datatype Config<!G> = Config(
    empty: G,
    apply: (G, Event) -> G,
    fp: Fingerprint,
    window: nat,
    bufferSize: nat,
    codec: Codec)

  function Push(buffer: seq<Event>, e: Event, size: nat): seq<Event> {
    (if |buffer| >= size && buffer != [] then buffer[1..] else buffer) + [e]
  }

  /** One event as the hub takes it in, and whether it was accepted. */
  function Ingest<G>(m: Memory<G>, e: Event, cfg: Config<G>): (Memory<G>, bool) {
    var (store, ok) := Offer(m.dedup, e, cfg.window, cfg.fp);
    if ok then (Memory(cfg.apply(m.graph, e), Push(m.buffer, e, cfg.bufferSize), store), true)
    else (m.(dedup := store), false)
  }

  function Initial<G>(cfg: Config<G>): Memory<G> {
    Memory(cfg.empty, [], map[])
  }

  /** The memory after a stream of events, without interruption. */
  function Live<G>(h: seq<Event>, cfg: Config<G>): Memory<G> {
    if h == [] then Initial(cfg) else Ingest(Live(h[..|h| - 1], cfg), h[|h| - 1], cfg).0
  }

  /** The events of a stream that were accepted, in order. */
  function Taken<G>(h: seq<Event>, cfg: Config<G>): seq<Event> {
    if h == [] then []
    else
      var front, e := h[..|h| - 1], h[|h| - 1];
      Taken(front, cfg) + (if Ingest(Live(front, cfg), e, cfg).1 then [e] else [])
  }

  // ---- replay ----

  datatype Stats = Stats(replayed: nat, corrupted: nat, dropped: nat)

  const NoStats := Stats(0, 0, 0)

  function Merge(a: Stats, b: Stats): Stats {
    Stats(a.replayed + b.replayed, a.corrupted + b.corrupted, a.dropped + b.dropped)
  }

  /** A replay under way: the memory rebuilt so far and the counters. */
  datatype Progress<G> = Progress(memory: Memory<G>, stats: Stats)

  function Take<G>(p: Progress<G>, e: Event, cfg: Config<G>): Progress<G> {
    var (m, ok) := Ingest(p.memory, e, cfg);
    Progress(m, if ok then p.stats.(replayed := p.stats.replayed + 1) else p.stats.(dropped := p.stats.dropped + 1))
  }

  function ReplayLine<G>(p: Progress<G>, line: string, cfg: Config<G>): Progress<G> {
    var trimmed := Trim(line);
    if trimmed == "" then p
    else match cfg.codec.decode(trimmed)
      case None => p.(stats := p.stats.(corrupted := p.stats.corrupted + 1))
      case Some(e) => Take(p, e, cfg)
  }

  function ReplayLines<G>(p: Progress<G>, lines: seq<string>, cfg: Config<G>): Progress<G> {
    if lines == [] then p
    else ReplayLine(ReplayLines(p, lines[..|lines| - 1], cfg), lines[|lines| - 1], cfg)
  }

  function ReplayFile<G>(p: Progress<G>, file: Option<string>, cfg: Config<G>): Progress<G> {
    if file.None? then p else ReplayLines(p, Split(file.value, '\n'), cfg)
  }

  /** Start-up: the rotated file first, then the active one. */
  function Replay<G>(d: Disk, cfg: Config<G>): Progress<G> {
    ReplayFile(ReplayFile(Progress(Initial(cfg), NoStats), d.rotated, cfg), d.active, cfg)
  }

  /** Counting a file on its own and merging is counting on. */
  lemma {:induction false} MergeCounts<G>(p: Progress<G>, lines: seq<string>, cfg: Config<G>)
    ensures var q := ReplayLines(Progress(p.memory, NoStats), lines, cfg);
            ReplayLines(p, lines, cfg) == Progress(q.memory, Merge(p.stats, q.stats))
  {
    if lines != [] {
      MergeCounts(p, lines[..|lines| - 1], cfg);
    }
  }

  class HubCore<G(!new)> {
    const cfg: Config<G>
    var graph: G
    var buffer: seq<Event>
    var dedup: DedupStore

    constructor (cfg: Config<G>)
      ensures Valid() && fresh(dedup) && this.cfg == cfg && View() == Initial(cfg)
    {
      this.cfg, graph, buffer := cfg, cfg.empty, [];
      dedup := new DedupStore(cfg.window, cfg.fp);
    }

    ghost predicate Valid()
      reads this
    {
      dedup.window == cfg.window && dedup.fp == cfg.fp
    }

    function View(): Memory<G>
      reads this, dedup
    {
      Memory(graph, buffer, dedup.store)
    }

    /** The accepted part of the step is what goes to the log. */
    method HandleEvent(event: Event) returns (accepted: bool)
      requires Valid()
      modifies this`graph, this`buffer, dedup
      ensures Valid() && (View(), accepted) == Ingest(old(View()), event, cfg)
    {
      accepted := dedup.Accept(event);
      if !accepted {
        return;
      }
      graph := cfg.apply(graph, event);
      if |buffer| >= cfg.bufferSize && buffer != [] {
        buffer := buffer[1..];
      }
      buffer := buffer + [event];
    }

    method ReplayWalFile(text: string) returns (stats: Stats)
      requires Valid()
      modifies this`graph, this`buffer, dedup
      ensures Valid()
      ensures Progress(View(), stats) == ReplayLines(Progress(old(View()), NoStats), Split(text, '\n'), cfg)
    {
      stats := NoStats;
      var lines := Split(text, '\n');
      for i := 0 to |lines|
        invariant Valid()
        invariant Progress(View(), stats) == ReplayLines(Progress(old(View()), NoStats), lines[..i], cfg)
      {
        assert lines[..i + 1][..i] == lines[..i];
        stats := ReplayWalLine(lines[i], stats);
      }
      assert lines[..|lines|] == lines;
    }

    /** One line: blank, corrupt, a duplicate, or replayed. */
    method ReplayWalLine(line: string, stats: Stats) returns (stats': Stats)
      requires Valid()
      modifies this`graph, this`buffer, dedup
      ensures Valid() && Progress(View(), stats') == ReplayLine(Progress(old(View()), stats), line, cfg)
    {
      stats' := stats;
      var trimmed := Trim(line);
      if trimmed == "" {
        return;
      }
      var event := cfg.codec.decode(trimmed);
      if event.None? {
        stats' := stats.(corrupted := stats.corrupted + 1);
        return;
      }
      var accepted := HandleEvent(event.value);
      if accepted {
        stats' := stats.(replayed := stats.replayed + 1);
      } else {
        stats' := stats.(dropped := stats.dropped + 1);
      }
    }

    method ReplayWal(disk: Disk) returns (stats: Stats)
      requires Valid() && View() == Initial(cfg)
      modifies this`graph, this`buffer, dedup
      ensures Valid() && Progress(View(), stats) == Replay(disk, cfg)
    {
      stats := NoStats;
      if disk.rotated.None? && disk.active.None? {
        return;
      }
      stats := ReplayIfPresent(disk.rotated, stats);
      stats := ReplayIfPresent(disk.active, stats);
    }

    /** Replays one file, if it exists, and merges its counters. */
    method ReplayIfPresent(file: Option<string>, stats: Stats) returns (stats': Stats)
      requires Valid()
      modifies this`graph, this`buffer, dedup
      ensures Valid() && Progress(View(), stats') == ReplayFile(Progress(old(View()), stats), file, cfg)
    {
      stats' := stats;
      if file.Some? {
        MergeCounts(Progress(View(), stats), Split(file.value, '\n'), cfg);
        var more := ReplayWalFile(file.value);
        stats' := Merge(stats, more);
      }
    }
  }
}
