/** Runs of the hub with crashes (hub/src/wal.rs, hub/src/main.rs): at any point of any
    append the hub may stop, and it starts again from its files. */
module Crashes {
  import opened Events
  import opened Dedup
  import opened Wal
  import opened Hub
  import opened Recovery

  /** The hub with its files. `log` is every event whose line was written; the files
      hold the lines from `first` on, the active one those from `cut` on. */
  datatype HubSystem<G> = HubSystem(memory: Memory<G>, disk: Disk, log: seq<Event>, first: nat, cut: nat)

  datatype Step =
    | Receive(event: Event)
    | CrashDuring(event: Event, at: CrashPoint)
    | CrashIdle

  function Booted<G>(disk: Disk, log: seq<Event>, first: nat, cut: nat, cfg: Config<G>): HubSystem<G> {
    HubSystem(Replay(disk, cfg).memory, Opened(disk), log, first, cut)
  }

  /** The log and the files after the append of an event, run up to a crash point. */
  function AppendUpTo<G>(s: HubSystem<G>, e: Event, at: CrashPoint, cfg: Config<G>, limit: nat): HubSystem<G> {
    var line := Line(e, cfg.codec);
    var r := RangeAt(s.log, s.first, s.cut, NeedsRotation(s.disk, line, limit), at);
    s.(disk := CrashedDisk(s.disk, line, limit, at),
       log := if at.AfterWrite? then s.log + [e] else s.log,
       first := r.0,
       cut := r.1)
  }

  /** The state a crash leaves behind: the part of the append that was done, if the
      event was accepted at all. */
  function CrashedIn<G>(s: HubSystem<G>, e: Event, at: CrashPoint, cfg: Config<G>, limit: nat): HubSystem<G> {
    if Ingest(s.memory, e, cfg).1 then AppendUpTo(s, e, at, cfg, limit) else s
  }

  function Advance<G>(s: HubSystem<G>, step: Step, cfg: Config<G>, limit: nat): HubSystem<G> {
    match step
    case Receive(e) =>
      var (m, ok) := Ingest(s.memory, e, cfg);
      (if ok then AppendUpTo(s, e, AfterWrite, cfg, limit) else s).(memory := m)
    case CrashDuring(e, at) =>
      var t := CrashedIn(s, e, at, cfg, limit);
      Booted(t.disk, t.log, t.first, t.cut, cfg)
    case CrashIdle =>
      Booted(s.disk, s.log, s.first, s.cut, cfg)
  }

  function Run<G>(steps: seq<Step>, cfg: Config<G>, limit: nat): HubSystem<G> {
    if steps == [] then Booted(NoFiles, [], 0, 0, cfg)
    else Advance(Run(steps[..|steps| - 1], cfg, limit), steps[|steps| - 1], cfg, limit)
  }

  /** The events offered to the hub, in order. */
  function Offered(steps: seq<Step>): seq<Event> {
    if steps == [] then []
    else
      var step := steps[|steps| - 1];
      Offered(steps[..|steps| - 1]) + (if step.CrashIdle? then [] else [step.event])
  }

  /** The offered events without those whose line a crash prevented. */
  function Survivors(steps: seq<Step>): seq<Event> {
    if steps == [] then []
    else
      var step := steps[|steps| - 1];
      Survivors(steps[..|steps| - 1]) + Survivor(step)
  }

  /** What holds of the files and the log at all times. */
  predicate FilesAgree<G>(s: HubSystem<G>, cfg: Config<G>, limit: nat) {
    && s.disk.active.Some?
    && Retains(s.disk, s.log, s.first, s.cut, cfg.codec)
    && (limit > 0 ==> |s.disk.active.value| <= limit || s.cut + 1 == |s.log|)
  }

  lemma AppendKeepsFiles<G>(s: HubSystem<G>, e: Event, at: CrashPoint, cfg: Config<G>, limit: nat)
    requires FilesAgree(s, cfg, limit)
    ensures var t := AppendUpTo(s, e, at, cfg, limit);
            && Retains(t.disk, t.log, t.first, t.cut, cfg.codec)
            && (limit > 0 ==> |Contents(t.disk.active)| <= limit || t.cut + 1 == |t.log|)
            && s.first <= t.first
            && (at.AfterWrite? ==> t.disk.active.Some?)
  {
    CrashRetains(s.disk, s.log, s.first, s.cut, e, limit, at, cfg.codec);
  }

  lemma BootKeepsFiles<G>(t: HubSystem<G>, cfg: Config<G>, limit: nat)
    requires Retains(t.disk, t.log, t.first, t.cut, cfg.codec)
    requires limit > 0 ==> |Contents(t.disk.active)| <= limit || t.cut + 1 == |t.log|
    ensures FilesAgree(Booted(t.disk, t.log, t.first, t.cut, cfg), cfg, limit)
  {}

  lemma ReceiveKeepsFiles<G>(s: HubSystem<G>, e: Event, cfg: Config<G>, limit: nat)
    requires FilesAgree(s, cfg, limit)
    ensures FilesAgree(Advance(s, Receive(e), cfg, limit), cfg, limit)
    ensures s.first <= Advance(s, Receive(e), cfg, limit).first
  {
    AppendKeepsFiles(s, e, AfterWrite, cfg, limit);
  }

  lemma CrashKeepsFiles<G>(s: HubSystem<G>, e: Event, at: CrashPoint, cfg: Config<G>, limit: nat)
    requires FilesAgree(s, cfg, limit)
    ensures FilesAgree(Advance(s, CrashDuring(e, at), cfg, limit), cfg, limit)
    ensures s.first <= Advance(s, CrashDuring(e, at), cfg, limit).first
  {
    AppendKeepsFiles(s, e, at, cfg, limit);
    BootKeepsFiles(CrashedIn(s, e, at, cfg, limit), cfg, limit);
  }

  lemma AdvanceKeepsFiles<G>(s: HubSystem<G>, step: Step, cfg: Config<G>, limit: nat)
    requires FilesAgree(s, cfg, limit)
    ensures FilesAgree(Advance(s, step, cfg, limit), cfg, limit)
    ensures s.first <= Advance(s, step, cfg, limit).first
  {
    match step
    case Receive(e) => ReceiveKeepsFiles(s, e, cfg, limit);
    case CrashDuring(e, at) => CrashKeepsFiles(s, e, at, cfg, limit);
    case CrashIdle => BootKeepsFiles(s, cfg, limit);
  }

  /** Retention: after every step of every run with crashes the two files hold a
      suffix of the log, and with a limit the active file fits it or holds exactly
      one line. */
  lemma {:induction false} LogIsRetained<G>(steps: seq<Step>, cfg: Config<G>, limit: nat)
    ensures FilesAgree(Run(steps, cfg, limit), cfg, limit)
  {
    if steps == [] {
      var none: seq<Event> := [];
      assert none[0..0] == none && none[0..] == none;
    } else {
      LogIsRetained(steps[..|steps| - 1], cfg, limit);
      AdvanceKeepsFiles(Run(steps[..|steps| - 1], cfg, limit), steps[|steps| - 1], cfg, limit);
    }
  }

  // ---- losing lines ----

  lemma RotatedIsEmptyIff<G>(s: HubSystem<G>, cfg: Config<G>, limit: nat)
    requires FilesAgree(s, cfg, limit)
    ensures Contents(s.disk.rotated) == "" <==> s.first == s.cut
  {
    var lines := s.log[s.first..s.cut];
    if s.first < s.cut {
      assert Encode(lines, cfg.codec) != "";
    } else {
      assert lines == [];
    }
  }

  /** An append, complete or cut short at any point, loses logged lines exactly when it
      gets as far as removing a rotated file that is not empty. */
  lemma AppendLosesIff<G>(s: HubSystem<G>, e: Event, at: CrashPoint, cfg: Config<G>, limit: nat)
    requires FilesAgree(s, cfg, limit)
    ensures AppendUpTo(s, e, at, cfg, limit).first > s.first <==>
            && 0 < limit < |Contents(s.disk.active)| + |Line(e, cfg.codec)|
            && !at.BeforeAppend? && Contents(s.disk.rotated) != ""
  {
    RotatedIsEmptyIff(s, cfg, limit);
  }

  /** The rotated file goes even when the active one is empty. After the line of `a` a
      crash stops the append of `b` between rotation and write; then the line of `c`,
      too long for any file, rotates the empty active file over that of `a`. */
  lemma OverlongLineLosesLog<G>(a: Event, b: Event, c: Event, cfg: Config<G>, limit: nat)
    requires Faithful(cfg.codec) && cfg.fp(a) != cfg.fp(b) && cfg.fp(a) != cfg.fp(c)
    requires |Line(a, cfg.codec)| <= limit < |Line(a, cfg.codec)| + |Line(b, cfg.codec)|
    requires limit < |Line(c, cfg.codec)|
    ensures var steps := [Receive(a), CrashDuring(b, AfterReopen)];
            var s, s' := Run(steps, cfg, limit), Run(steps + [Receive(c)], cfg, limit);
            && s.log == [a] && s.first == 0
            && s.disk == Disk(Some(""), Some(Line(a, cfg.codec)))
            && s'.log == [a, c] && s'.first == 1
  {
    var steps := [Receive(a), CrashDuring(b, AfterReopen)];
    var s := Run(steps, cfg, limit);
    assert (steps + [Receive(c)])[..2] == steps;
    StoppedInRotation(a, b, cfg, limit);
    RotatesOver(s, a, c, cfg, limit);
  }

  lemma RotatesOver<G>(s: HubSystem<G>, a: Event, c: Event, cfg: Config<G>, limit: nat)
    requires s.disk == Disk(Some(""), Some(Line(a, cfg.codec))) && s.log == [a] && s.first == 0 && s.cut == 1
    requires cfg.fp(c) !in s.memory.dedup && 0 < limit < |Line(c, cfg.codec)|
    ensures var s' := Advance(s, Receive(c), cfg, limit); s'.log == [a, c] && s'.first == 1
  {
    assert [a] + [c] == [a, c];
  }

  lemma StoppedInRotation<G>(a: Event, b: Event, cfg: Config<G>, limit: nat)
    requires Faithful(cfg.codec) && cfg.fp(a) != cfg.fp(b)
    requires |Line(a, cfg.codec)| <= limit < |Line(a, cfg.codec)| + |Line(b, cfg.codec)|
    ensures Run([Receive(a), CrashDuring(b, AfterReopen)], cfg, limit)
         == HubSystem(Live([a], cfg), Disk(Some(""), Some(Line(a, cfg.codec))), [a], 0, 1)
    ensures Live([a], cfg).dedup == map[cfg.fp(a) := a.ts]
  {
    var steps := [Receive(a), CrashDuring(b, AfterReopen)];
    var d := Disk(Some(""), Some(Line(a, cfg.codec)));
    assert steps[..1] == [Receive(a)];
    OneLine(a, cfg, limit);
    assert Run(steps, cfg, limit) == Booted(d, [a], 0, 1, cfg);
    WholeLogIn(d, a, cfg);
  }

  lemma WholeLogIn<G>(d: Disk, a: Event, cfg: Config<G>)
    requires Faithful(cfg.codec) && d == Disk(Some(""), Some(Line(a, cfg.codec)))
    ensures Replay(d, cfg).memory == Live([a], cfg)
  {
    assert [a][0..1] == [a] && [a][1..] == [] && [a][0..] == [a] && [a][..0] == [];
    assert Encode([a], cfg.codec) == "" + Line(a, cfg.codec) == Line(a, cfg.codec);
    ReplayRetained(d, [a], 0, 1, cfg);
    TakeIsLive([a], cfg);
  }

  lemma OneLine<G>(a: Event, cfg: Config<G>, limit: nat)
    requires |Line(a, cfg.codec)| <= limit
    ensures var s := Run([Receive(a)], cfg, limit);
            && s == HubSystem(Live([a], cfg), Disk(Some(Line(a, cfg.codec)), None), [a], 0, 0)
            && s.memory.dedup == map[cfg.fp(a) := a.ts]
  {
    assert [Receive(a)][..0] == [] && [a][..0] == [];
    assert "" + Line(a, cfg.codec) == Line(a, cfg.codec) && [] + [a] == [a];
  }

  /** Without a size limit nothing is ever lost. */
  lemma {:induction false} UnlimitedLosesNothing<G>(steps: seq<Step>, cfg: Config<G>)
    ensures Run(steps, cfg, 0).first == 0
  {
    if steps != [] {
      UnlimitedLosesNothing(steps[..|steps| - 1], cfg);
    }
  }

  /** A crash in the middle of a rotation: the active file was moved, the line not yet
      written. */
  predicate BreaksRotation(step: Step) {
    step.CrashDuring? && (step.at.AfterRename? || step.at.AfterReopen?)
  }

  /** Only a crash in the middle of a rotation leaves an empty active file behind a log. */
  lemma {:induction false} EmptyActiveNeedsCrash<G>(steps: seq<Step>, cfg: Config<G>, limit: nat)
    requires forall i | 0 <= i < |steps| :: !BreaksRotation(steps[i])
    ensures var s := Run(steps, cfg, limit); s.log != [] ==> Contents(s.disk.active) != ""
  {
    if steps != [] {
      EmptyActiveNeedsCrash(steps[..|steps| - 1], cfg, limit);
    }
  }

  // ---- how much is kept ----

  /** The number of bytes of the lines of some events. */
  function Bytes(events: seq<Event>, c: Codec): nat {
    if events == [] then 0 else Bytes(events[..|events| - 1], c) + |Line(events[|events| - 1], c)|
  }

  lemma {:induction false} BytesAre(events: seq<Event>, c: Codec)
    ensures |Encode(events, c)| == Bytes(events, c)
  {
    if events != [] {
      BytesAre(events[..|events| - 1], c);
    }
  }

  lemma BytesAppend(events: seq<Event>, e: Event, c: Codec)
    ensures Bytes(events + [e], c) == Bytes(events, c) + |Line(e, c)|
  {
    assert (events + [e])[..|events|] == events;
  }

  /** Nothing has been rotated, and the log is no longer than what was offered. */
  predicate Whole<G>(s: HubSystem<G>, offered: seq<Event>, cfg: Config<G>) {
    s.first == 0 && s.cut == 0 && Bytes(s.log, cfg.codec) <= Bytes(offered, cfg.codec)
  }

  lemma StaysWhole<G>(s: HubSystem<G>, step: Step, offered: seq<Event>, cfg: Config<G>, limit: nat)
    requires FilesAgree(s, cfg, limit) && Whole(s, offered, cfg) && !step.CrashIdle?
    requires limit > 0 ==> Bytes(offered + [step.event], cfg.codec) <= limit
    ensures Whole(Advance(s, step, cfg, limit), offered + [step.event], cfg)
  {
    assert s.log[0..] == s.log;
    BytesAre(s.log, cfg.codec);
    BytesAppend(s.log, step.event, cfg.codec);
    BytesAppend(offered, step.event, cfg.codec);
  }

  /** A run whose offered events all fit the limit together loses nothing and rotates
      nothing, whatever crashes do: the active file is the whole log. */
  lemma {:induction false} FittingLogIsWhole<G>(steps: seq<Step>, cfg: Config<G>, limit: nat)
    requires limit > 0 ==> Bytes(Offered(steps), cfg.codec) <= limit
    ensures Whole(Run(steps, cfg, limit), Offered(steps), cfg)
    ensures Contents(Run(steps, cfg, limit).disk.active) == Encode(Run(steps, cfg, limit).log, cfg.codec)
  {
    var s := Run(steps, cfg, limit);
    LogIsRetained(steps, cfg, limit);
    if steps != [] {
      var front, step := steps[..|steps| - 1], steps[|steps| - 1];
      if step.CrashIdle? {
        assert Offered(steps) == Offered(front) + [] == Offered(front);
        FittingLogIsWhole(front, cfg, limit);
      } else {
        BytesAppend(Offered(front), step.event, cfg.codec);
        FittingLogIsWhole(front, cfg, limit);
        LogIsRetained(front, cfg, limit);
        StaysWhole(Run(front, cfg, limit), step, Offered(front), cfg, limit);
      }
    }
    assert s.log[0..] == s.log;
  }

  /** The crash comes after the rotated file is gone and before the line is written. */
  predicate CutsRotation(step: Step) {
    step.CrashDuring? && !step.at.BeforeAppend? && !step.at.AfterWrite?
  }

  /** What was rotated away did not fit together with the line that came next. */
  predicate Displaced<G>(s: HubSystem<G>, cfg: Config<G>, limit: nat) {
    s.cut == 0 || (s.cut < |s.log| && |Contents(s.disk.rotated)| + |Line(s.log[s.cut], cfg.codec)| > limit)
  }

  lemma AppendDisplaces<G>(s: HubSystem<G>, e: Event, cfg: Config<G>, limit: nat)
    requires FilesAgree(s, cfg, limit) && Displaced(s, cfg, limit)
    ensures Displaced(AppendUpTo(s, e, AfterWrite, cfg, limit), cfg, limit)
  {
    var t := AppendUpTo(s, e, AfterWrite, cfg, limit);
    if s.cut < |s.log| {
      assert t.log[s.cut] == s.log[s.cut];
    }
    if NeedsRotation(s.disk, Line(e, cfg.codec), limit) {
      assert t.log[t.cut] == e;
    }
  }

  lemma {:induction false} RotatedIsDisplaced<G>(steps: seq<Step>, cfg: Config<G>, limit: nat)
    requires forall i | 0 <= i < |steps| :: !CutsRotation(steps[i])
    ensures Displaced(Run(steps, cfg, limit), cfg, limit)
  {
    if steps != [] {
      var front, step := steps[..|steps| - 1], steps[|steps| - 1];
      RotatedIsDisplaced(front, cfg, limit);
      LogIsRetained(front, cfg, limit);
      if !step.CrashIdle? {
        AppendDisplaces(Run(front, cfg, limit), step.event, cfg, limit);
      }
    }
  }

  lemma {:induction false} FirstIsFirst(events: seq<Event>, c: Codec)
    requires events != []
    ensures |Encode(events, c)| >= |Line(events[0], c)|
  {
    if |events| > 1 {
      FirstIsFirst(events[..|events| - 1], c);
    } else {
      assert events[..0] == [];
    }
  }

  /** Unless a crash cuts a rotation short, lines are lost only when the files hold more
      than the limit without them. */
  lemma LossKeepsTheLimit<G>(steps: seq<Step>, cfg: Config<G>, limit: nat)
    requires forall i | 0 <= i < |steps| :: !CutsRotation(steps[i])
    ensures var s := Run(steps, cfg, limit);
            s.first == 0 || |Contents(s.disk.rotated)| + |Contents(s.disk.active)| > limit
  {
    var s := Run(steps, cfg, limit);
    RotatedIsDisplaced(steps, cfg, limit);
    LogIsRetained(steps, cfg, limit);
    if s.first > 0 {
      FirstIsFirst(s.log[s.cut..], cfg.codec);
    }
  }

  // ---- crashes that lose nothing ----

  /** The events one step adds to the survivors. */
  function Survivor(step: Step): seq<Event> {
    if step.Receive? || (step.CrashDuring? && step.at.AfterWrite?) then [step.event] else []
  }

  /** The step is a crash that prevented the line of an event. */
  predicate Prevents(step: Step, e: Event) {
    step.CrashDuring? && step.event == e && !step.at.AfterWrite?
  }

  /** What was offered has survived, unless a crash prevented its line. */
  lemma {:induction false} SurvivesOrPrevented(steps: seq<Step>, e: Event)
    requires e in Offered(steps)
    ensures e in Survivors(steps) || exists k | 0 <= k < |steps| :: Prevents(steps[k], e)
  {
    var front, step := steps[..|steps| - 1], steps[|steps| - 1];
    if e in Offered(front) {
      SurvivesOrPrevented(front, e);
      if k :| 0 <= k < |front| && Prevents(front[k], e) {
        assert Prevents(steps[k], e);
      }
    } else {
      assert step.event == e;
    }
  }

  /** Appending one of the offered events to a timely part of those before it. */
  lemma TimelyNext(h: seq<Event>, o: seq<Event>, e: Event, window: nat)
    requires NoneTooLate(o + [e], window) && NoneTooLate(h, window) && forall x | x in h :: x in o
    ensures NoneTooLate(h + [e], window)
  {
    var all := o + [e];
    forall i | 0 <= i < |h| ensures h[i].ts <= e.ts + window {
      assert h[i] in o;
      var k :| 0 <= k < |o| && o[k] == h[i];
      assert all[k].ts <= all[|o|].ts + window;
    }
  }

  lemma TimelyPrefix(a: seq<Event>, b: seq<Event>, window: nat)
    requires NoneTooLate(a + b, window)
    ensures NoneTooLate(a, window)
  {
    forall i, j | 0 <= i < j < |a| ensures a[i].ts <= a[j].ts + window {
      assert (a + b)[i].ts <= (a + b)[j].ts + window;
    }
  }

  /** The conditions on what is offered, for a part of it. */
  lemma OfferedPrefix(steps: seq<Step>, window: nat, fp: Fingerprint)
    requires steps != [] && NoneTooLate(Offered(steps), window) && OneTsPerKey(Offered(steps), fp)
    ensures var front := Offered(steps[..|steps| - 1]); NoneTooLate(front, window) && OneTsPerKey(front, fp)
  {
    var step := steps[|steps| - 1];
    TimelyPrefix(Offered(steps[..|steps| - 1]), if step.CrashIdle? then [] else [step.event], window);
  }

  lemma {:induction false} SurvivorsAreOffered(steps: seq<Step>)
    ensures forall e | e in Survivors(steps) :: e in Offered(steps)
  {
    if steps != [] {
      SurvivorsAreOffered(steps[..|steps| - 1]);
    }
  }

  lemma {:induction false} SurvivorsAreTimely(steps: seq<Step>, window: nat)
    requires NoneTooLate(Offered(steps), window)
    ensures NoneTooLate(Survivors(steps), window)
  {
    if steps != [] {
      var front, step := steps[..|steps| - 1], steps[|steps| - 1];
      TimelyPrefix(Offered(front), if step.CrashIdle? then [] else [step.event], window);
      SurvivorsAreTimely(front, window);
      if Survivor(step) == [] {
        assert Survivors(steps) == Survivors(front);
      } else {
        SurvivorsAreOffered(front);
        TimelyNext(Survivors(front), Offered(front), step.event, window);
      }
    }
  }

  /** The memory is that of a hub without crashes that received `h`, whose log starts
      at `base` of the whole log. */
  predicate Mirrors<G(==)>(s: HubSystem<G>, h: seq<Event>, base: nat, cfg: Config<G>) {
    s.memory == Live(h, cfg) && base <= s.first <= |s.log| && s.log[base..] == Taken(h, cfg)
  }

  /** The log of the part of an append that was done, from `base` on. */
  lemma CrashedLogFrom<G>(s: HubSystem<G>, h: seq<Event>, base: nat, e: Event, at: CrashPoint,
                          cfg: Config<G>, limit: nat)
    requires Mirrors(s, h, base, cfg)
    ensures var t := CrashedIn(s, e, at, cfg, limit);
            base <= |t.log| && t.log[base..] == Taken(h + Survivor(CrashDuring(e, at)), cfg)
  {
    assert h + [] == h && Taken(h, cfg) + [] == Taken(h, cfg);
    assert (s.log + [e])[base..] == s.log[base..] + [e];
    LiveNext(h, e, cfg);
  }

  lemma CrashedMirrors<G>(s: HubSystem<G>, h: seq<Event>, base: nat, e: Event, at: CrashPoint,
                          cfg: Config<G>, limit: nat)
    requires FilesAgree(s, cfg, limit) && Mirrors(s, h, base, cfg)
    ensures var t := CrashedIn(s, e, at, cfg, limit);
            && Retains(t.disk, t.log, t.first, t.cut, cfg.codec) && base <= t.first
            && t.log[base..] == Taken(h + Survivor(CrashDuring(e, at)), cfg)
  {
    CrashedLogFrom(s, h, base, e, at, cfg, limit);
    AppendKeepsFiles(s, e, at, cfg, limit);
  }

  lemma ReceiveIsInvisible<G>(s: HubSystem<G>, h: seq<Event>, e: Event, cfg: Config<G>, limit: nat)
    requires s.memory == Live(h, cfg) && s.log == Taken(h, cfg)
    ensures var s' := Advance(s, Receive(e), cfg, limit);
            s'.memory == Live(h + [e], cfg) && s'.log == Taken(h + [e], cfg)
  {
    assert Taken(h, cfg) + [] == Taken(h, cfg);
    LiveNext(h, e, cfg);
  }

  /** Booting from files that hold the whole log of a stream. */
  lemma BootIsInvisible<G>(t: HubSystem<G>, h: seq<Event>, cfg: Config<G>)
    requires Faithful(cfg.codec) && Retains(t.disk, t.log, t.first, t.cut, cfg.codec) && t.first == 0
    requires ReplaySafe(h, cfg.window, cfg.fp) && t.log == Taken(h, cfg)
    ensures Booted(t.disk, t.log, t.first, t.cut, cfg).memory == Live(h, cfg)
  {
    ReplayRecovers(h, t.disk, t.first, t.cut, cfg);
  }

  lemma StepIsInvisible<G>(s: HubSystem<G>, h: seq<Event>, step: Step, cfg: Config<G>, limit: nat)
    requires Faithful(cfg.codec) && FilesAgree(s, cfg, limit)
    requires s.memory == Live(h, cfg) && s.log == Taken(h, cfg)
    requires ReplaySafe(h + Survivor(step), cfg.window, cfg.fp)
    requires Advance(s, step, cfg, limit).first == 0
    ensures var s', h' := Advance(s, step, cfg, limit), h + Survivor(step);
            s'.memory == Live(h', cfg) && s'.log == Taken(h', cfg)
  {
    match step
    case Receive(e) => ReceiveIsInvisible(s, h, e, cfg, limit);
    case CrashDuring(e, at) =>
      var t := CrashedIn(s, e, at, cfg, limit);
      assert s.log[0..] == s.log && t.log[0..] == t.log;
      CrashedMirrors(s, h, 0, e, at, cfg, limit);
      BootIsInvisible(t, h + Survivor(step), cfg);
    case CrashIdle =>
      assert h + [] == h;
      BootIsInvisible(s, h, cfg);
  }

  /** A hub that crashed any number of times, at any point of its appends, and
      replayed its log each time, has the memory of a hub that never crashed and
      received the same events except those whose line a crash prevented - as
      long as no rotation threw away logged lines. */
  lemma {:induction false} CrashesAreInvisible<G>(steps: seq<Step>, cfg: Config<G>, limit: nat)
    requires Faithful(cfg.codec) && ReplaySafe(Survivors(steps), cfg.window, cfg.fp)
    requires Run(steps, cfg, limit).first == 0
    ensures Run(steps, cfg, limit).memory == Live(Survivors(steps), cfg)
    ensures Run(steps, cfg, limit).log == Taken(Survivors(steps), cfg)
  {
    if steps != [] {
      var front, step := steps[..|steps| - 1], steps[|steps| - 1];
      var h := Survivors(front);
      assert (h + Survivor(step))[..|h|] == h;
      LogIsRetained(front, cfg, limit);
      AdvanceKeepsFiles(Run(front, cfg, limit), step, cfg, limit);
      SafePrefix(Survivors(steps), |h|, cfg.window, cfg.fp);
      CrashesAreInvisible(front, cfg, limit);
      StepIsInvisible(Run(front, cfg, limit), h, step, cfg, limit);
    }
  }

  /** Whatever crashes do, a timely stream of offered events is safe to replay. */
  lemma OfferedIsSafe(steps: seq<Step>, window: nat, fp: Fingerprint)
    requires NoneTooLate(Offered(steps), window) && OneTsPerKey(Offered(steps), fp)
    ensures ReplaySafe(Survivors(steps), window, fp)
  {
    SurvivorsAreOffered(steps);
    SurvivorsAreTimely(steps, window);
    TimelyIsSafe(Survivors(steps), window, fp);
  }

  // ---- all crashes, lines lost or not ----

  /** What the hub's memory is made of: the part of the log that was on disk when it
      last started, then everything received since. */
  function Heard<G>(steps: seq<Step>, cfg: Config<G>, limit: nat): seq<Event> {
    if steps == [] then []
    else
      var s, step := Run(steps, cfg, limit), steps[|steps| - 1];
      LogIsRetained(steps, cfg, limit);
      if step.Receive? then Heard(steps[..|steps| - 1], cfg, limit) + [step.event] else s.log[s.first..]
  }

  /** Where in the log that part begins. */
  function Base<G>(steps: seq<Step>, cfg: Config<G>, limit: nat): nat {
    if steps == [] then 0
    else if steps[|steps| - 1].Receive? then Base(steps[..|steps| - 1], cfg, limit)
    else Run(steps, cfg, limit).first
  }

  lemma {:induction false} TakenIsTimely<G>(h: seq<Event>, cfg: Config<G>)
    requires NoneTooLate(h, cfg.window)
    ensures NoneTooLate(Taken(h, cfg), cfg.window)
    ensures forall e | e in Taken(h, cfg) :: e in h
  {
    if h != [] {
      var front, e := h[..|h| - 1], h[|h| - 1];
      assert h == front + [e];
      TimelyPrefix(front, [e], cfg.window);
      TakenIsTimely(front, cfg);
      TakenLast(h, cfg);
      TimelyNext(Taken(front, cfg), front, e, cfg.window);
    }
  }

  lemma TimelySuffix(h: seq<Event>, n: nat, window: nat)
    requires NoneTooLate(h, window) && n <= |h|
    ensures NoneTooLate(h[n..], window) && forall e | e in h[n..] :: e in h
  {
    forall i, j | 0 <= i < j < |h| - n ensures h[n..][i].ts <= h[n..][j].ts + window {
      assert h[n + i].ts <= h[n + j].ts + window;
    }
  }

  /** Booting a state whose retained log is that of a safe stream. */
  lemma BootMirrors<G>(t: HubSystem<G>, h: seq<Event>, base: nat, cfg: Config<G>)
    requires Faithful(cfg.codec) && Retains(t.disk, t.log, t.first, t.cut, cfg.codec)
    requires base <= t.first && t.log[base..] == Taken(h, cfg) && ReplaySafe(h, cfg.window, cfg.fp)
    ensures var kept := t.log[t.first..];
            && Taken(kept, cfg) == kept
            && Replay(t.disk, cfg) == Progress(Live(kept, cfg), Stats(|kept|, 0, 0))
  {
    var log, first, cut := t.log, t.first, t.cut;
    CutUp(log, base, first, cut);
    SuffixRecovers(h, log[base..first], log[first..], log[first..cut], log[cut..], t.disk, cfg);
  }

  lemma CutUp<T>(s: seq<T>, a: nat, b: nat, c: nat)
    requires a <= b <= c <= |s|
    ensures s[a..] == s[a..b] + s[b..] && s[b..] == s[b..c] + s[c..]
  {}

  lemma ReceiveMirrors<G>(s: HubSystem<G>, h: seq<Event>, base: nat, e: Event, cfg: Config<G>, limit: nat)
    requires FilesAgree(s, cfg, limit) && Mirrors(s, h, base, cfg)
    ensures Mirrors(Advance(s, Receive(e), cfg, limit), h + [e], base, cfg)
  {
    assert (s.log + [e])[base..] == s.log[base..] + [e];
    assert Taken(h, cfg) + [] == Taken(h, cfg);
    LiveNext(h, e, cfg);
    ReceiveKeepsFiles(s, e, cfg, limit);
  }

  /** What holds of the heard events at all times. */
  predicate HeardAgrees<G(==)>(steps: seq<Step>, cfg: Config<G>, limit: nat) {
    var h := Heard(steps, cfg, limit);
    && Mirrors(Run(steps, cfg, limit), h, Base(steps, cfg, limit), cfg)
    && NoneTooLate(h, cfg.window)
    && (forall e | e in h :: e in Offered(steps))
  }

  /** A crash while the memory mirrors a timely stream: the next boot. */
  lemma BootAgrees<G>(t: HubSystem<G>, h: seq<Event>, base: nat, cfg: Config<G>)
    requires Faithful(cfg.codec) && Retains(t.disk, t.log, t.first, t.cut, cfg.codec)
    requires base <= t.first && t.log[base..] == Taken(h, cfg)
    requires NoneTooLate(h, cfg.window) && OneTsPerKey(h, cfg.fp)
    ensures var kept := t.log[t.first..];
            && Mirrors(Booted(t.disk, t.log, t.first, t.cut, cfg), kept, t.first, cfg)
            && NoneTooLate(kept, cfg.window)
            && (forall e | e in kept :: e in h)
  {
    assert t.log[base..][t.first - base..] == t.log[t.first..];
    TimelyIsSafe(h, cfg.window, cfg.fp);
    BootMirrors(t, h, base, cfg);
    TakenIsTimely(h, cfg);
    TimelySuffix(Taken(h, cfg), t.first - base, cfg.window);
  }

  /** One more event offered. */
  lemma HeardNext(h: seq<Event>, o: seq<Event>, e: Event, window: nat, fp: Fingerprint)
    requires NoneTooLate(o + [e], window) && OneTsPerKey(o + [e], fp)
    requires NoneTooLate(h, window) && forall x | x in h :: x in o
    ensures NoneTooLate(h + [e], window) && OneTsPerKey(h + [e], fp) && forall x | x in h + [e] :: x in o + [e]
  {
    TimelyNext(h, o, e, window);
  }

  lemma CrashAgrees<G>(s: HubSystem<G>, h: seq<Event>, base: nat, o: seq<Event>, e: Event, at: CrashPoint,
                       cfg: Config<G>, limit: nat)
    requires Faithful(cfg.codec) && NoneTooLate(o + [e], cfg.window) && OneTsPerKey(o + [e], cfg.fp)
    requires FilesAgree(s, cfg, limit) && Mirrors(s, h, base, cfg)
    requires NoneTooLate(h, cfg.window) && forall x | x in h :: x in o
    ensures var s' := Advance(s, CrashDuring(e, at), cfg, limit);
            && s'.first <= |s'.log|
            && Mirrors(s', s'.log[s'.first..], s'.first, cfg)
            && NoneTooLate(s'.log[s'.first..], cfg.window)
            && (forall x | x in s'.log[s'.first..] :: x in o + [e])
  {
    var h' := h + Survivor(CrashDuring(e, at));
    assert h + [] == h;
    HeardNext(h, o, e, cfg.window, cfg.fp);
    CrashedMirrors(s, h, base, e, at, cfg, limit);
    BootAgrees(CrashedIn(s, e, at, cfg, limit), h', base, cfg);
  }

  lemma HeardReceive<G>(front: seq<Step>, e: Event, cfg: Config<G>, limit: nat)
    requires HeardAgrees(front, cfg, limit)
    requires var o := Offered(front) + [e]; NoneTooLate(o, cfg.window) && OneTsPerKey(o, cfg.fp)
    ensures HeardAgrees(front + [Receive(e)], cfg, limit)
  {
    var steps, h := front + [Receive(e)], Heard(front, cfg, limit);
    assert steps[..|front|] == front;
    LogIsRetained(front, cfg, limit);
    HeardNext(h, Offered(front), e, cfg.window, cfg.fp);
    ReceiveMirrors(Run(front, cfg, limit), h, Base(front, cfg, limit), e, cfg, limit);
    assert Heard(steps, cfg, limit) == h + [e];
  }

  /** What a run has heard after a crash, in terms of the state it boots. */
  lemma HeardBooted<G>(steps: seq<Step>, o: seq<Event>, cfg: Config<G>, limit: nat)
    requires steps != [] && !steps[|steps| - 1].Receive? && Offered(steps) == o
    requires var s := Run(steps, cfg, limit);
             && s.first <= |s.log| && Mirrors(s, s.log[s.first..], s.first, cfg)
             && NoneTooLate(s.log[s.first..], cfg.window) && forall x | x in s.log[s.first..] :: x in o
    ensures HeardAgrees(steps, cfg, limit)
  {}

  lemma HeardCrash<G>(front: seq<Step>, step: Step, cfg: Config<G>, limit: nat)
    requires Faithful(cfg.codec) && HeardAgrees(front, cfg, limit) && !step.Receive?
    requires var o := Offered(front + [step]); NoneTooLate(o, cfg.window) && OneTsPerKey(o, cfg.fp)
    ensures HeardAgrees(front + [step], cfg, limit)
  {
    var s, h, base := Run(front, cfg, limit), Heard(front, cfg, limit), Base(front, cfg, limit);
    assert (front + [step])[..|front|] == front;
    LogIsRetained(front, cfg, limit);
    if step.CrashIdle? {
      assert Offered(front) + [] == Offered(front);
      BootAgrees(s, h, base, cfg);
    } else {
      CrashAgrees(s, h, base, Offered(front), step.event, step.at, cfg, limit);
    }
    HeardBooted(front + [step], Offered(front + [step]), cfg, limit);
  }

  lemma {:induction false} HeardIs<G>(steps: seq<Step>, cfg: Config<G>, limit: nat)
    requires Faithful(cfg.codec) && NoneTooLate(Offered(steps), cfg.window) && OneTsPerKey(Offered(steps), cfg.fp)
    ensures HeardAgrees(steps, cfg, limit)
  {
    if steps == [] {
      LogIsRetained(steps, cfg, limit);
    } else {
      var front, step := steps[..|steps| - 1], steps[|steps| - 1];
      assert front + [step] == steps;
      OfferedPrefix(steps, cfg.window, cfg.fp);
      HeardIs(front, cfg, limit);
      if step.Receive? {
        HeardReceive(front, step.event, cfg, limit);
      } else {
        HeardCrash(front, step, cfg, limit);
      }
    }
  }

  /** Over all runs with crashes, whether or not rotation has thrown lines away: a
      restart at any time rejects no line on disk, finds nothing corrupt and rebuilds the
      memory of a hub that received the events on disk; and the memory is always that
      of a hub without crashes that received what was on disk at the last start and
      everything since. */
  lemma EveryBootRecovers<G>(steps: seq<Step>, cfg: Config<G>, limit: nat)
    requires Faithful(cfg.codec) && NoneTooLate(Offered(steps), cfg.window) && OneTsPerKey(Offered(steps), cfg.fp)
    ensures var s := Run(steps, cfg, limit);
            && s.first <= |s.log|
            && Replay(s.disk, cfg) == Progress(Live(s.log[s.first..], cfg), Stats(|s.log| - s.first, 0, 0))
            && Mirrors(s, Heard(steps, cfg, limit), Base(steps, cfg, limit), cfg)
  {
    var s, h, base := Run(steps, cfg, limit), Heard(steps, cfg, limit), Base(steps, cfg, limit);
    HeardIs(steps, cfg, limit);
    LogIsRetained(steps, cfg, limit);
    TimelyIsSafe(h, cfg.window, cfg.fp);
    BootMirrors(s, h, base, cfg);
  }
}
