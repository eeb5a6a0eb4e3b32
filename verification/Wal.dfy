/** The rotating write-ahead log of the hub (hub/src/wal.rs): an active file and one
    rotated file, as the bytes on disk. */
module Wal {
  import opened Events
  import opened Text

  /** The files that exist, with their contents. */
  datatype Disk = Disk(active: Option<string>, rotated: Option<string>)

  const NoFiles := Disk(None, None)

  /** JSON lines: printing and parsing of one event. */
  datatype Codec = Codec(render: Event -> string, decode: string -> Option<Event>)

  /** What is assumed of the JSON library: a printed event parses back, and is one
      line without surrounding blanks. */
  ghost predicate Faithful(c: Codec) {
    forall e {:trigger c.render(e)} ::
      && c.decode(c.render(e)) == Some(e)
      && c.render(e) != "" && Trim(c.render(e)) == c.render(e) && '\n' !in c.render(e)
  }

  function Line(e: Event, c: Codec): string {
    c.render(e) + "\n"
  }

  function Encode(events: seq<Event>, c: Codec): string {
    if events == [] then "" else Encode(events[..|events| - 1], c) + Line(events[|events| - 1], c)
  }

  function Contents(file: Option<string>): string {
    if file.Some? then file.value else ""
  }

  // ---- the steps of an append ----

  predicate NeedsRotation(d: Disk, line: string, limit: nat) {
    limit > 0 && |Contents(d.active)| + |line| > limit
  }

  function Removed(d: Disk): Disk {
    d.(rotated := None)
  }

  function Renamed(d: Disk): Disk {
    if d.active.Some? then Disk(None, d.active) else d
  }

  /** Opening for append creates a missing file. */
  function Opened(d: Disk): Disk {
    d.(active := Some(Contents(d.active)))
  }

  function Rotated(d: Disk): Disk {
    Opened(Renamed(Removed(d)))
  }

  function Written(d: Disk, line: string): Disk {
    d.(active := Some(Contents(d.active) + line))
  }

  function Appended(d: Disk, line: string, limit: nat): Disk {
    Written(if NeedsRotation(d, line, limit) then Rotated(d) else d, line)
  }

  /** While the line fits behind what is there, or without a limit, the append only adds
      it. */
  lemma FittingIsAppended(d: Disk, line: string, limit: nat)
    requires limit == 0 || |Contents(d.active)| + |line| <= limit
    ensures Appended(d, line, limit) == Disk(Some(Contents(d.active) + line), d.rotated)
  {}

  /** Otherwise the active file takes the place of the rotated one and the line is alone
      in a new one. */
  lemma OtherwiseRotated(d: Disk, line: string, limit: nat)
    requires 0 < limit < |Contents(d.active)| + |line| && d.active.Some?
    ensures Appended(d, line, limit) == Disk(Some(line), d.active)
  {
    assert "" + line == line;
  }

  class WalWriter {
    const limit: nat
    const codec: Codec
    var disk: Disk

    constructor (disk: Disk, limit: nat, codec: Codec)
      ensures this.limit == limit && this.codec == codec && this.disk == Opened(disk)
    {
      this.limit, this.codec := limit, codec;
      this.disk := Disk(Some(Contents(disk.active)), disk.rotated);
    }

    method Rotate()
      modifies this
      ensures disk == Rotated(old(disk))
    {
      if disk.rotated.Some? {
        disk := disk.(rotated := None);
      }
      if disk.active.Some? {
        disk := Disk(None, disk.active);
      }
      disk := disk.(active := Some(Contents(disk.active)));
    }

    method Append(event: Event) returns (rotated: bool, size: nat)
      requires disk.active.Some?
      modifies this
      ensures disk == Appended(old(disk), Line(event, codec), limit)
      ensures rotated <==> 0 < limit < |old(disk).active.value| + |Line(event, codec)|
      ensures !rotated ==> disk == Disk(Some(old(disk).active.value + Line(event, codec)), old(disk).rotated)
      ensures rotated ==> disk == Disk(Some(Line(event, codec)), old(disk).active)
      ensures disk.active.Some? && size == |disk.active.value|
      ensures limit > 0 ==> size <= limit || disk.active == Some(Line(event, codec))
    {
      var line := codec.render(event) + "\n";
      rotated := false;
      var current := |disk.active.value|;
      if limit > 0 && current + |line| > limit {
        Rotate();
        rotated := true;
        assert "" + line == line;
      }
      disk := disk.(active := Some(disk.active.value + line));
      size := |disk.active.value|;
    }
  }

  // ---- what the files hold ----

  /** Files and log agree: the rotated file holds the lines `first..cut` of the log
      and the active file the lines from `cut` on, so together they hold a suffix. */
  predicate Retains(d: Disk, log: seq<Event>, first: nat, cut: nat, c: Codec) {
    && first <= cut <= |log|
    && Contents(d.rotated) == Encode(log[first..cut], c)
    && Contents(d.active) == Encode(log[cut..], c)
  }

  /** A crash may stop an append after any of its steps. */
  datatype CrashPoint = BeforeAppend | AfterRemove | AfterRename | AfterReopen | AfterWrite

  /** What a crash inside the append of `line` leaves on disk. */
  function CrashedDisk(d: Disk, line: string, limit: nat, at: CrashPoint): Disk {
    if at.AfterWrite? then Appended(d, line, limit)
    else if !NeedsRotation(d, line, limit) then d
    else match at
      case BeforeAppend => d
      case AfterRemove => Removed(d)
      case AfterRename => Renamed(Removed(d))
      case AfterReopen => Rotated(d)
  }

  /** The retained range after the steps up to a crash point. */
  function RangeAt(log: seq<Event>, first: nat, cut: nat, rotates: bool, at: CrashPoint): (nat, nat)
  {
    if !rotates || at.BeforeAppend? then (first, cut)
    else if at.AfterRemove? then (cut, cut)
    else (cut, |log|)
  }

  lemma EncodeAppend(events: seq<Event>, e: Event, c: Codec)
    ensures Encode(events + [e], c) == Encode(events, c) + Line(e, c)
  {
    assert (events + [e])[..|events|] == events;
  }

  lemma WriteRetains(d: Disk, log: seq<Event>, first: nat, cut: nat, e: Event, c: Codec)
    requires Retains(d, log, first, cut, c)
    ensures Retains(Written(d, Line(e, c)), log + [e], first, cut, c)
  {
    EncodeAppend(log[cut..], e, c);
    assert (log + [e])[first..cut] == log[first..cut] && (log + [e])[cut..] == log[cut..] + [e];
  }

  /** Moving the active file away: what was rotated is gone, what was active is now
      rotated, whether or not the new active file has been created. */
  lemma RotateRetains(d: Disk, log: seq<Event>, first: nat, cut: nat, c: Codec)
    requires Retains(d, log, first, cut, c) && d.active.Some?
    ensures Retains(Removed(d), log, cut, cut, c)
    ensures Retains(Renamed(Removed(d)), log, cut, |log|, c)
    ensures Retains(Rotated(d), log, cut, |log|, c)
  {
    assert log[|log|..] == [] && log[cut..cut] == [] && log[cut..|log|] == log[cut..];
  }

  /** At every point of an append the two files hold a suffix of the log: before
      the write of the old log, after it of the log with the new event. */
  lemma CrashRetains(d: Disk, log: seq<Event>, first: nat, cut: nat, e: Event, limit: nat, at: CrashPoint, c: Codec)
    requires Retains(d, log, first, cut, c) && d.active.Some?
    ensures var r := RangeAt(log, first, cut, NeedsRotation(d, Line(e, c), limit), at);
            Retains(CrashedDisk(d, Line(e, c), limit, at), if at.AfterWrite? then log + [e] else log, r.0, r.1, c)
  {
    RotateRetains(d, log, first, cut, c);
    WriteRetains(d, log, first, cut, e, c);
    WriteRetains(Rotated(d), log, cut, |log|, e, c);
  }
}
