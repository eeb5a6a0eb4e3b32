/** Migration of older rule files (core/src/bin/rules-migrate.rs) against the reading
    of rule files (core/src/rules/rule.rs). Both know the older `all` / `any` form;
    migrating a file must not change what its rule means. */
module Migration {
  import opened Events
  import opened Text
  import opened Rules
  import opened RuleEngine

  /** A YAML value; mappings have text keys. */
  datatype Value =
    | Null
    | Bool(flag: bool)
    | Number(number: real)
    | Str(text: string)
    | List(items: seq<Value>)
    | Mapping(fields: map<string, Value>)

  type Fields = map<string, Value>

  // ---- reading a rule file ----

  /** How the leaves are read: a leaf condition from its type and fields, and the
      fields of a rule other than its id and conditions. */
  datatype Reader = Reader(leaf: (string, Fields) -> Option<Condition>, header: Fields -> Option<Header>)

  function ReadCondition(v: Value, rd: Reader): Option<Condition>
    decreases v
  {
    if !v.Mapping? || "type" !in v.fields || !v.fields["type"].Str? then None
    else
      var ty := v.fields["type"].text;
      if ty == "any" || ty == "all" then
        if "conditions" in v.fields && v.fields["conditions"].List? then
          match ReadConditions(v.fields["conditions"].items, rd)
          case None => None
          case Some(cs) => Some(if ty == "any" then AnyOf(cs) else AllOf(cs))
        else None
      else if ty in {"event", "graph", "metric", "signal"} then rd.leaf(ty, v.fields)
      else None
  }

  function ReadConditions(items: seq<Value>, rd: Reader): Option<seq<Condition>>
    decreases items
  {
    if items == [] then Some([])
    else
      var c, cs := ReadCondition(items[0], rd), ReadConditions(items[1..], rd);
      if c.Some? && cs.Some? then Some([c.value] + cs.value) else None
  }

  /** An optional list of conditions: absent and null count as none. */
  datatype Slot = Bad | Empty | Full(conditions: seq<Condition>)

  function ReadSlot(m: Fields, key: string, rd: Reader): Slot {
    if key !in m || m[key].Null? then Empty
    else if !m[key].List? then Bad
    else match ReadConditions(m[key].items, rd)
      case None => Bad
      case Some(cs) => Full(cs)
  }

  function SlotOption(s: Slot): Option<seq<Condition>> {
    if s.Full? then Some(s.conditions) else None
  }

  function ReadWire(v: Value, rd: Reader): Option<ConditionsWire> {
    match v
    case List(items) =>
      (match ReadConditions(items, rd)
       case None => None
       case Some(cs) => Some(New(cs)))
    case Mapping(m) =>
      var all, any := ReadSlot(m, "all", rd), ReadSlot(m, "any", rd);
      if all.Bad? || any.Bad? then None else Some(Legacy(SlotOption(all), SlotOption(any)))
    case _ => None
  }

  const OWN_KEYS := {"id", "conditions", "migration_incomplete", "migration_notes", "migration_legacy_conditions"}

  datatype IdSlot = BadId | NoId | AnId(id: string)

  function ReadId(f: Fields): IdSlot {
    if "id" !in f || f["id"].Null? then NoId
    else if f["id"].Str? then AnId(f["id"].text)
    else BadId
  }

  /** The header fields are read without regard to the keys migration writes. */
  function ReadHeader(f: Fields, rd: Reader): Option<Header> {
    rd.header(f - OWN_KEYS)
  }

  function ReadRule(f: Fields, rd: Reader): Option<RuleWire> {
    var header, id := ReadHeader(f, rd), ReadId(f);
    if header.None? || id.BadId? || "conditions" !in f then None
    else match ReadWire(f["conditions"], rd)
      case None => None
      case Some(wire) => Some(RuleWire(if id.AnId? then Some(id.id) else None, header.value, wire))
  }

  // ---- migration ----

  datatype Status = Migrated | Partial | Unchanged

  datatype Outcome = Outcome(fields: Fields, status: Status, unsupported: seq<string>)

  /** Why a condition cannot be migrated; empty when it can. */
  function Unsupported(v: Value): seq<string>
    decreases v
  {
    if !v.Mapping? then ["condition_not_mapping"]
    else if "type" !in v.fields then ["condition_missing_type"]
    else if !v.fields["type"].Str? then ["condition_type_not_string"]
    else
      var ty := v.fields["type"].text;
      if ty in {"event", "graph", "metric"} then []
      else if ty in {"all", "any"} then
        if "conditions" in v.fields && v.fields["conditions"].List? then UnsupportedIn(v.fields["conditions"].items)
        else [ty + "_missing_conditions"]
      else ["unsupported_type_" + ty]
  }

  function UnsupportedIn(items: seq<Value>): seq<string>
    decreases items
  {
    if items == [] then [] else Unsupported(items[0]) + UnsupportedIn(items[1..])
  }

  function RuleId(f: Fields, pack: string): string {
    pack + "." + (if "scene" in f && f["scene"].Str? then f["scene"].text else "unknown_scene")
  }

  function EnsureId(f: Fields, pack: string): Fields {
    if "id" in f then f else f["id" := Str(RuleId(f, pack))]
  }

  predicate HasList(m: Fields, key: string) {
    key in m && m[key].List?
  }

  const DONE_NOTE := "migrated legacy conditions (all/any) to normalized syntax"
  const ALL_NOTE := "legacy all-conditions contains unsupported condition"
  const ANY_NOTE := "legacy any-conditions contains unsupported condition"
  const BOTH_NOTE := "legacy conditions contains both all and any"

  function Incomplete(f: Fields, note: string): Fields
    requires "conditions" in f
  {
    f["migration_incomplete" := Bool(true)]["migration_notes" := List([Str(note)])]
     ["migration_legacy_conditions" := f["conditions"]]
  }

  function Complete(f: Fields, conditions: Value): Fields {
    f["conditions" := conditions]["migration_incomplete" := Bool(false)]["migration_notes" := List([Str(DONE_NOTE)])]
  }

  function AnyWrapper(items: seq<Value>): Value {
    List([Mapping(map["type" := Str("any"), "conditions" := List(items)])])
  }

  function Migrate(fields: Fields, pack: string): Outcome {
    var f := EnsureId(fields, pack);
    if "conditions" !in f || !f["conditions"].Mapping? then Outcome(f, Unchanged, [])
    else
      var m := f["conditions"].fields;
      if HasList(m, "all") && HasList(m, "any") then
        Outcome(Incomplete(f, BOTH_NOTE), Partial, ["legacy_all_and_any"])
      else if HasList(m, "all") then
        var why := UnsupportedIn(m["all"].items);
        if why == [] then Outcome(Complete(f, List(m["all"].items)), Migrated, [])
        else Outcome(Incomplete(f, ALL_NOTE), Partial, why)
      else if HasList(m, "any") then
        var why := UnsupportedIn(m["any"].items);
        if why == [] then Outcome(Complete(f, AnyWrapper(m["any"].items)), Migrated, [])
        else Outcome(Incomplete(f, ANY_NOTE), Partial, why)
      else Outcome(f, Unchanged, [])
  }

  /** Walks a condition, adding to the list of obstacles. */
  method SupportsCondition(v: Value, unsupported: seq<string>) returns (ok: bool, unsupported': seq<string>)
    ensures unsupported' == unsupported + Unsupported(v)
    ensures ok <==> Unsupported(v) == []
    decreases v
  {
    if !v.Mapping? {
      return false, unsupported + ["condition_not_mapping"];
    }
    if "type" !in v.fields {
      return false, unsupported + ["condition_missing_type"];
    }
    var t := v.fields["type"];
    if !t.Str? {
      return false, unsupported + ["condition_type_not_string"];
    }
    var ty := t.text;
    if ty == "event" || ty == "graph" || ty == "metric" {
      return true, unsupported;
    }
    if ty == "all" || ty == "any" {
      if "conditions" !in v.fields || !v.fields["conditions"].List? {
        return false, unsupported + [ty + "_missing_conditions"];
      }
      ok, unsupported' := SupportsAll(v.fields["conditions"].items, unsupported);
      return;
    }
    return false, unsupported + ["unsupported_type_" + ty];
  }

  /** Walks a list of conditions, to its end even after a failure. */
  method SupportsAll(items: seq<Value>, unsupported: seq<string>) returns (ok: bool, unsupported': seq<string>)
    ensures unsupported' == unsupported + UnsupportedIn(items)
    ensures ok <==> UnsupportedIn(items) == []
    decreases items
  {
    ok, unsupported' := true, unsupported;
    for i := 0 to |items|
      invariant unsupported' == unsupported + UnsupportedIn(items[..i])
      invariant ok <==> UnsupportedIn(items[..i]) == []
    {
      UnsupportedNext(items, i);
      var fine: bool;
      fine, unsupported' := SupportsCondition(items[i], unsupported');
      if !fine {
        ok := false;
      }
    }
    assert items[..|items|] == items;
  }

  lemma {:induction false} UnsupportedNext(items: seq<Value>, i: nat)
    requires i < |items|
    ensures UnsupportedIn(items[..i + 1]) == UnsupportedIn(items[..i]) + Unsupported(items[i])
    decreases |items|
  {
    var a := items[..i + 1];
    if i == 0 {
      assert a[1..] == [] && items[..0] == [];
    } else {
      UnsupportedNext(items[1..], i - 1);
      assert a[1..] == items[1..][..i] && items[..i][1..] == items[1..][..i - 1];
    }
  }

  /** A rule file being migrated: its fields are rewritten in place. */
  class RuleDocument {
    var fields: Fields

    constructor (fields: Fields)
      ensures this.fields == fields
    {
      this.fields := fields;
    }

    method MigrateRuleValue(pack: string) returns (status: Status, unsupported: seq<string>)
      modifies this
      ensures Outcome(fields, status, unsupported) == Migrate(old(fields), pack)
    {
      if "id" !in fields {
        var scene := if "scene" in fields && fields["scene"].Str? then fields["scene"].text else "unknown_scene";
        fields := fields["id" := Str(pack + "." + scene)];
      }
      if "conditions" !in fields || !fields["conditions"].Mapping? {
        return Unchanged, [];
      }
      var conditions := fields["conditions"];
      var legacy := conditions.fields;
      var note := "";
      var replacement := Null;
      unsupported := [];
      if HasList(legacy, "all") && HasList(legacy, "any") {
        note, unsupported := BOTH_NOTE, ["legacy_all_and_any"];
      } else if HasList(legacy, "all") {
        var ok;
        ok, unsupported := SupportsAll(legacy["all"].items, []);
        if ok {
          replacement := List(legacy["all"].items);
        } else {
          note := ALL_NOTE;
        }
      } else if HasList(legacy, "any") {
        var ok;
        ok, unsupported := SupportsAll(legacy["any"].items, []);
        if ok {
          var wrapper := map["type" := Str("any")];
          wrapper := wrapper["conditions" := List(legacy["any"].items)];
          assert wrapper == map["type" := Str("any"), "conditions" := List(legacy["any"].items)];
          replacement := List([Mapping(wrapper)]);
        } else {
          note := ANY_NOTE;
        }
      } else {
        return Unchanged, [];
      }

      if replacement.Null? {
        fields := fields["migration_incomplete" := Bool(true)];
        fields := fields["migration_notes" := List([Str(note)])];
        fields := fields["migration_legacy_conditions" := conditions];
        return Partial, unsupported;
      }
      fields := fields["conditions" := replacement];
      fields := fields["migration_incomplete" := Bool(false)];
      fields := fields["migration_notes" := List([Str(DONE_NOTE)])];
      return Migrated, unsupported;
    }
  }

  // ---- migration does not change meaning ----

  /** Migrating twice is migrating once, for every rule file. */
  lemma MigrateIsIdempotent(f: Fields, pack: string)
    ensures Migrate(Migrate(f, pack).fields, pack).fields == Migrate(f, pack).fields
  {
    var g := EnsureId(f, pack);
    var h := Migrate(f, pack).fields;
    assert "id" in h;
    if Migrate(f, pack).status.Partial? {
      assert h["conditions"] == g["conditions"];
    }
  }

  lemma MigrateKeepsHeader(f: Fields, pack: string, rd: Reader)
    ensures ReadHeader(Migrate(f, pack).fields, rd) == ReadHeader(f, rd)
    ensures ReadId(Migrate(f, pack).fields).BadId? <==> ReadId(f).BadId?
    ensures "conditions" in Migrate(f, pack).fields <==> "conditions" in f
  {
    var h := Migrate(f, pack).fields;
    assert h - OWN_KEYS == f - OWN_KEYS;
  }

  /** Reading what a completed migration wrote. */
  lemma ReadMigrated(f: Fields, pack: string, rd: Reader)
    requires Migrate(f, pack).status.Migrated?
    ensures var m, v := f["conditions"].fields, Migrate(f, pack).fields["conditions"];
            && (HasList(m, "all") ==>
                 var cs := ReadConditions(m["all"].items, rd);
                 ReadWire(v, rd) == if cs.Some? then Some(New(cs.value)) else None)
            && (!HasList(m, "all") ==>
                 var cs := ReadConditions(m["any"].items, rd);
                 ReadWire(v, rd) == if cs.Some? then Some(New([AnyOf(cs.value)])) else None)
  {
    var m := f["conditions"].fields;
    if !HasList(m, "all") {
      ReadWrapped(m["any"].items, rd);
    }
  }

  lemma ReadWrapped(items: seq<Value>, rd: Reader)
    ensures var cs := ReadConditions(items, rd);
            ReadWire(AnyWrapper(items), rd) == if cs.Some? then Some(New([AnyOf(cs.value)])) else None
  {
    var list := AnyWrapper(items).items;
    var cs := ReadConditions(items, rd);
    assert ReadCondition(list[0], rd) == if cs.Some? then Some(AnyOf(cs.value)) else None;
    assert list[1..] == [] && ReadConditions(list[1..], rd) == Some([]);
    assert cs.Some? ==> [AnyOf(cs.value)] + [] == [AnyOf(cs.value)];
  }

  predicate SameVerdict(a: RuleWire, b: RuleWire, events: seq<Event>, v: View, parse: string -> Option<real>) {
    var n, n' := Normalize(a), Normalize(b);
    && a.header == b.header
    && (n.Rejected? <==> n'.Rejected?)
    && (n.Normal? && n'.Normal? ==>
         (MatchesAll(n.rule.conditions, events, v, parse) <==> MatchesAll(n'.rule.conditions, events, v, parse)))
  }

  /** For every rule file that can be read: after migration it can still be read, has
      the same header, and normalizes to the same verdict on all events and graphs,
      or to the same rejection - whether the migration was complete, partial or left
      the file as it was. */
  lemma MigrationPreservesMeaning(f: Fields, pack: string, rd: Reader, events: seq<Event>, v: View,
                                  parse: string -> Option<real>)
    requires ReadRule(f, rd).Some?
    ensures var w := ReadRule(Migrate(f, pack).fields, rd);
            w.Some? && SameVerdict(ReadRule(f, rd).value, w.value, events, v, parse)
  {
    var out := Migrate(f, pack);
    MigrateKeepsHeader(f, pack, rd);
    if out.status.Migrated? {
      ReadMigrated(f, pack, rd);
      var wire := ReadRule(f, rd).value;
      NormalizeMeans(wire, events, v, parse);
    } else {
      assert out.fields["conditions"] == f["conditions"];
    }
  }

  /** Exactly which files migration makes readable that were not: header and id are
      fine, one of `all` and `any` is a good, supported list, and the other is there
      but is neither a list nor null, which the reader refuses and the migration
      overlooks. No file becomes unreadable. */
  lemma MigrationRevives(f: Fields, pack: string, rd: Reader)
    ensures var readable, after := ReadRule(f, rd).Some?, ReadRule(Migrate(f, pack).fields, rd).Some?;
            && (readable ==> after)
            && (!readable && after <==>
                 && ReadHeader(f, rd).Some? && !ReadId(f).BadId?
                 && "conditions" in f && f["conditions"].Mapping?
                 && (var m := f["conditions"].fields;
                     Overlooked(m, "all", "any", rd) || Overlooked(m, "any", "all", rd)))
  {
    var out := Migrate(f, pack);
    MigrateKeepsHeader(f, pack, rd);
    if out.status.Migrated? {
      ReadMigrated(f, pack, rd);
    } else {
      assert "conditions" in f ==> out.fields["conditions"] == f["conditions"];
    }
  }

  /** `good` is a readable, supported list and `bad` is present but no list. */
  predicate Overlooked(m: Fields, good: string, bad: string, rd: Reader) {
    && HasList(m, good) && UnsupportedIn(m[good].items) == [] && ReadConditions(m[good].items, rd).Some?
    && bad in m && !m[bad].List? && !m[bad].Null?
  }

  // ---- what migration achieves ----

  /** Somewhere in the tree there is a signal condition. */
  predicate HasSignal(v: Value)
    decreases v
  {
    && v.Mapping? && "type" in v.fields && v.fields["type"].Str?
    && (|| v.fields["type"].text == "signal"
        || (&& v.fields["type"].text in {"all", "any"}
            && "conditions" in v.fields && v.fields["conditions"].List?
            && HasSignalIn(v.fields["conditions"].items)))
  }

  predicate HasSignalIn(items: seq<Value>)
    decreases items
  {
    items != [] && (HasSignal(items[0]) || HasSignalIn(items[1..]))
  }

  /** Of the conditions that can be read, those without signals can be migrated. */
  lemma {:induction false} SupportedIff(v: Value, rd: Reader)
    requires ReadCondition(v, rd).Some?
    ensures Unsupported(v) == [] <==> !HasSignal(v)
    decreases v
  {
    if v.fields["type"].text in {"all", "any"} {
      SupportedInIff(v.fields["conditions"].items, rd);
    }
  }

  lemma {:induction false} SupportedInIff(items: seq<Value>, rd: Reader)
    requires ReadConditions(items, rd).Some?
    ensures UnsupportedIn(items) == [] <==> !HasSignalIn(items)
    decreases items
  {
    if items != [] {
      SupportedIff(items[0], rd);
      SupportedInIff(items[1..], rd);
    }
  }

  /** The list the older form gives for one keyword. */
  function Listed(f: Fields, key: string): seq<Value> {
    if "conditions" in f && f["conditions"].Mapping? && HasList(f["conditions"].fields, key)
    then f["conditions"].fields[key].items else []
  }

  /** What becomes of a rule file that can be read: one in the list form, or in the older form
      with neither keyword, is left alone; one with both keywords, or with a signal, is
      marked as partial; every other older one is migrated, and is then in the list form. */
  lemma MigrationReaches(f: Fields, pack: string, rd: Reader)
    requires ReadRule(f, rd).Some?
    ensures var wire, status := ReadRule(f, rd).value.conditions, Migrate(f, pack).status;
            && (status.Unchanged? <==> wire.New? || (wire.all.None? && wire.any.None?))
            && (status.Migrated? <==>
                 && wire.Legacy? && wire.all.Some? != wire.any.Some?
                 && !HasSignalIn(Listed(f, if wire.all.Some? then "all" else "any")))
            && (status.Migrated? ==>
                 var after := ReadRule(Migrate(f, pack).fields, rd); after.Some? && after.value.conditions.New?)
  {
    var wire := ReadRule(f, rd).value.conditions;
    MigrateKeepsHeader(f, pack, rd);
    if f["conditions"].Mapping? {
      var m := f["conditions"].fields;
      if HasList(m, "all") {
        SupportedInIff(m["all"].items, rd);
      }
      if HasList(m, "any") {
        SupportedInIff(m["any"].items, rd);
      }
      if Migrate(f, pack).status.Migrated? {
        ReadMigrated(f, pack, rd);
      }
    }
  }

  /** What a migration leaves on record: a complete one says so; a partial one says that it is
      not, keeps the conditions as they were, under both names, and lists at least one
      obstacle; nothing else is touched but a missing id. */
  lemma MigrationIsMarked(f: Fields, pack: string, key: string)
    ensures var out := Migrate(f, pack);
            && (out.status.Migrated? ==>
                 && "migration_incomplete" in out.fields && out.fields["migration_incomplete"] == Bool(false)
                 && out.unsupported == [])
            && (out.status.Partial? ==>
                 && "migration_incomplete" in out.fields && out.fields["migration_incomplete"] == Bool(true)
                 && "conditions" in f && "conditions" in out.fields && "migration_legacy_conditions" in out.fields
                 && out.fields["conditions"] == out.fields["migration_legacy_conditions"] == f["conditions"]
                 && out.unsupported != [])
            && (key !in {"id", "conditions", "migration_incomplete", "migration_notes",
                         "migration_legacy_conditions"} ==>
                 (key in out.fields <==> key in f) && (key in f ==> out.fields[key] == f[key]))
            && (out.status.Unchanged? && "id" in f ==> out.fields == f)
  {}

  /** The reader takes the scene of a rule from its field of that name. */
  predicate ReadsScene(f: Fields, rd: Reader) {
    var header := ReadHeader(f, rd);
    header.Some? ==> "scene" in f && f["scene"] == Str(header.value.scene)
  }

  /** The id a rule that was read will have once loaded. */
  function LoadedId(w: RuleWire, pack: string): Option<string> {
    FinalId(Rule(w.id, w.header, []), pack)
  }

  /** Migration and loading give a rule the same id: one that has none gets its pack and scene
      from both, and one that has one keeps it. */
  lemma IdsAgree(f: Fields, pack: string, rd: Reader)
    requires ReadRule(f, rd).Some? && ReadsScene(f, rd)
    ensures var before, after := ReadRule(f, rd).value, ReadRule(Migrate(f, pack).fields, rd);
            && after.Some? && LoadedId(after.value, pack) == LoadedId(before, pack)
            && (before.id.None? ==> LoadedId(before, pack) == Some(pack + "." + before.header.scene))
  {
    var scene := ReadRule(f, rd).value.header.scene;
    NotBlank(pack + "." + scene, |pack|);
    MigrateKeepsHeader(f, pack, rd);
    MigrationRevives(f, pack, rd);
    IdKept(f, pack);
  }

  lemma IdKept(f: Fields, pack: string)
    ensures ReadId(Migrate(f, pack).fields) == if "id" in f then ReadId(f) else AnId(RuleId(f, pack))
  {}
}
