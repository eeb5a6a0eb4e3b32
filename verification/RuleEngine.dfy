/** The rule engine (core/src/rules/mod.rs): loading with unique ids and a priority
    sort, and the three ways of matching. */
module RuleEngine {
  import opened Events
  import opened Text
  import opened Seqs
  import opened Rules
  import opened Matcher

  /** A rule file: its path, its pack, and what parsing it gave. */
  datatype RuleFile = RuleFile(path: string, pack: string, parsed: Option<RuleWire>)

  datatype LoadResult =
    | Loaded(rules: seq<Rule>, skipped: nat)
    | IdConflict(id: string)
    | StrictFailure(skipped: nat)

  /** The id a rule will have: its own, or one made from pack and scene; a blank id
      drops the rule. */
  function FinalId(rule: Rule, pack: string): Option<string> {
    match rule.id
    case Some(id) => if Trim(id) == "" then None else Some(id)
    case None => Some(pack + "." + rule.header.scene)
  }

  /** The rule a file contributes, if any. */
  function RuleOf(f: RuleFile): Option<Rule> {
    if f.parsed.None? then None
    else match Normalize(f.parsed.value)
      case Rejected => None
      case Normal(rule, _) =>
        match FinalId(rule, f.pack)
        case None => None
        case Some(id) => Some(rule.(id := Some(id)))
  }

  function RulesOf(files: seq<RuleFile>): seq<Rule> {
    if files == [] then []
    else
      var r := RuleOf(files[|files| - 1]);
      RulesOf(files[..|files| - 1]) + (if r.Some? then [r.value] else [])
  }

  predicate IsSkipped(f: RuleFile) {
    f.parsed.None? || Normalize(f.parsed.value).Rejected?
  }

  function Skipped(files: seq<RuleFile>): nat {
    if files == [] then 0
    else Skipped(files[..|files| - 1]) + (if IsSkipped(files[|files| - 1]) then 1 else 0)
  }

  function Id(r: Rule): Option<string> { r.id }

  function Priority(r: Rule): nat { r.header.priority }

  predicate ClaimedTwice(rules: seq<Rule>, id: string) {
    exists i, j | 0 <= i < j < |rules| :: rules[i].id == rules[j].id == Some(id)
  }

  /** The in-memory part of loading. Either every contributed rule is there, with
      distinct ids, highest priority first and in file order within a priority; or
      two files claim one id; or strict mode objects to a skipped file. */
  method Load(files: seq<RuleFile>, strict: bool) returns (result: LoadResult)
    ensures result.IdConflict? <==> !DistinctBy(RulesOf(files), Id)
    ensures result.IdConflict? ==> ClaimedTwice(RulesOf(files), result.id)
    ensures result.StrictFailure? <==> DistinctBy(RulesOf(files), Id) && strict && Skipped(files) > 0
    ensures result.StrictFailure? ==> result.skipped == Skipped(files)
    ensures result.Loaded? ==>
              && result.rules == SortDesc(RulesOf(files), Priority)
              && result.skipped == Skipped(files)
              && DistinctBy(result.rules, Id)
              && Descending(result.rules, Priority)
  {
    var rules: seq<Rule> := [];
    var skipped := 0;
    var owners: map<string, string> := map[];
    for n := 0 to |files|
      invariant rules == RulesOf(files[..n]) && skipped == Skipped(files[..n])
      invariant Owned(rules, owners)
    {
      assert files[..n + 1][..n] == files[..n];
      var file := files[n];
      if file.parsed.None? {
        skipped := skipped + 1;
      } else {
        var normalized := Normalize(file.parsed.value);
        if normalized.Rejected? {
          skipped := skipped + 1;
        } else {
          var finalId := FinalId(normalized.rule, file.pack);
          if finalId.Some? {
            var rule := normalized.rule.(id := finalId);
            OwnedNext(rules, owners, rule, file.path);
            if finalId.value in owners {
              ClashStays(files, n + 1, rules, rule);
              return IdConflict(finalId.value);
            }
            owners := owners[finalId.value := file.path];
            rules := rules + [rule];
          }
        }
      }
    }
    assert files[..|files|] == files;
    SortDescIs(rules, Priority, 0);
    PermutedDistinct(rules, SortDesc(rules, Priority), Id);
    rules := SortDesc(rules, Priority);
    if strict && skipped > 0 {
      return StrictFailure(skipped);
    }
    return Loaded(rules, skipped);
  }

  /** The owner table knows exactly the ids taken, and no id is taken twice. */
  ghost predicate Owned(rules: seq<Rule>, owners: map<string, string>) {
    && DistinctBy(rules, Id)
    && (forall i | 0 <= i < |rules| :: rules[i].id.Some? && rules[i].id.value in owners)
    && (forall id | id in owners :: exists i | 0 <= i < |rules| :: rules[i].id == Some(id))
  }

  lemma OwnedNext(rules: seq<Rule>, owners: map<string, string>, rule: Rule, path: string)
    requires Owned(rules, owners) && rule.id.Some?
    ensures rule.id.value in owners ==> exists i | 0 <= i < |rules| :: rules[i].id == rule.id
    ensures rule.id.value !in owners ==> Owned(rules + [rule], owners[rule.id.value := path])
  {
    var rules', owners' := rules + [rule], owners[rule.id.value := path];
    if rule.id.value !in owners {
      forall id | id in owners' ensures exists i | 0 <= i < |rules'| :: rules'[i].id == Some(id) {
        if id == rule.id.value {
          assert rules'[|rules|].id == Some(id);
        } else {
          var i :| 0 <= i < |rules| && rules[i].id == Some(id);
          assert rules'[i].id == Some(id);
        }
      }
    }
  }

  lemma {:induction false} RulesOfPrefix(files: seq<RuleFile>, n: nat)
    requires n <= |files|
    ensures RulesOf(files[..n]) <= RulesOf(files)
  {
    if n == |files| {
      assert files[..n] == files;
    } else {
      var front := files[..|files| - 1];
      assert front[..n] == files[..n];
      RulesOfPrefix(front, n);
    }
  }

  lemma ClashStays(files: seq<RuleFile>, n: nat, rules: seq<Rule>, rule: Rule)
    requires n <= |files| && RulesOf(files[..n]) == rules + [rule]
    requires exists i | 0 <= i < |rules| :: rules[i].id == rule.id
    ensures !DistinctBy(RulesOf(files), Id) && (rule.id.Some? ==> ClaimedTwice(RulesOf(files), rule.id.value))
  {
    RulesOfPrefix(files, n);
    var all := RulesOf(files);
    var i :| 0 <= i < |rules| && rules[i].id == rule.id;
    assert all[i] == (rules + [rule])[i] && all[|rules|] == (rules + [rule])[|rules|];
    assert Id(all[i]) == Id(all[|rules|]);
  }

  // ---- what becomes of each file ----

  /** The file has a rule with this id: its own id, which is not blank, or its pack and scene. */
  predicate Gives(f: RuleFile, rule: Rule) {
    && f.parsed.Some? && Normalize(f.parsed.value).Normal?
    && (var own := f.parsed.value.id;
        && (own.Some? ==> Trim(own.value) != "" && rule.id == own)
        && (own.None? ==> rule.id == Some(f.pack + "." + f.parsed.value.header.scene)))
    && rule.header == f.parsed.value.header
    && rule.conditions == Normalize(f.parsed.value).rule.conditions
  }

  /** The rules before sorting are exactly those that files give. */
  lemma {:induction false} RulesAreGiven(files: seq<RuleFile>, rule: Rule)
    ensures rule in RulesOf(files) <==> exists f | f in files :: Gives(f, rule)
  {
    if files != [] {
      var front, last := files[..|files| - 1], files[|files| - 1];
      assert files == front + [last];
      RulesAreGiven(front, rule);
      GivenIs(last, rule);
      if f :| f in files && Gives(f, rule) {
        assert f in front || f == last;
      }
    }
  }

  lemma GivenIs(f: RuleFile, rule: Rule)
    ensures RuleOf(f) == Some(rule) <==> Gives(f, rule)
  {}

  /** The rule of the file is dropped because its id is blank. */
  predicate HasBlankId(f: RuleFile) {
    && f.parsed.Some? && Normalize(f.parsed.value).Normal?
    && f.parsed.value.id.Some? && Trim(f.parsed.value.id.value) == ""
  }

  function BlankIds(files: seq<RuleFile>): nat {
    if files == [] then 0
    else BlankIds(files[..|files| - 1]) + (if HasBlankId(files[|files| - 1]) then 1 else 0)
  }

  /** No file is lost: each gives a rule, is counted as skipped, or has a blank id. */
  lemma {:induction false} EveryFileCounts(files: seq<RuleFile>)
    ensures |RulesOf(files)| + Skipped(files) + BlankIds(files) == |files|
  {
    if files != [] {
      EveryFileCounts(files[..|files| - 1]);
    }
  }

  /** Files are skipped exactly when some cannot be read or normalized. */
  lemma {:induction false} SkippedIff(files: seq<RuleFile>)
    ensures Skipped(files) > 0 <==> exists f :: f in files && IsSkipped(f)
  {
    if files != [] {
      var front, last := files[..|files| - 1], files[|files| - 1];
      assert last in files && forall f :: f in files <==> f in front || f == last;
      SkippedIff(front);
    }
  }

  // ---- matching ----

  predicate Matches(r: Rule, events: seq<Event>, v: View, parse: string -> Option<real>) {
    MatchesAll(r.conditions, events, v, parse)
  }

  /** Some event fits the event condition. */
  predicate Met(c: Condition, events: seq<Event>, parse: string -> Option<real>)
    requires c.EventIs?
  {
    exists k | 0 <= k < |events| :: EventFits(events[k], c, parse)
  }

  /** The top-level event conditions alone: there is one, and all hold. */
  predicate MatchesSimply(r: Rule, events: seq<Event>, parse: string -> Option<real>) {
    && (exists i | 0 <= i < |r.conditions| :: r.conditions[i].EventIs?)
    && (forall i | 0 <= i < |r.conditions| && r.conditions[i].EventIs? :: Met(r.conditions[i], events, parse))
  }

  function Matching(rules: seq<Rule>, events: seq<Event>, v: View, parse: string -> Option<real>): seq<Rule> {
    if rules == [] then []
    else
      var r := rules[|rules| - 1];
      Matching(rules[..|rules| - 1], events, v, parse) + (if Matches(r, events, v, parse) then [r] else [])
  }

  function Test(events: seq<Event>, v: View, parse: string -> Option<real>): Rule -> bool {
    (r: Rule) => MatchesAll(r.conditions, events, v, parse)
  }

  /** The matches are the rules whose conditions all hold, in order. */
  lemma {:induction false} MatchingIs(rules: seq<Rule>, events: seq<Event>, v: View, parse: string -> Option<real>)
    ensures Matching(rules, events, v, parse) == Retain(rules, Test(events, v, parse))
  {
    if rules != [] {
      MatchingIs(rules[..|rules| - 1], events, v, parse);
    }
  }

  method MatchRules(rules: seq<Rule>, events: seq<Event>, v: View, parse: string -> Option<real>)
    returns (matched: seq<Rule>)
    ensures matched == Matching(rules, events, v, parse)
  {
    matched := [];
    for n := 0 to |rules|
      invariant matched == Matching(rules[..n], events, v, parse)
    {
      assert rules[..n + 1][..n] == rules[..n];
      var hit := MatchAllConditions(rules[n].conditions, events, v, parse);
      if hit {
        matched := matched + [rules[n]];
      }
    }
    assert rules[..|rules|] == rules;
  }

  /** Returns the first match, which is the head of all matches and, the rules being
      sorted, has the highest priority among them. */
  method MatchFirst(rules: seq<Rule>, events: seq<Event>, v: View, parse: string -> Option<real>)
    returns (first: Option<Rule>)
    requires Descending(rules, Priority)
    ensures var all := Matching(rules, events, v, parse);
            && (first.None? <==> all == [])
            && (first.Some? ==>
                 && all != [] && first.value == all[0]
                 && forall r | r in all :: Priority(r) <= Priority(first.value))
  {
    for n := 0 to |rules|
      invariant Matching(rules[..n], events, v, parse) == []
    {
      assert rules[..n + 1][..n] == rules[..n];
      var hit := MatchAllConditions(rules[n].conditions, events, v, parse);
      if hit {
        MatchingFrom(rules, n, events, v, parse);
        return Some(rules[n]);
      }
    }
    assert rules[..|rules|] == rules;
    return None;
  }

  /** If nothing before the n-th rule matches but the n-th does, it heads the matches. */
  lemma {:induction false} MatchingFrom(rules: seq<Rule>, n: nat, events: seq<Event>, v: View,
                                        parse: string -> Option<real>)
    requires Descending(rules, Priority) && n < |rules|
    requires Matching(rules[..n], events, v, parse) == [] && Matches(rules[n], events, v, parse)
    ensures var all := Matching(rules, events, v, parse);
            all != [] && all[0] == rules[n] && forall r | r in all :: Priority(r) <= Priority(rules[n])
  {
    if n < |rules| - 1 {
      var front := rules[..|rules| - 1];
      assert front[..n] == rules[..n];
      MatchingFrom(front, n, events, v, parse);
      assert Priority(rules[n]) >= Priority(rules[|rules| - 1]);
    }
  }

  /** Filters the event conditions of a rule, then tests that there is one and all hold. */
  method MatchSimply(rule: Rule, events: seq<Event>, parse: string -> Option<real>) returns (ok: bool)
    ensures ok <==> MatchesSimply(rule, events, parse)
  {
    var cs := rule.conditions;
    var found, all := false, true;
    for n := 0 to |cs|
      invariant found <==> exists i | 0 <= i < n :: cs[i].EventIs?
      invariant all <==> forall i | 0 <= i < n && cs[i].EventIs? :: Met(cs[i], events, parse)
    {
      if cs[n].EventIs? {
        found := true;
        var hit := MatchAnyEvent(events, cs[n], parse);
        all := all && hit;
      }
    }
    return found && all;
  }

  method MatchFirstSimple(rules: seq<Rule>, events: seq<Event>, parse: string -> Option<real>)
    returns (first: Option<Rule>)
    ensures first.None? <==> forall r | r in rules :: !MatchesSimply(r, events, parse)
    ensures first.Some? ==>
              exists n | 0 <= n < |rules| :: first.value == rules[n] && MatchesSimply(rules[n], events, parse)
                && forall i | 0 <= i < n :: !MatchesSimply(rules[i], events, parse)
  {
    for n := 0 to |rules|
      invariant forall i | 0 <= i < n :: !MatchesSimply(rules[i], events, parse)
    {
      var rule := rules[n];
      var hit := MatchSimply(rule, events, parse);
      if hit {
        assert rule in rules;
        return Some(rule);
      }
    }
    return None;
  }

  /** The simple test never misses a rule that fully matches and has a top-level event
      condition; so, over one sorted rule set, what it finds first has at least the
      priority of such a match. */
  lemma SimpleIsNecessary(r: Rule, events: seq<Event>, v: View, parse: string -> Option<real>)
    requires Matches(r, events, v, parse)
    ensures MatchesSimply(r, events, parse) <==> exists i | 0 <= i < |r.conditions| :: r.conditions[i].EventIs?
  {
    forall i | 0 <= i < |r.conditions| && r.conditions[i].EventIs?
      ensures Met(r.conditions[i], events, parse)
    {
      assert Holds(r.conditions[i], events, v, parse);
    }
  }

  predicate IsEvent(c: Condition) {
    c.EventIs?
  }

  /** On every graph the simple test is the full match of the event conditions alone, of which
      there has to be one. */
  lemma SimpleMeans(r: Rule, events: seq<Event>, v: View, parse: string -> Option<real>)
    ensures var cs := Retain(r.conditions, IsEvent);
            MatchesSimply(r, events, parse) <==> cs != [] && MatchesAll(cs, events, v, parse)
  {
    var cs := Retain(r.conditions, IsEvent);
    forall i | 0 <= i < |cs| ensures cs[i] in r.conditions && cs[i].EventIs? {
      RetainHas(r.conditions, IsEvent, cs[i]);
    }
    forall i | 0 <= i < |r.conditions| && r.conditions[i].EventIs? ensures r.conditions[i] in cs {
      RetainHas(r.conditions, IsEvent, r.conditions[i]);
    }
    if MatchesSimply(r, events, parse) {
      forall i | 0 <= i < |cs| ensures Holds(cs[i], events, v, parse) {
        var k :| 0 <= k < |r.conditions| && r.conditions[k] == cs[i];
      }
    }
    if cs != [] && MatchesAll(cs, events, v, parse) {
      var k :| 0 <= k < |r.conditions| && r.conditions[k] == cs[0];
      forall i | 0 <= i < |r.conditions| && r.conditions[i].EventIs?
        ensures Met(r.conditions[i], events, parse)
      {
        var j :| 0 <= j < |cs| && cs[j] == r.conditions[i];
        assert Holds(cs[j], events, v, parse);
      }
    }
  }

  lemma SimpleFindsAsHigh(rules: seq<Rule>, n: nat, m: nat, events: seq<Event>, v: View, parse: string -> Option<real>)
    requires Descending(rules, Priority) && n < |rules| && m < |rules|
    requires Matches(rules[n], events, v, parse)
    requires exists i | 0 <= i < |rules[n].conditions| :: rules[n].conditions[i].EventIs?
    requires forall i | 0 <= i < m :: !MatchesSimply(rules[i], events, parse)
    requires MatchesSimply(rules[m], events, parse)
    ensures m <= n && Priority(rules[m]) >= Priority(rules[n])
  {
    SimpleIsNecessary(rules[n], events, v, parse);
  }
}
