/** Wildcard patterns (core/src/rules/matcher.rs). `Glob` is the declarative
    meaning of a pattern; `MatchesSinglePattern` is the greedy leftmost scan the
    matcher runs, proved to decide it. */
module Glob {
  import opened Text

  /** `*` stands for any string, the empty one included; every other character
      for itself. */
  predicate Glob(t: string, p: string)
    decreases p
  {
    if p == "" then t == ""
    else if p[0] == '*' then exists k | 0 <= k <= |t| :: Glob(t[k..], p[1..])
    else t != "" && t[0] == p[0] && Glob(t[1..], p[1..])
  }

  /** The alternatives of a pattern: its `|`-separated pieces, trimmed. */
  predicate GlobAny(t: string, p: string) {
    exists i | 0 <= i < |Split(p, '|')| :: Glob(t, Trim(Split(p, '|')[i]))
  }

  /** A value pattern holds when some non-blank alternative occurs in the text. */
  predicate ValuePattern(t: string, p: string) {
    exists i | 0 <= i < |Split(p, '|')| ::
      Trim(Split(p, '|')[i]) != "" && Contains(t, Trim(Split(p, '|')[i]))
  }

  // ---- the meaning of a pattern in terms of its literal parts ----

  function NonEmpty(parts: seq<string>): seq<string> {
    if parts == [] then []
    else (if parts[0] == "" then [] else [parts[0]]) + NonEmpty(parts[1..])
  }

  /** From position `c` on, `t` is matched by `parts` with a `*` before each of
      them, and one after the last unless the pattern is anchored at its end. */
  ghost predicate Floating(t: string, c: nat, parts: seq<string>, anchored: bool)
    decreases |parts|
  {
    if parts == [] then
      !anchored || c == |t|
    else if |parts| == 1 && anchored then
      c + |parts[0]| <= |t| && EndsWith(t, parts[0])
    else
      exists k: nat :: c <= k && OccursAt(t, parts[0], k)
                       && Floating(t, k + |parts[0]|, parts[1..], anchored)
  }

  lemma {:induction false} LiteralPrefix(t: string, lit: string, p: string)
    requires '*' !in lit
    ensures Glob(t, lit + p) <==> StartsWith(t, lit) && Glob(t[|lit|..], p)
  {
    if lit == "" {
      assert lit + p == p;
    } else {
      assert (lit + p)[1..] == lit[1..] + p;
      if t != "" && t[0] == lit[0] {
        LiteralPrefix(t[1..], lit[1..], p);
        if |lit| <= |t| {
          assert t[1..][|lit| - 1..] == t[|lit|..];
          assert t[..|lit|] == [t[0]] + t[1..][..|lit| - 1];
          assert lit == [lit[0]] + lit[1..];
        }
      } else if |lit| <= |t| {
        assert t[..|lit|][0] == t[0];
      }
    }
  }

  /** A literal pattern matches its own text only. */
  lemma LiteralOnly(t: string, lit: string)
    requires '*' !in lit
    ensures Glob(t, lit) <==> t == lit
  {
    LiteralPrefix(t, lit, "");
    assert lit + "" == lit;
    if StartsWith(t, lit) {
      assert t == t[..|lit|] + t[|lit|..];
    }
  }

  /** The first segment occurs at `k` and the others float behind it. */
  ghost predicate Lands(t: string, k: nat, segs: seq<string>)
    requires |segs| > 1
  {
    OccursAt(t, segs[0], k) && Floating(t, k + |segs[0]|, NonEmpty(segs[1..]), segs[|segs| - 1] != "")
  }

  /** After a `*`, a pattern means a floating match of its non-empty parts. */
  lemma {:induction false} StarMeansFloating(t: string, c: nat, segs: seq<string>)
    requires c <= |t| && |segs| > 0
    requires forall i | 0 <= i < |segs| :: '*' !in segs[i]
    ensures Glob(t[c..], "*" + Join(segs, '*'))
       <==> Floating(t, c, NonEmpty(segs), segs[|segs| - 1] != "")
    decreases |segs|, 1
  {
    StarSkips(t, c, Join(segs, '*'));
    if |segs| == 1 {
      StarThenLiteral(t, c, segs);
    } else {
      forall k | c <= k <= |t| ensures Glob(t[k..], Join(segs, '*')) <==> Lands(t, k, segs) {
        JoinLands(t, k, segs);
      }
      StarStep(t, c, segs);
    }
  }

  lemma StarThenLiteral(t: string, c: nat, segs: seq<string>)
    requires c <= |t| && |segs| == 1 && '*' !in segs[0]
    ensures (exists k | c <= k <= |t| :: Glob(t[k..], Join(segs, '*')))
       <==> Floating(t, c, NonEmpty(segs), segs[0] != "")
  {
    var lit := segs[0];
    assert NonEmpty(segs[1..]) == [];
    forall k | c <= k <= |t| ensures Glob(t[k..], lit) <==> t[k..] == lit {
      LiteralOnly(t[k..], lit);
    }
    if c + |lit| <= |t| && EndsWith(t, lit) {
      assert Glob(t[|t| - |lit|..], lit);
    }
  }

  lemma {:induction false} JoinLands(t: string, k: nat, segs: seq<string>)
    requires k <= |t| && |segs| > 1
    requires forall i | 0 <= i < |segs| :: '*' !in segs[i]
    ensures Glob(t[k..], Join(segs, '*')) <==> Lands(t, k, segs)
    decreases |segs|, 0
  {
    var lit, rest := segs[0], "*" + Join(segs[1..], '*');
    assert Join(segs, '*') == lit + rest;
    LiteralPrefix(t[k..], lit, rest);
    OccursInSuffix(t, k, lit, 0);
    if OccursAt(t, lit, k) {
      assert t[k..][|lit|..] == t[k + |lit|..];
      StarMeansFloating(t, k + |lit|, segs[1..]);
    }
  }

  lemma StarSkips(t: string, c: nat, p: string)
    requires c <= |t|
    ensures Glob(t[c..], "*" + p) <==> exists k | c <= k <= |t| :: Glob(t[k..], p)
  {
    assert ("*" + p)[1..] == p;
    if Glob(t[c..], "*" + p) {
      var k :| 0 <= k <= |t[c..]| && Glob(t[c..][k..], p);
      assert t[c..][k..] == t[c + k..];
    }
    if k :| c <= k <= |t| && Glob(t[k..], p) {
      assert t[c..][k - c..] == t[k..];
      assert 0 <= k - c <= |t[c..]| && Glob(t[c..][k - c..], ("*" + p)[1..]);
    }
  }

  /** The step of `StarMeansFloating`: prefixing one more segment. */
  lemma StarStep(t: string, c: nat, segs: seq<string>)
    requires c <= |t| && |segs| > 1
    ensures (exists k | c <= k <= |t| :: Lands(t, k, segs))
       <==> Floating(t, c, NonEmpty(segs), segs[|segs| - 1] != "")
  {
    if segs[0] == "" {
      StarThenStar(t, c, segs);
    } else {
      StarThenPart(t, c, segs);
    }
  }

  lemma StarThenStar(t: string, c: nat, segs: seq<string>)
    requires c <= |t| && |segs| > 1 && segs[0] == ""
    ensures (exists k | c <= k <= |t| :: Lands(t, k, segs))
       <==> Floating(t, c, NonEmpty(segs), segs[|segs| - 1] != "")
  {
    var parts, anchored := NonEmpty(segs[1..]), segs[|segs| - 1] != "";
    LastIsAnchor(segs[1..]);
    assert NonEmpty(segs) == parts;
    if k :| c <= k <= |t| && Lands(t, k, segs) {
      FloatingMonotone(t, c, k, parts, anchored);
    }
    if Floating(t, c, parts, anchored) {
      assert Lands(t, c, segs);
    }
  }

  lemma StarThenPart(t: string, c: nat, segs: seq<string>)
    requires c <= |t| && |segs| > 1 && segs[0] != ""
    ensures (exists k | c <= k <= |t| :: Lands(t, k, segs))
       <==> Floating(t, c, NonEmpty(segs), segs[|segs| - 1] != "")
  {
    var lit, parts, anchored := segs[0], NonEmpty(segs[1..]), segs[|segs| - 1] != "";
    LastIsAnchor(segs[1..]);
    assert NonEmpty(segs) == [lit] + parts;
    assert ([lit] + parts)[1..] == parts;
    FloatingStep(t, c, lit, parts, anchored);
    if k :| Follows(t, c, lit, parts, anchored, k) {
      assert Lands(t, k, segs);
    }
    if k :| c <= k <= |t| && Lands(t, k, segs) {
      assert Follows(t, c, lit, parts, anchored, k);
    }
  }

  /** `lit` occurs at `k`, not before `c`, and the parts float behind it. */
  ghost predicate Follows(t: string, c: nat, lit: string, parts: seq<string>, anchored: bool, k: nat) {
    c <= k && OccursAt(t, lit, k) && Floating(t, k + |lit|, parts, anchored)
  }

  lemma FloatingStep(t: string, c: nat, lit: string, parts: seq<string>, anchored: bool)
    requires anchored ==> parts != []
    ensures Floating(t, c, [lit] + parts, anchored) <==> exists k: nat :: Follows(t, c, lit, parts, anchored, k)
  {
    var all := [lit] + parts;
    assert all[1..] == parts;
    if Floating(t, c, all, anchored) {
      var k: nat :| c <= k && OccursAt(t, all[0], k) && Floating(t, k + |all[0]|, all[1..], anchored);
      assert Follows(t, c, lit, parts, anchored, k);
    }
    if k: nat :| Follows(t, c, lit, parts, anchored, k) {
      assert c <= k && OccursAt(t, all[0], k) && Floating(t, k + |all[0]|, all[1..], anchored);
    }
  }

  /** A floating match may start earlier. */
  lemma FloatingMonotone(t: string, c: nat, d: nat, parts: seq<string>, anchored: bool)
    requires c <= d && (parts == [] ==> !anchored)
    requires Floating(t, d, parts, anchored)
    ensures Floating(t, c, parts, anchored)
  {
    if parts != [] && !(|parts| == 1 && anchored) {
      var lit, rest := parts[0], parts[1..];
      assert parts == [lit] + rest;
      FloatingStep(t, d, lit, rest, anchored);
      FloatingStep(t, c, lit, rest, anchored);
      var k: nat :| Follows(t, d, lit, rest, anchored, k);
      assert Follows(t, c, lit, rest, anchored, k);
    }
  }

  /** If the last segment is not empty it is the last part. */
  lemma {:induction false} LastIsAnchor(segs: seq<string>)
    requires |segs| > 0
    ensures var parts := NonEmpty(segs); var last := segs[|segs| - 1];
            last != "" ==> parts != [] && parts[|parts| - 1] == last
  {
    if |segs| > 1 {
      LastIsAnchor(segs[1..]);
    }
  }

  /** The leftmost occurrence is a place where the first part may go. */
  lemma LeftmostIsThere(t: string, c: nat, lit: string, rest: seq<string>, anchored: bool)
    requires c <= |t| && Find(t[c..], lit).Some? && (anchored ==> rest != [])
    requires Floating(t, c + Find(t[c..], lit).value + |lit|, rest, anchored)
    ensures Floating(t, c, [lit] + rest, anchored)
  {
    var f := Find(t[c..], lit);
    OccursInSuffix(t, c, lit, f.value);
    FloatingStep(t, c, lit, rest, anchored);
    assert Follows(t, c, lit, rest, anchored, c + f.value);
  }

  /** If the first part may go anywhere, it may go to the leftmost occurrence. */
  lemma LeftmostWillDo(t: string, c: nat, lit: string, rest: seq<string>, anchored: bool)
    requires c <= |t| && (anchored ==> rest != []) && Floating(t, c, [lit] + rest, anchored)
    ensures var f := Find(t[c..], lit); f.Some? && Floating(t, c + f.value + |lit|, rest, anchored)
  {
    FloatingStep(t, c, lit, rest, anchored);
    var k: nat :| Follows(t, c, lit, rest, anchored, k);
    LeftmostFollows(t, c, lit, rest, anchored, k);
  }

  /** Taking the leftmost occurrence loses no match. */
  lemma GreedyIsComplete(t: string, c: nat, parts: seq<string>, anchored: bool)
    requires c <= |t| && parts != []
    requires anchored ==> |parts| > 1
    ensures Floating(t, c, parts, anchored) <==>
            var f := Find(t[c..], parts[0]);
            f.Some? && Floating(t, c + f.value + |parts[0]|, parts[1..], anchored)
  {
    var lit, rest, f := parts[0], parts[1..], Find(t[c..], parts[0]);
    assert parts == [lit] + rest;
    if Floating(t, c, parts, anchored) {
      LeftmostWillDo(t, c, lit, rest, anchored);
    } else if f.Some? && Floating(t, c + f.value + |lit|, rest, anchored) {
      LeftmostIsThere(t, c, lit, rest, anchored);
    }
  }

  lemma LeftmostFollows(t: string, c: nat, lit: string, rest: seq<string>, anchored: bool, k: nat)
    requires c <= |t| && (rest == [] ==> !anchored) && Follows(t, c, lit, rest, anchored, k)
    ensures var f := Find(t[c..], lit); f.Some? && Floating(t, c + f.value + |lit|, rest, anchored)
  {
    var f := Find(t[c..], lit);
    OccursInSuffix(t, c, lit, k - c);
    assert f.Some? && f.value <= k - c;
    FloatingMonotone(t, c + f.value + |lit|, k + |lit|, rest, anchored);
  }

  /** If the last part occurs at all, the suffix test decides an anchored end,
      because the suffix cannot start before the leftmost occurrence. */
  lemma SuffixDecides(t: string, c: nat, last: string)
    requires c <= |t|
    ensures Floating(t, c, [last], true) <==> Find(t[c..], last).Some? && EndsWith(t, last)
  {
    if c + |last| <= |t| && EndsWith(t, last) {
      OccursInSuffix(t, c, last, |t| - |last| - c);
    }
  }

  /** What a starred pattern means in terms of its anchors and its parts. */
  ghost predicate PartsMatch(t: string, parts: seq<string>, anchoredStart: bool, anchoredEnd: bool)
    requires parts != []
  {
    if anchoredStart then StartsWith(t, parts[0]) && Floating(t, |parts[0]|, parts[1..], anchoredEnd)
    else Floating(t, 0, parts, anchoredEnd)
  }

  lemma PatternShape(t: string, p: string)
    requires '*' in p
    ensures var parts, anchored := NonEmpty(Split(p, '*')), p[|p| - 1] != '*';
            && (parts == [] ==> Glob(t, p))
            && (parts != [] ==> (Glob(t, p) <==> PartsMatch(t, parts, p[0] != '*', anchored)))
            && (parts != [] && anchored && p[0] != '*' ==> |parts| > 1)
  {
    var segs := Split(p, '*');
    SplitJoin(p, '*');
    var lit, rest := segs[0], segs[1..];
    assert forall i | 0 <= i < |rest| :: rest[i] == segs[i + 1];
    JoinEnd(segs);
    LastIsAnchor(rest);
    assert p == lit + ("*" + Join(rest, '*'));
    LiteralPrefix(t, lit, "*" + Join(rest, '*'));
    if lit == "" {
      assert NonEmpty(segs) == NonEmpty(rest);
      StarMeansFloating(t, 0, rest);
      assert t[0..] == t;
    } else {
      assert p[0] == lit[0];
      assert NonEmpty(segs)[1..] == NonEmpty(rest);
      if StartsWith(t, lit) {
        StarMeansFloating(t, |lit|, rest);
      }
    }
  }

  /** The scan of one pattern over one text. */
  method MatchesSinglePattern(text: string, pattern: string) returns (ok: bool)
    ensures ok <==> Glob(text, pattern)
  {
    if pattern == "" {
      return text == "";
    }
    if pattern == "*" {
      assert Glob(text[|text|..], pattern[1..]);
      return true;
    }
    if '*' !in pattern {
      LiteralOnly(text, pattern);
      return text == pattern;
    }
    var anchoredStart := pattern[0] != '*';
    var anchoredEnd := pattern[|pattern| - 1] != '*';
    var parts := NonEmpty(Split(pattern, '*'));
    PatternShape(text, pattern);
    if parts == [] {
      return true;
    }
    ok := ScanParts(text, parts, anchoredStart, anchoredEnd);
  }

  /** The cursor loop of the scan. */
  method ScanParts(text: string, parts: seq<string>, anchoredStart: bool, anchoredEnd: bool) returns (ok: bool)
    requires parts != []
    requires anchoredStart && anchoredEnd ==> |parts| > 1
    ensures ok <==> PartsMatch(text, parts, anchoredStart, anchoredEnd)
  {
    var cursor, idx := 0, 0;
    ghost var goal := PartsMatch(text, parts, anchoredStart, anchoredEnd);
    assert parts[0..] == parts;
    while idx < |parts|
      invariant 0 <= idx <= |parts| && 0 <= cursor <= |text|
      invariant idx == 0 ==> cursor == 0
      invariant idx < |parts| && (idx > 0 || !anchoredStart) ==>
          goal == Floating(text, cursor, parts[idx..], anchoredEnd)
      invariant idx == |parts| ==>
          goal == (anchoredEnd ==> EndsWith(text, parts[|parts| - 1]))
    {
      var part := parts[idx];
      assert parts[idx..][1..] == parts[idx + 1..];
      if idx == 0 && anchoredStart {
        assert text[0..] == text;
        if !StartsWith(text[cursor..], part) {
          return false;
        }
        cursor := cursor + |part|;
      } else {
        if idx + 1 == |parts| && anchoredEnd {
          assert parts[idx..] == [part];
          SuffixDecides(text, cursor, part);
        } else {
          GreedyIsComplete(text, cursor, parts[idx..], anchoredEnd);
        }
        var found := Find(text[cursor..], part);
        if found.None? {
          return false;
        }
        cursor := cursor + found.value + |part|;
      }
      idx := idx + 1;
    }

    if anchoredEnd {
      return EndsWith(text, parts[|parts| - 1]);
    }
    return true;
  }

  /** The last character of a joined pattern is a separator exactly when the last
      segment is empty. */
  lemma {:induction false} JoinEnd(segs: seq<string>)
    requires |segs| > 1
    requires forall i | 0 <= i < |segs| :: '*' !in segs[i]
    ensures var p := Join(segs, '*'); p != "" && (p[|p| - 1] == '*' <==> segs[|segs| - 1] == "")
  {
    var last := segs[|segs| - 1];
    if |segs| == 2 {
      assert Join(segs, '*') == segs[0] + "*" + last;
      assert last != "" ==> last[|last| - 1] in last;
    } else {
      JoinEnd(segs[1..]);
    }
  }

  /** Any `|`-separated alternative, trimmed, may match. */
  method MatchesPattern(text: string, pattern: string) returns (ok: bool)
    ensures ok <==> GlobAny(text, pattern)
  {
    var alternatives := Split(pattern, '|');
    for i := 0 to |alternatives|
      invariant forall j | 0 <= j < i :: !Glob(text, Trim(alternatives[j]))
    {
      var hit := MatchesSinglePattern(text, Trim(alternatives[i]));
      if hit {
        return true;
      }
    }
    return false;
  }

  // ---- laws of patterns ----

  /** A word of a pattern: no star, no bar, and no blank at its ends. */
  predicate Plain(w: string) {
    '*' !in w && '|' !in w && (w != "" ==> !IsSpace(w[0]) && !IsSpace(w[|w| - 1]))
  }

  /** Alternatives are joined by a bar. */
  lemma EitherPattern(t: string, a: string, b: string)
    requires '|' !in a
    ensures GlobAny(t, a + "|" + b) <==> Glob(t, Trim(a)) || GlobAny(t, b)
    ensures ValuePattern(t, a + "|" + b) <==> (Trim(a) != "" && Contains(t, Trim(a))) || ValuePattern(t, b)
  {
    var rest := Split(b, '|');
    var all := [a] + rest;
    assert a + ['|'] + b == a + "|" + b;
    SplitFirst(a, '|', b);
    assert all[0] == a && forall i | 0 <= i < |rest| :: all[i + 1] == rest[i];
    assert forall i | 1 <= i < |all| :: all[i] == rest[i - 1];
  }

  lemma SinglePattern(t: string, p: string)
    requires '|' !in p
    ensures GlobAny(t, p) <==> Glob(t, Trim(p))
    ensures ValuePattern(t, p) <==> Trim(p) != "" && Contains(t, Trim(p))
  {
    SplitNone(p, '|');
    assert Split(p, '|')[0] == p;
  }

  /** A word by itself stands for itself; a star behind it lets anything follow; a star alone
      takes everything. As a value pattern a word asks to occur. */
  lemma PatternLaws(t: string, w: string)
    requires Plain(w)
    ensures GlobAny(t, w) <==> t == w
    ensures GlobAny(t, "*")
    ensures GlobAny(t, w + "*") <==> StartsWith(t, w)
    ensures ValuePattern(t, w) <==> w != "" && Contains(t, w)
  {
    TrimNone(w);
    SinglePattern(t, w);
    SinglePattern(t, "*");
    TrimNone("*");
    StarTakesAll(t);
    LiteralOnly(t, w);
    assert w + "*" != "" && (w + "*")[0] == if w == "" then '*' else w[0];
    TrimNone(w + "*");
    SinglePattern(t, w + "*");
    LiteralPrefix(t, w, "*");
    if StartsWith(t, w) {
      StarTakesAll(t[|w|..]);
    }
  }

  /** A star in front of a word lets anything precede it, and stars around it anything
      surround it. */
  lemma StarLaws(t: string, w: string)
    requires Plain(w) && w != ""
    ensures GlobAny(t, "*" + w) <==> EndsWith(t, w)
    ensures GlobAny(t, "*" + w + "*") <==> Contains(t, w)
  {
    TrimNone("*" + w);
    TrimNone("*" + w + "*");
    SinglePattern(t, "*" + w);
    SinglePattern(t, "*" + w + "*");
    StarBefore(t, w);
    StarsAround(t, w);
  }

  lemma StarBefore(t: string, w: string)
    requires '*' !in w
    ensures Glob(t, "*" + w) <==> EndsWith(t, w)
  {
    assert ("*" + w)[1..] == w;
    forall k | 0 <= k <= |t| ensures Glob(t[k..], w) <==> t[k..] == w {
      LiteralOnly(t[k..], w);
    }
    if k :| 0 <= k <= |t| && t[k..] == w {
      assert k == |t| - |w|;
    }
    if EndsWith(t, w) {
      assert Glob(t[|t| - |w|..], ("*" + w)[1..]);
    }
  }

  lemma StarsAround(t: string, w: string)
    requires '*' !in w
    ensures Glob(t, "*" + w + "*") <==> Contains(t, w)
  {
    var p := "*" + w + "*";
    assert p[1..] == w + "*";
    forall k | 0 <= k <= |t| ensures Glob(t[k..], p[1..]) <==> OccursAt(t, w, k) {
      LiteralPrefix(t[k..], w, "*");
      if StartsWith(t[k..], w) {
        StarTakesAll(t[k..][|w|..]);
        assert t[k..][..|w|] == t[k..k + |w|];
      }
      if OccursAt(t, w, k) {
        assert t[k..][..|w|] == t[k..k + |w|];
      }
    }
  }

  lemma StarTakesAll(t: string)
    ensures Glob(t, "*")
  {
    assert "*"[1..] == "";
    assert Glob(t[|t|..], "*"[1..]);
  }
}
