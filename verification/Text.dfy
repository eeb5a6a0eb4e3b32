/** The string operations the pipeline takes from the standard library:
    trimming, splitting and substring search. */
module Text {
  import opened Events

  predicate StartsWith(t: string, p: string) {
    |p| <= |t| && t[..|p|] == p
  }

  predicate EndsWith(t: string, p: string) {
    |p| <= |t| && t[|t| - |p|..] == p
  }

  predicate OccursAt(t: string, p: string, k: nat) {
    k + |p| <= |t| && t[k..k + |p|] == p
  }

  predicate Contains(t: string, p: string) {
    exists k | 0 <= k <= |t| :: OccursAt(t, p, k)
  }

  /** Position of the leftmost occurrence of `p` in `t`. */
  function Find(t: string, p: string): (r: Option<nat>)
    ensures r.Some? ==> OccursAt(t, p, r.value) && forall k: nat | k < r.value :: !OccursAt(t, p, k)
    ensures r.None? ==> forall k: nat :: !OccursAt(t, p, k)
  {
    if StartsWith(t, p) then
      Some(0)
    else if t == "" then
      None
    else
      var r := Find(t[1..], p);
      assert forall k: nat | k > 0 :: OccursAt(t, p, k) == OccursAt(t[1..], p, k - 1) by {
        forall k: nat | k > 0
          ensures OccursAt(t, p, k) == OccursAt(t[1..], p, k - 1)
        {
          OccursInSuffix(t, 1, p, k - 1);
        }
      }
      assert !OccursAt(t, p, 0);
      match r
      case Some(k) => Some(k + 1)
      case None => None
  }

  /** Unicode `White_Space`, the class that `str::trim` strips. */
  predicate IsSpace(c: char) {
    || '\t' <= c <= '\r'
    || c == ' '
    || c == '\U{85}'
    || c == '\U{A0}'
    || c == '\U{1680}'
    || '\U{2000}' <= c <= '\U{200A}'
    || c == '\U{2028}'
    || c == '\U{2029}'
    || c == '\U{202F}'
    || c == '\U{205F}'
    || c == '\U{3000}'
  }

  function TrimStart(s: string): string {
    if s != "" && IsSpace(s[0]) then TrimStart(s[1..]) else s
  }

  function TrimEnd(s: string): string {
    if s != "" && IsSpace(s[|s| - 1]) then TrimEnd(s[..|s| - 1]) else s
  }

  function Trim(s: string): string {
    TrimEnd(TrimStart(s))
  }

  predicate AllSpace(s: string) {
    forall i | 0 <= i < |s| :: IsSpace(s[i])
  }

  lemma {:induction false} TrimStartIs(s: string)
    ensures var r := TrimStart(s);
            && |r| <= |s| && s[|s| - |r|..] == r && AllSpace(s[..|s| - |r|])
            && (r != "" ==> !IsSpace(r[0]))
  {
    if s != "" && IsSpace(s[0]) {
      TrimStartIs(s[1..]);
      var n := |s| - |TrimStart(s[1..])|;
      assert s[1..][n - 1..] == s[n..] && s[..n] == [s[0]] + s[1..][..n - 1];
    }
  }

  lemma {:induction false} TrimEndIs(s: string)
    ensures var r := TrimEnd(s);
            && |r| <= |s| && s[..|r|] == r && AllSpace(s[|r|..])
            && (r != "" ==> !IsSpace(r[|r| - 1]))
  {
    if s != "" && IsSpace(s[|s| - 1]) {
      var front := s[..|s| - 1];
      TrimEndIs(front);
      var n := |TrimEnd(front)|;
      assert front[..n] == s[..n] && s[n..] == front[n..] + [s[|s| - 1]];
    }
  }

  /** `r` is `s` without `n` blanks in front and some blanks behind. */
  predicate Stripped(s: string, r: string, n: nat) {
    n + |r| <= |s| && s[n..n + |r|] == r && AllSpace(s[..n]) && AllSpace(s[n + |r|..])
  }

  /** Trimming takes off blanks at both ends and nothing else. */
  lemma TrimIs(s: string)
    ensures exists n: nat :: Stripped(s, Trim(s), n)
    ensures var r := Trim(s); r != "" ==> !IsSpace(r[0]) && !IsSpace(r[|r| - 1])
  {
    var t := TrimStart(s);
    var r := TrimEnd(t);
    TrimStartIs(s);
    TrimEndIs(t);
    var n: nat := |s| - |t|;
    assert s[n..n + |r|] == t[..|r|] && s[n + |r|..] == t[|r|..];
    assert Stripped(s, Trim(s), n);
    assert r != "" ==> r[0] == t[0];
  }

  lemma StrippedBlank(s: string, n: nat)
    requires Stripped(s, "", n)
    ensures AllSpace(s)
  {
    forall i | 0 <= i < |s| ensures IsSpace(s[i]) {
      if i < n {
        assert s[..n][i] == s[i];
      } else {
        assert s[n..][i - n] == s[i];
      }
    }
  }

  /** A text without blanks at its ends is left as it is. */
  lemma TrimNone(s: string)
    requires s != "" ==> !IsSpace(s[0]) && !IsSpace(s[|s| - 1])
    ensures Trim(s) == s
  {}

  lemma BlankIsSpace(s: string)
    requires Trim(s) == ""
    ensures AllSpace(s)
  {
    TrimIs(s);
    var n: nat :| Stripped(s, Trim(s), n);
    StrippedBlank(s, n);
  }

  lemma NotBlank(s: string, i: nat)
    requires i < |s| && !IsSpace(s[i])
    ensures Trim(s) != ""
  {
    if Trim(s) == "" {
      BlankIsSpace(s);
    }
  }

  /** The pieces of `s` between occurrences of `c`; never empty. */
  function Split(s: string, c: char): (r: seq<string>)
    ensures |r| > 0
  {
    if s == "" then [""]
    else
      var r := Split(s[1..], c);
      if s[0] == c then [""] + r else [[s[0]] + r[0]] + r[1..]
  }

  function Join(parts: seq<string>, c: char): string
    requires |parts| > 0
  {
    if |parts| == 1 then parts[0] else parts[0] + [c] + Join(parts[1..], c)
  }

  /** `Split` loses nothing and its pieces are separator-free, so it is the
      inverse of `Join`. */
  lemma {:induction false} SplitJoin(s: string, c: char)
    ensures Join(Split(s, c), c) == s
    ensures forall i | 0 <= i < |Split(s, c)| :: c !in Split(s, c)[i]
    ensures |Split(s, c)| > 1 <==> c in s
  {
    if s != "" {
      var r := Split(s[1..], c);
      SplitJoin(s[1..], c);
      assert s == [s[0]] + s[1..];
      if s[0] == c {
        assert ([""] + r)[1..] == r;
      } else {
        JoinHead(s[0], r, c);
      }
    }
  }

  lemma JoinHead(x: char, r: seq<string>, c: char)
    requires |r| > 0
    ensures Join([[x] + r[0]] + r[1..], c) == [x] + Join(r, c)
  {
    assert ([[x] + r[0]] + r[1..])[1..] == r[1..];
  }

  /** Splitting at the first separator. */
  lemma {:induction false} SplitFirst(a: string, c: char, b: string)
    requires c !in a
    ensures Split(a + [c] + b, c) == [a] + Split(b, c)
  {
    var s := a + [c] + b;
    if a == "" {
      assert s[1..] == b;
    } else {
      assert s[1..] == a[1..] + [c] + b;
      SplitFirst(a[1..], c, b);
      assert [a[0]] + a[1..] == a;
      assert ([a[1..]] + Split(b, c))[1..] == Split(b, c);
    }
  }

  lemma {:induction false} SplitNone(s: string, c: char)
    requires c !in s
    ensures Split(s, c) == [s]
  {
    if s != "" {
      SplitNone(s[1..], c);
      assert [s[0]] + s[1..] == s;
    }
  }

  /** Positions in a suffix of a text. */
  lemma OccursInSuffix(t: string, c: nat, p: string, k: nat)
    requires c <= |t|
    ensures OccursAt(t[c..], p, k) == OccursAt(t, p, c + k)
  {
    if c + k + |p| <= |t| {
      assert t[c..][k..k + |p|] == t[c + k..c + k + |p|];
    }
  }
}
