/** Node ids as text (core/src/graph.rs): a namespace prefix and a name whose form
    tells the kind. The graph model uses typed ids; here is exactly when two of them are
    the same text. */
module Naming {
  import opened Events
  import opened Text
  import opened Graph

  /** The name within the namespace. */
  function Name(id: NodeId): string {
    match id
    case ProcessId(_, pid) => "pid-" + Decimal(pid)
    case ResourceId(_, entity) => entity
    case ErrorId(_, entity) => "error-" + entity
    case SignalId(signal, owner) => Join(signal, owner)
  }

  /** The namespace; signals have one of their own. */
  function Space(id: NodeId): Option<string> {
    if id.SignalId? then Some("signal") else id.ns
  }

  function Join(space: string, name: string): string {
    space + "::" + name
  }

  /** The id as the graph stores it. */
  function Render(id: NodeId): string {
    if Space(id).Some? then Join(Space(id).value, Name(id)) else Name(id)
  }

  /** Digits read back as the number they were printed from. */
  lemma {:induction false} DecimalRoundTrip(n: nat)
    ensures Digits(Decimal(n)) == Some(n)
    ensures Decimal(n) != "" && forall i | 0 <= i < |Decimal(n)| :: IsDigit(Decimal(n)[i])
    decreases n
  {
    var d := n % 10;
    assert IsDigit("0123456789"[d]) && "0123456789"[d] as int - '0' as int == d;
    if n < 10 {
      assert Decimal(n)[..0] == "";
    } else {
      DecimalRoundTrip(n / 10);
      assert Decimal(n)[..|Decimal(n)| - 1] == Decimal(n / 10);
    }
  }

  /** A drop event that carries its process only in its name is about that process. */
  lemma ProbePid(e: Event, pid: nat)
    requires e.pid.None? && e.entity == NETWORK_PID_PREFIX + Decimal(pid) && pid < 0x1_0000_0000
    ensures DropPid(e) == pid && TransportEntity(e.entity) == "network"
  {
    DecimalRoundTrip(pid);
    assert e.entity[|NETWORK_PID_PREFIX|..] == Decimal(pid);
    assert Decimal(pid)[0] != '+';
  }

  lemma ProbeText(e: Event, text: string)
    requires e.pid.None? && e.entity == NETWORK_PID_PREFIX + text
    ensures DropPid(e) == if ParseU32(text).Some? then ParseU32(text).value else 0
  {
    assert e.entity[|NETWORK_PID_PREFIX|..] == text;
  }

  /** A sign in front of the number makes no difference. */
  lemma SignedProbePid(e: Event, pid: nat)
    requires e.pid.None? && e.entity == NETWORK_PID_PREFIX + ("+" + Decimal(pid)) && pid < 0x1_0000_0000
    ensures DropPid(e) == pid
  {
    ProbeText(e, "+" + Decimal(pid));
    DecimalRoundTrip(pid);
    assert ("+" + Decimal(pid))[1..] == Decimal(pid);
  }

  /** A number too high for 32 bits is about no process. */
  lemma HugeProbePid(e: Event, pid: nat)
    requires e.pid.None? && e.entity == NETWORK_PID_PREFIX + Decimal(pid) && pid >= 0x1_0000_0000
    ensures DropPid(e) == 0
  {
    ProbeText(e, Decimal(pid));
    DecimalRoundTrip(pid);
    assert Decimal(pid)[0] != '+';
  }

  /** Neither is a name without a number. */
  lemma JunkProbePid(e: Event, text: string, i: nat)
    requires e.pid.None? && e.entity == NETWORK_PID_PREFIX + text
    requires text == "" || text == "+" || (1 <= i < |text| && !IsDigit(text[i]))
    ensures DropPid(e) == 0
  {
    ProbeText(e, text);
    if text != "" && text != "+" {
      NotDigits(text, i);
      NotDigits(text[1..], i - 1);
    }
  }

  lemma {:induction false} NotDigits(s: string, i: nat)
    requires i < |s| && !IsDigit(s[i])
    ensures Digits(s).None?
  {
    if i < |s| - 1 {
      NotDigits(s[..|s| - 1], i);
    }
  }

  // ---- when two texts with a namespace are the same ----

  /** The longer namespace begins with the shorter one and its separator, which may reach
      into the separator of the longer one. */
  predicate Slips(n: string, m: string) {
    |n| < |m| && n + "::" <= m + ":"
  }

  /** What is left of a joined text behind a namespace that slips. */
  function Behind(n: string, m: string, y: string): string
    requires |n| < |m|
  {
    Join(m, y)[|n| + 2..]
  }

  /** One namespace is read where another was written. */
  predicate Misread(n: string, x: string, m: string, y: string) {
    Slips(n, m) && x == Behind(n, m, y)
  }

  lemma MisreadMeets(n: string, x: string, m: string, y: string)
    requires |n| < |m|
    ensures Join(n, x) == Join(m, y) <==> Misread(n, x, m, y)
  {
    var a, b, k := Join(n, x), Join(m, y), |n| + 2;
    assert a[..k] == n + "::" && a[k..] == x && a == a[..k] + a[k..];
    assert b[..|m| + 1] == m + ":" && b == b[..k] + b[k..];
    assert b[..k] == (m + ":")[..k];
  }

  /** Two texts with namespaces are the same exactly when their parts are, or one is
      misread as the other. */
  lemma JoinsMeetIff(n: string, x: string, m: string, y: string)
    ensures Join(n, x) == Join(m, y) <==> (n == m && x == y) || Misread(n, x, m, y) || Misread(m, y, n, x)
  {
    if |n| < |m| {
      MisreadMeets(n, x, m, y);
    } else if |m| < |n| {
      MisreadMeets(m, y, n, x);
    } else if Join(n, x) == Join(m, y) {
      assert n == Join(n, x)[..|n|] && m == Join(m, y)[..|m|];
      assert x == Join(n, x)[|n| + 2..] && y == Join(m, y)[|m| + 2..];
    }
  }

  /** Two namespaces have a text in common exactly when they are the same or one slips. */
  lemma SpacesMeetIff(n: string, m: string)
    ensures (exists x, y :: Join(n, x) == Join(m, y)) <==> n == m || Slips(n, m) || Slips(m, n)
  {
    if x, y :| Join(n, x) == Join(m, y) {
      JoinsMeetIff(n, x, m, y);
    }
    if n == m {
      assert Join(n, "") == Join(m, "");
    } else if Slips(n, m) {
      JoinsMeetIff(n, Behind(n, m, ""), m, "");
    } else if Slips(m, n) {
      JoinsMeetIff(n, "", m, Behind(m, n, ""));
    }
  }

  // ---- when two names of one namespace are the same ----

  lemma NameForm(id: NodeId)
    requires id.ProcessId? || id.ErrorId?
    ensures Name(id) != "" && Name(id)[0] == (if id.ProcessId? then 'p' else 'e')
  {}

  /** Names of one kind that are the same text are of one thing; of two kinds only a
      resource can be called like something else. */
  lemma NamesMeetIff(a: NodeId, b: NodeId)
    requires !a.SignalId? && !b.SignalId? && a.ns == b.ns
    ensures Name(a) == Name(b) <==>
            || a == b
            || (a.ResourceId? && a.entity == Name(b))
            || (b.ResourceId? && b.entity == Name(a))
  {
    if !a.ResourceId? && !b.ResourceId? && Name(a) == Name(b) {
      NameForm(a);
      NameForm(b);
      if a.ProcessId? {
        DecimalRoundTrip(a.pid);
        DecimalRoundTrip(b.pid);
        assert Name(a)[4..] == Decimal(a.pid) && Name(b)[4..] == Decimal(b.pid);
      } else {
        assert Name(a)[6..] == a.entity && Name(b)[6..] == b.entity;
      }
    }
  }

  /** The name of `a`, which has no namespace, looks like the whole text of `b`. */
  predicate Poses(a: NodeId, b: NodeId) {
    Space(a).None? && Space(b).Some? && Name(a) == Join(Space(b).value, Name(b))
  }

  /** Both have namespaces, and that of `a` is read in the text of `b`. */
  predicate Overlaps(a: NodeId, b: NodeId) {
    Space(a).Some? && Space(b).Some? && Misread(Space(a).value, Name(a), Space(b).value, Name(b))
  }

  /** Within one namespace, the resource `a` is called what `b` is called, or two signals
      are misread, or a signal is read as an error of an agent called `signal`. */
  predicate Namesakes(a: NodeId, b: NodeId) {
    && Space(a) == Space(b)
    && (|| (a.ResourceId? && a.entity == Name(b))
        || (a.SignalId? && b.SignalId? && Misread(a.signal, a.owner, b.signal, b.owner))
        || (a.SignalId? && b.ErrorId? && Join(a.signal, a.owner) == "error-" + b.entity))
  }

  /** Exactly when two ids are the same text. */
  lemma RenderMeetsIff(a: NodeId, b: NodeId)
    ensures Render(a) == Render(b) <==>
            || a == b
            || Namesakes(a, b) || Namesakes(b, a)
            || Poses(a, b) || Poses(b, a)
            || Overlaps(a, b) || Overlaps(b, a)
  {
    if Space(a).Some? && Space(b).Some? {
      JoinsMeetIff(Space(a).value, Name(a), Space(b).value, Name(b));
    }
    if Space(a) == Space(b) {
      SameSpaceMeetsIff(a, b);
    }
  }

  lemma SignalHasColon(id: NodeId)
    ensures id.SignalId? ==> ':' in Name(id)
    ensures id.ProcessId? ==> ':' !in Name(id)
  {
    if id.SignalId? {
      assert Name(id)[|id.signal|] == ':';
    } else if id.ProcessId? {
      DecimalRoundTrip(id.pid);
    }
  }

  lemma SameSpaceMeetsIff(a: NodeId, b: NodeId)
    requires Space(a) == Space(b)
    ensures Name(a) == Name(b) <==> a == b || Namesakes(a, b) || Namesakes(b, a)
  {
    if a.SignalId? && b.SignalId? {
      JoinsMeetIff(a.signal, a.owner, b.signal, b.owner);
    } else if !a.SignalId? && !b.SignalId? {
      NamesMeetIff(a, b);
    } else {
      SignalHasColon(a);
      SignalHasColon(b);
    }
  }

  /** Ids can be the same text: a resource called like an error, an entity that looks like
      a namespace and a name. */
  lemma NamesCollide(ns: Option<string>, x: string)
    ensures Render(ResourceId(ns, "error-" + x)) == Render(ErrorId(ns, x))
    ensures Render(ResourceId(None, "n::" + x)) == Render(ResourceId(Some("n"), x))
  {
    assert Join("n", x) == "n::" + x;
  }

  // ---- names that are easy to keep apart ----

  /** Different ids of the set are different texts. */
  ghost predicate Apart(ids: set<NodeId>) {
    forall a, b | a in ids && b in ids && Render(a) == Render(b) :: a == b
  }

  /** No resource is called like a process or an error, no agent is called `signal`, and
      what has no namespace has no separator in its name. */
  predicate Proper(id: NodeId) {
    match id
    case ProcessId(ns, _) => ns != Some("signal")
    case ResourceId(ns, entity) =>
      && ns != Some("signal") && !StartsWith(entity, "pid-") && !StartsWith(entity, "error-")
      && (ns.None? ==> !Contains(entity, "::"))
    case ErrorId(ns, entity) => ns != Some("signal") && (ns.None? ==> !Contains(entity, "::"))
    case SignalId(_, _) => true
  }

  /** Their namespaces do not slip, nor do their signals. */
  predicate SpacesApart(a: NodeId, b: NodeId) {
    && (Space(a).Some? && Space(b).Some? ==> !Slips(Space(a).value, Space(b).value))
    && (a.SignalId? && b.SignalId? ==> !Slips(a.signal, b.signal))
  }

  lemma JoinHasSeparator(n: string, x: string)
    ensures OccursAt(Join(n, x), "::", |n|)
  {
    assert Join(n, x)[|n|..|n| + 2] == "::";
  }

  /** Only an entity can put a separator into a name. */
  lemma SeparatorInName(id: NodeId, k: nat)
    requires !id.SignalId? && OccursAt(Name(id), "::", k)
    ensures !id.ProcessId? && Contains(id.entity, "::")
  {
    var name := Name(id);
    assert name[k] == name[k..k + 2][0] && name[k] == ':';
    if id.ErrorId? {
      assert name[k..k + 2] == id.entity[k - 6..k - 4];
      assert OccursAt(id.entity, "::", k - 6);
    } else {
      SignalHasColon(id);
    }
  }

  lemma NameStarts(id: NodeId)
    ensures id.ProcessId? ==> StartsWith(Name(id), "pid-")
    ensures id.ErrorId? ==> StartsWith(Name(id), "error-")
  {
    assert id.ProcessId? ==> Name(id)[..4] == "pid-";
    assert id.ErrorId? ==> Name(id)[..6] == "error-";
  }

  /** Proper ids whose namespaces do not slip are the same text only if they are the same. */
  lemma ProperIsApart(a: NodeId, b: NodeId)
    requires Proper(a) && Proper(b) && SpacesApart(a, b) && SpacesApart(b, a) && Render(a) == Render(b)
    ensures a == b
  {
    RenderMeetsIff(a, b);
    NameStarts(a);
    NameStarts(b);
    if Poses(a, b) {
      JoinHasSeparator(Space(b).value, Name(b));
      SeparatorInName(a, |Space(b).value|);
    } else if Poses(b, a) {
      JoinHasSeparator(Space(a).value, Name(a));
      SeparatorInName(b, |Space(a).value|);
    }
  }

  /** A namespace without `::` and without a colon at its end slips under no other. */
  lemma SeparatorNeeded(n: string, m: string)
    requires Slips(n, m)
    ensures Contains(m + ":", "::")
  {
    assert (m + ":")[..|n| + 2] == n + "::";
    assert OccursAt(m + ":", "::", |n|);
  }
}
