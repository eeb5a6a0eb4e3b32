/** Guarded execution of diagnosis policies (hub/src/main.rs): a concurrency limit, a
    cooldown per node and action, and a cap on actions per request. */
module ExecuteGuard {
  import opened Events
  import opened Text
  import opened Seqs

  /** What the process report of a request says about one process. */
  datatype ProcessInfo = ProcessInfo(nodeId: Option<string>, pid: Option<nat>)

  datatype PolicyAction = PolicyAction(node: string, pid: nat, action: string)

  const U32_RANGE: nat := 0x1_0000_0000

  function ActionFor(scenes: seq<string>): string {
    if exists i | 0 <= i < |scenes| :: Contains(scenes[i], "physical_degradation") then "KillProcess"
    else "GracefulShutdown"
  }

  predicate Named(p: ProcessInfo) {
    p.nodeId.Some? && p.pid.Some?
  }

  /** One action per process that names its node and pid, in the order of the processes;
      the pid is cut to 32 bits. */
  function BuildPolicy(scenes: seq<string>, processes: seq<ProcessInfo>): (r: seq<PolicyAction>)
    ensures var named := Retain(processes, Named);
            && |r| == |named|
            && (forall i | 0 <= i < |r| :: Some(r[i].node) == named[i].nodeId && named[i].pid.Some?
                  && r[i].pid == named[i].pid.value % U32_RANGE && r[i].action == ActionFor(scenes))
  {
    if processes == [] then []
    else
      var p := processes[|processes| - 1];
      BuildPolicy(scenes, processes[..|processes| - 1])
      + (if p.nodeId.Some? && p.pid.Some?
         then [PolicyAction(p.nodeId.value, p.pid.value % U32_RANGE, ActionFor(scenes))] else [])
  }

  /** Processes are killed if and only if some scene is a physical degradation; otherwise they
      are shut down gracefully. */
  lemma KillsIff(scenes: seq<string>, processes: seq<ProcessInfo>, i: nat)
    requires i < |BuildPolicy(scenes, processes)|
    ensures var a := BuildPolicy(scenes, processes)[i].action;
            && (a == "KillProcess" <==> exists s | s in scenes :: Contains(s, "physical_degradation"))
            && (a == "KillProcess" || a == "GracefulShutdown")
  {
    if s :| s in scenes && Contains(s, "physical_degradation") {
      var k :| 0 <= k < |scenes| && scenes[k] == s;
    }
    assert "KillProcess"[0] != "GracefulShutdown"[0];
  }

  /** Every process that names its node and pid gets its action. */
  lemma {:induction false} PolicyCovers(scenes: seq<string>, processes: seq<ProcessInfo>, p: ProcessInfo)
    requires p in processes && Named(p)
    ensures PolicyAction(p.nodeId.value, p.pid.value % U32_RANGE, ActionFor(scenes)) in BuildPolicy(scenes, processes)
  {
    if p in processes[..|processes| - 1] {
      PolicyCovers(scenes, processes[..|processes| - 1], p);
    } else {
      assert p == processes[|processes| - 1];
    }
  }

  function Max1(n: nat): (r: nat)
    ensures r >= 1 && r >= n && (r == 1 || r == n)
  {
    if n == 0 then 1 else n
  }

  /** Seconds to milliseconds, saturating at 64 bits. */
  function SatMul1000(s: nat): (r: nat)
    ensures r <= U64_MAX && (s * 1000 <= U64_MAX ==> r == s * 1000) && (s * 1000 > U64_MAX ==> r == U64_MAX)
  {
    if s * 1000 < U64_MAX then s * 1000 else U64_MAX
  }

  function Trimmed(policy: seq<PolicyAction>, maxActions: nat): (r: seq<PolicyAction>)
    ensures r <= policy && |r| <= Max1(maxActions) && (|r| == |policy| || |r| == Max1(maxActions))
  {
    if |policy| <= Max1(maxActions) then policy else policy[..Max1(maxActions)]
  }

  function CooldownKey(node: string, action: string): string {
    node + "::" + action
  }

  /** Checks the cooldown of a key and, if it is over, starts a new one. */
  function Check(last: map<string, nat>, key: string, now: nat, cooldown: nat): (map<string, nat>, bool) {
    if key in last && SatSub(now, last[key]) < cooldown then (last, false) else (last[key := now], true)
  }

  // ---- which actions of one request are granted ----

  function KeyOf(a: PolicyAction): string {
    CooldownKey(a.node, a.action)
  }

  /** The cooldown of the key is over. */
  predicate Rested(last: map<string, nat>, key: string, now: nat, cooldown: nat) {
    key in last ==> SatSub(now, last[key]) >= cooldown
  }

  /** The n-th action is due: its cooldown was over when the request began and no earlier
      action of the request has its key; without a cooldown every action is. */
  predicate Due(last: map<string, nat>, policy: seq<PolicyAction>, n: nat, now: nat, cooldown: nat)
    requires n < |policy|
  {
    cooldown == 0 || (Rested(last, KeyOf(policy[n]), now, cooldown)
                      && forall m | 0 <= m < n :: KeyOf(policy[m]) != KeyOf(policy[n]))
  }

  /** The actions that are due, in order. */
  function DueOnes(last: map<string, nat>, policy: seq<PolicyAction>, now: nat, cooldown: nat): seq<PolicyAction> {
    if policy == [] then []
    else
      var n := |policy| - 1;
      DueOnes(last, policy[..n], now, cooldown) + (if Due(last, policy, n, now, cooldown) then [policy[n]] else [])
  }

  /** The table after the checks for a policy. */
  function Checked(last: map<string, nat>, policy: seq<PolicyAction>, now: nat, cooldown: nat): map<string, nat> {
    if policy == [] then last
    else
      var n := |policy| - 1;
      Check(Checked(last, policy[..n], now, cooldown), KeyOf(policy[n]), now, cooldown).0
  }

  /** A key of the policy that was rested is recorded as of now; no other changes. */
  lemma {:induction false} CheckedIs(last: map<string, nat>, policy: seq<PolicyAction>, now: nat, cooldown: nat,
                                     key: string)
    requires cooldown > 0
    ensures var last' := Checked(last, policy, now, cooldown);
            if Rested(last, key, now, cooldown) && exists m | 0 <= m < |policy| :: KeyOf(policy[m]) == key
            then key in last' && last'[key] == now
            else (key in last' <==> key in last) && (key in last ==> last'[key] == last[key])
  {
    if policy != [] {
      var n := |policy| - 1;
      CheckedIs(last, policy[..n], now, cooldown, key);
      if m :| 0 <= m < n && KeyOf(policy[m]) == key {
        assert KeyOf(policy[..n][m]) == key;
      }
    }
  }

  /** The check grants an action exactly when it is due. */
  lemma GrantedIffDue(last: map<string, nat>, policy: seq<PolicyAction>, n: nat, now: nat, cooldown: nat)
    requires n < |policy|
    ensures Check(Checked(last, policy[..n], now, cooldown), KeyOf(policy[n]), now, cooldown).1
       <==> Due(last, policy, n, now, cooldown)
  {
    if cooldown > 0 {
      CheckedIs(last, policy[..n], now, cooldown, KeyOf(policy[n]));
      assert forall m | 0 <= m < n :: policy[..n][m] == policy[m];
    }
  }

  class Guard {
    const cooldown: nat
    const maxActions: nat
    const limit: nat
    var available: nat
    var lastAction: map<string, nat>

    constructor (maxConcurrency: nat, cooldownS: nat, maxActions: nat)
      ensures limit == available == Max1(maxConcurrency) && lastAction == map[]
      ensures cooldown == SatMul1000(cooldownS) && this.maxActions == Max1(maxActions)
    {
      limit, available := Max1(maxConcurrency), Max1(maxConcurrency);
      cooldown, this.maxActions, lastAction := SatMul1000(cooldownS), Max1(maxActions), map[];
    }

    method TryAcquire() returns (ok: bool)
      modifies this`available
      ensures ok <==> old(available) > 0
      ensures available == old(available) - (if ok then 1 else 0)
    {
      ok := available > 0;
      if ok {
        available := available - 1;
      }
    }

    method Release()
      modifies this`available
      ensures available == old(available) + 1
    {
      available := available + 1;
    }

    method CheckAndRecordCooldown(node: string, action: string, now: nat) returns (ok: bool)
      modifies this`lastAction
      ensures (lastAction, ok) == Check(old(lastAction), CooldownKey(node, action), now, cooldown)
    {
      var key := node + "::" + action;
      if key in lastAction {
        var prev := lastAction[key];
        if SatSub(now, prev) < cooldown {
          return false;
        }
      }
      lastAction := lastAction[key := now];
      return true;
    }

    /** The loop over the actions of a request: commands go out for exactly those due. */
    method SendDue(policy: seq<PolicyAction>, now: nat) returns (sent: seq<PolicyAction>)
      modifies this`lastAction
      ensures sent == DueOnes(old(lastAction), policy, now, cooldown)
      ensures lastAction == Checked(old(lastAction), policy, now, cooldown)
    {
      sent := [];
      for n := 0 to |policy|
        invariant sent == DueOnes(old(lastAction), policy[..n], now, cooldown)
        invariant lastAction == Checked(old(lastAction), policy[..n], now, cooldown)
      {
        assert policy[..n + 1][..n] == policy[..n] && policy[..n + 1][n] == policy[n];
        GrantedIffDue(old(lastAction), policy[..n + 1], n, now, cooldown);
        var granted := CheckAndRecordCooldown(policy[n].node, policy[n].action, now);
        if granted {
          sent := sent + [policy[n]];
        }
      }
      assert policy[..|policy|] == policy;
    }

    /** One request that holds its permit. With a cooldown it sends at most one command per
        node. */
    method Execute(scenes: seq<string>, processes: seq<ProcessInfo>, now: nat) returns (sent: seq<PolicyAction>)
      modifies this`lastAction
      ensures var policy := Trimmed(BuildPolicy(scenes, processes), maxActions);
              && sent == DueOnes(old(lastAction), policy, now, cooldown)
              && lastAction == Checked(old(lastAction), policy, now, cooldown)
      ensures |sent| <= Max1(maxActions)
      ensures cooldown > 0 ==> OnePerNode(sent) && Later(old(lastAction), lastAction)
      ensures forall a | a in sent :: Recorded(a, now, lastAction)
    {
      var trimmed := Trimmed(BuildPolicy(scenes, processes), maxActions);
      TrimmedIsOneAction(scenes, processes, maxActions);
      DueOnesAre(lastAction, trimmed, now, cooldown);
      sent := SendDue(trimmed, now);
    }
  }

  predicate OnePerNode(sent: seq<PolicyAction>) {
    forall i, j | 0 <= i < j < |sent| :: sent[i].node != sent[j].node
  }

  predicate Recorded(a: PolicyAction, now: nat, last: map<string, nat>) {
    CooldownKey(a.node, a.action) in last && last[CooldownKey(a.node, a.action)] >= now
  }

  /** No key goes back in time. */
  predicate Later(last: map<string, nat>, last': map<string, nat>) {
    forall k | k in last :: k in last' && last[k] <= last'[k]
  }

  predicate OneAction(policy: seq<PolicyAction>) {
    forall a, b | a in policy && b in policy :: a.action == b.action
  }

  lemma TrimmedIsOneAction(scenes: seq<string>, processes: seq<ProcessInfo>, maxActions: nat)
    ensures OneAction(Trimmed(BuildPolicy(scenes, processes), maxActions))
  {
    var all := BuildPolicy(scenes, processes);
    var policy := Trimmed(all, maxActions);
    forall a | a in policy ensures a.action == ActionFor(scenes) {
      var i :| 0 <= i < |policy| && policy[i] == a;
      assert all[i] == a;
    }
  }

  lemma {:induction false} DueOnesIn(last: map<string, nat>, policy: seq<PolicyAction>, now: nat, cooldown: nat)
    ensures var due, last' := DueOnes(last, policy, now, cooldown), Checked(last, policy, now, cooldown);
            && |due| <= |policy|
            && (forall a | a in due :: a in policy && Recorded(a, now, last'))
            && (cooldown > 0 ==> Later(last, last'))
  {
    if policy != [] {
      var n := |policy| - 1;
      DueOnesIn(last, policy[..n], now, cooldown);
      GrantedIffDue(last, policy, n, now, cooldown);
    }
  }

  /** Actions of one kind that have one node have one key, and only the first is due. */
  lemma {:induction false} DueOnesDiffer(last: map<string, nat>, policy: seq<PolicyAction>, now: nat, cooldown: nat)
    requires OneAction(policy) && cooldown > 0
    ensures OnePerNode(DueOnes(last, policy, now, cooldown))
  {
    if policy != [] {
      var n := |policy| - 1;
      DueOnesDiffer(last, policy[..n], now, cooldown);
      DueOnesIn(last, policy[..n], now, cooldown);
      if Due(last, policy, n, now, cooldown) {
        forall a | a in DueOnes(last, policy[..n], now, cooldown) ensures a.node != policy[n].node {
          var m :| 0 <= m < n && policy[..n][m] == a;
          assert KeyOf(policy[m]) != KeyOf(policy[n]) && policy[m].action == policy[n].action;
        }
      }
    }
  }

  /** What goes out for one request: with a cooldown one command per node; every grant is
      recorded, and no record goes back in time. */
  lemma DueOnesAre(last: map<string, nat>, policy: seq<PolicyAction>, now: nat, cooldown: nat)
    requires OneAction(policy)
    ensures var due, last' := DueOnes(last, policy, now, cooldown), Checked(last, policy, now, cooldown);
            && |due| <= |policy|
            && (forall a | a in due :: Recorded(a, now, last'))
            && (cooldown > 0 ==> OnePerNode(due) && Later(last, last'))
  {
    DueOnesIn(last, policy, now, cooldown);
    if cooldown > 0 {
      DueOnesDiffer(last, policy, now, cooldown);
    }
  }

  // ---- all interleavings of concurrent requests ----

  /** A request: its trimmed policy and clock reading, how far it got and what it
      sent. */
  datatype Request =
    | Waiting(policy: seq<PolicyAction>, now: nat)
    | Running(policy: seq<PolicyAction>, now: nat, next: nat, sent: seq<PolicyAction>)
    | Done(sent: seq<PolicyAction>)
    | Refused

  datatype Grant = Grant(key: string, at: nat)

  datatype System = System(last: map<string, nat>, available: nat, requests: seq<Request>, grants: seq<Grant>)

  datatype Limits = Limits(concurrency: nat, cooldown: nat, maxActions: nat)

  /** A request may be dropped at any time, which gives its permit back. */
  datatype Step =
    | Arrive(scenes: seq<string>, processes: seq<ProcessInfo>, now: nat)
    | Acquire(who: nat)
    | Act(who: nat)
    | Finish(who: nat)
    | Abort(who: nat)

  function Boot(l: Limits): System {
    System(map[], Max1(l.concurrency), [], [])
  }

  function ActOn(s: System, i: nat, l: Limits): System
    requires i < |s.requests| && s.requests[i].Running? && s.requests[i].next < |s.requests[i].policy|
  {
    var r := s.requests[i];
    var a := r.policy[r.next];
    var key := CooldownKey(a.node, a.action);
    var (last, ok) := Check(s.last, key, r.now, l.cooldown);
    s.(last := last,
       requests := s.requests[i := r.(next := r.next + 1, sent := if ok then r.sent + [a] else r.sent)],
       grants := if ok then s.grants + [Grant(key, r.now)] else s.grants)
  }

  function Next(s: System, step: Step, l: Limits): System {
    match step
    case Arrive(scenes, processes, now) =>
      s.(requests := s.requests + [Waiting(Trimmed(BuildPolicy(scenes, processes), l.maxActions), now)])
    case Acquire(i) =>
      if i < |s.requests| && s.requests[i].Waiting? then
        var r := s.requests[i];
        if s.available > 0
        then s.(available := s.available - 1, requests := s.requests[i := Running(r.policy, r.now, 0, [])])
        else s.(requests := s.requests[i := Refused])
      else s
    case Act(i) =>
      if i < |s.requests| && s.requests[i].Running? && s.requests[i].next < |s.requests[i].policy|
      then ActOn(s, i, l) else s
    case Finish(i) =>
      if i < |s.requests| && s.requests[i].Running? && s.requests[i].next >= |s.requests[i].policy|
      then s.(available := s.available + 1, requests := s.requests[i := Done(s.requests[i].sent)]) else s
    case Abort(i) =>
      if i < |s.requests| && s.requests[i].Running?
      then s.(available := s.available + 1, requests := s.requests[i := Done(s.requests[i].sent)])
      else if i < |s.requests| && s.requests[i].Waiting? then s.(requests := s.requests[i := Refused])
      else s
  }

  function Exec(steps: seq<Step>, l: Limits): System {
    if steps == [] then Boot(l) else Next(Exec(steps[..|steps| - 1], l), steps[|steps| - 1], l)
  }

  function Holders(requests: seq<Request>): nat {
    if requests == [] then 0
    else Holders(requests[..|requests| - 1]) + (if requests[|requests| - 1].Running? then 1 else 0)
  }

  /** What a request keeps to, whatever the others do. */
  predicate Behaves(r: Request, last: map<string, nat>, l: Limits) {
    match r
    case Waiting(policy, _) => OneAction(policy) && |policy| <= Max1(l.maxActions)
    case Running(policy, now, next, sent) =>
      && OneAction(policy) && |policy| <= Max1(l.maxActions) && next <= |policy| && |sent| <= next
      && (l.cooldown > 0 ==>
           OnePerNode(sent) && forall a | a in sent :: a in policy && Recorded(a, now, last))
    case Done(sent) => |sent| <= Max1(l.maxActions) && (l.cooldown > 0 ==> OnePerNode(sent))
    case Refused => true
  }

  /** The last recorded time of a key is that of its latest grant, and grants of one
      key are a cooldown apart. */
  predicate Spaced(grants: seq<Grant>, last: map<string, nat>, cooldown: nat) {
    && (forall i, j | 0 <= i < j < |grants| && grants[i].key == grants[j].key ::
          grants[i].at + cooldown <= grants[j].at)
    && (forall i | 0 <= i < |grants| :: grants[i].key in last && grants[i].at <= last[grants[i].key])
  }

  predicate Guarded(s: System, l: Limits) {
    && s.available + Holders(s.requests) == Max1(l.concurrency)
    && (l.cooldown > 0 ==> Spaced(s.grants, s.last, l.cooldown))
    && (forall i | 0 <= i < |s.requests| :: Behaves(s.requests[i], s.last, l))
  }

  lemma {:induction false} HoldersUpdate(requests: seq<Request>, i: nat, r: Request)
    requires i < |requests|
    ensures Holders(requests[i := r]) + (if requests[i].Running? then 1 else 0)
         == Holders(requests) + (if r.Running? then 1 else 0)
  {
    var front := requests[..|requests| - 1];
    if i == |requests| - 1 {
      assert requests[i := r][..|requests| - 1] == front;
    } else {
      assert requests[i := r][..|requests| - 1] == front[i := r];
      HoldersUpdate(front, i, r);
    }
  }

  lemma CheckGrows(last: map<string, nat>, key: string, now: nat, cooldown: nat)
    requires cooldown > 0
    ensures var (last', ok) := Check(last, key, now, cooldown);
            && Later(last, last')
            && (ok && key in last ==> last[key] + cooldown <= now)
            && (ok ==> key in last' && last'[key] == now)
            && (!ok ==> last' == last)
  {}

  lemma BehavesLater(r: Request, last: map<string, nat>, last': map<string, nat>, l: Limits)
    requires Behaves(r, last, l) && (l.cooldown > 0 ==> Later(last, last'))
    ensures Behaves(r, last', l)
  {
    if r.Running? && l.cooldown > 0 {
      forall a | a in r.sent ensures Recorded(a, r.now, last') {
        assert Recorded(a, r.now, last);
      }
    }
  }

  lemma SpacedNext(grants: seq<Grant>, last: map<string, nat>, key: string, now: nat, cooldown: nat)
    requires cooldown > 0 && Spaced(grants, last, cooldown)
    ensures var (last', ok) := Check(last, key, now, cooldown);
            Spaced(if ok then grants + [Grant(key, now)] else grants, last', cooldown)
  {
    CheckGrows(last, key, now, cooldown);
  }

  /** The acting request: a node it has already commanded is refused. */
  lemma ActBehaves(r: Request, last: map<string, nat>, l: Limits)
    requires r.Running? && r.next < |r.policy| && Behaves(r, last, l)
    ensures var a := r.policy[r.next];
            var (last', ok) := Check(last, CooldownKey(a.node, a.action), r.now, l.cooldown);
            Behaves(r.(next := r.next + 1, sent := if ok then r.sent + [a] else r.sent), last', l)
  {
    var a := r.policy[r.next];
    var (last', ok) := Check(last, CooldownKey(a.node, a.action), r.now, l.cooldown);
    if l.cooldown > 0 {
      CheckGrows(last, CooldownKey(a.node, a.action), r.now, l.cooldown);
      BehavesLater(r, last, last', l);
      forall b | b in r.sent && ok ensures b.node != a.node {
        assert Recorded(b, r.now, last) && b.action == a.action;
      }
    }
  }

  lemma ActKeepsGuarded(s: System, i: nat, l: Limits)
    requires Guarded(s, l)
    requires i < |s.requests| && s.requests[i].Running? && s.requests[i].next < |s.requests[i].policy|
    ensures Guarded(ActOn(s, i, l), l)
  {
    var r, s' := s.requests[i], ActOn(s, i, l);
    var a := r.policy[r.next];
    HoldersUpdate(s.requests, i, s'.requests[i]);
    if l.cooldown > 0 {
      SpacedNext(s.grants, s.last, CooldownKey(a.node, a.action), r.now, l.cooldown);
      CheckGrows(s.last, CooldownKey(a.node, a.action), r.now, l.cooldown);
    }
    ActBehaves(r, s.last, l);
    forall k | 0 <= k < |s'.requests| ensures Behaves(s'.requests[k], s'.last, l) {
      if k != i {
        BehavesLater(s.requests[k], s.last, s'.last, l);
      }
    }
  }

  lemma ArrivalBehaves(scenes: seq<string>, processes: seq<ProcessInfo>, now: nat, last: map<string, nat>, l: Limits)
    ensures Behaves(Waiting(Trimmed(BuildPolicy(scenes, processes), l.maxActions), now), last, l)
  {
    TrimmedIsOneAction(scenes, processes, l.maxActions);
  }

  lemma ArriveKeepsGuarded(s: System, r: Request, l: Limits)
    requires Guarded(s, l) && r.Waiting? && Behaves(r, s.last, l)
    ensures Guarded(s.(requests := s.requests + [r]), l)
  {
    assert (s.requests + [r])[..|s.requests|] == s.requests;
  }

  /** A request changes hands with the permits. */
  lemma SwapKeepsGuarded(s: System, i: nat, r: Request, available: nat, l: Limits)
    requires Guarded(s, l) && i < |s.requests| && Behaves(r, s.last, l)
    requires available + (if r.Running? then 1 else 0) == s.available + (if s.requests[i].Running? then 1 else 0)
    ensures Guarded(s.(requests := s.requests[i := r], available := available), l)
  {
    HoldersUpdate(s.requests, i, r);
  }

  lemma NextKeepsGuarded(s: System, step: Step, l: Limits)
    requires Guarded(s, l)
    ensures Guarded(Next(s, step, l), l)
  {
    match step
    case Arrive(scenes, processes, now) =>
      ArrivalBehaves(scenes, processes, now, s.last, l);
      ArriveKeepsGuarded(s, Waiting(Trimmed(BuildPolicy(scenes, processes), l.maxActions), now), l);
    case Acquire(i) =>
      if i < |s.requests| && s.requests[i].Waiting? {
        var r := s.requests[i];
        if s.available > 0 {
          SwapKeepsGuarded(s, i, Running(r.policy, r.now, 0, []), s.available - 1, l);
        } else {
          SwapKeepsGuarded(s, i, Refused, s.available, l);
        }
      }
    case Act(i) =>
      if i < |s.requests| && s.requests[i].Running? && s.requests[i].next < |s.requests[i].policy| {
        ActKeepsGuarded(s, i, l);
      }
    case Finish(i) =>
      if i < |s.requests| && s.requests[i].Running? && s.requests[i].next >= |s.requests[i].policy| {
        SwapKeepsGuarded(s, i, Done(s.requests[i].sent), s.available + 1, l);
      }
    case Abort(i) =>
      if i < |s.requests| && s.requests[i].Running? {
        SwapKeepsGuarded(s, i, Done(s.requests[i].sent), s.available + 1, l);
      } else if i < |s.requests| && s.requests[i].Waiting? {
        SwapKeepsGuarded(s, i, Refused, s.available, l);
      }
  }

  /** Over all interleavings of concurrent requests, whatever their clocks: at most
      the limit (at least 1) hold a permit and a request sends at most the allowed
      number of commands; with a cooldown, grants of one node and action are that far
      apart and a request sends at most one command per node. */
  lemma {:induction false} AllRunsAreGuarded(steps: seq<Step>, l: Limits)
    ensures var s := Exec(steps, l);
            && Guarded(s, l)
            && Holders(s.requests) <= Max1(l.concurrency)
            && (l.cooldown > 0 ==>
                 forall i, j | 0 <= i < j < |s.grants| && s.grants[i].key == s.grants[j].key ::
                   s.grants[i].at + l.cooldown <= s.grants[j].at)
            && (forall i | 0 <= i < |s.requests| && (s.requests[i].Running? || s.requests[i].Done?) ::
                  |s.requests[i].sent| <= Max1(l.maxActions) && (l.cooldown > 0 ==> OnePerNode(s.requests[i].sent)))
  {
    if steps != [] {
      AllRunsAreGuarded(steps[..|steps| - 1], l);
      NextKeepsGuarded(Exec(steps[..|steps| - 1], l), steps[|steps| - 1], l);
    }
    var s := Exec(steps, l);
    forall i | 0 <= i < |s.requests| && (s.requests[i].Running? || s.requests[i].Done?)
      ensures |s.requests[i].sent| <= Max1(l.maxActions) && (l.cooldown > 0 ==> OnePerNode(s.requests[i].sent))
    {
      assert Behaves(s.requests[i], s.last, l);
    }
  }

  // ---- a request on its own ----

  /** Request `i` acts `n` times in a row. */
  function Acts(s: System, i: nat, n: nat, l: Limits): System {
    if n == 0 then s else Next(Acts(s, i, n - 1, l), Act(i), l)
  }

  lemma DueNext(last: map<string, nat>, policy: seq<PolicyAction>, n: nat, now: nat, cooldown: nat)
    requires n < |policy|
    ensures var (last', ok) := Check(Checked(last, policy[..n], now, cooldown), KeyOf(policy[n]), now, cooldown);
            && Checked(last, policy[..n + 1], now, cooldown) == last'
            && DueOnes(last, policy[..n + 1], now, cooldown)
               == if ok then DueOnes(last, policy[..n], now, cooldown) + [policy[n]]
                  else DueOnes(last, policy[..n], now, cooldown)
  {
    var done, before := policy[..n + 1], DueOnes(last, policy[..n], now, cooldown);
    assert done[..n] == policy[..n] && done[n] == policy[n] && before + [] == before;
    GrantedIffDue(last, done, n, now, cooldown);
  }

  /** The request after `n` of its actions, if it had begun with the table `last`. */
  function After(r: Request, n: nat, last: map<string, nat>, cooldown: nat): Request
    requires r.Running? && n <= |r.policy|
  {
    Running(r.policy, r.now, n, DueOnes(last, r.policy[..n], r.now, cooldown))
  }

  lemma ActNext(s: System, i: nat, r: Request, n: nat, last: map<string, nat>, l: Limits)
    requires i < |s.requests| && r.Running? && n < |r.policy| && s.requests[i] == After(r, n, last, l.cooldown)
    requires s.last == Checked(last, r.policy[..n], r.now, l.cooldown)
    ensures var t := Next(s, Act(i), l);
            && t.last == Checked(last, r.policy[..n + 1], r.now, l.cooldown) && t.available == s.available
            && t.requests == s.requests[i := After(r, n + 1, last, l.cooldown)]
  {
    DueNext(last, r.policy, n, r.now, l.cooldown);
  }

  lemma {:induction false} ActsAre(s: System, i: nat, n: nat, l: Limits)
    requires i < |s.requests| && s.requests[i].Running? && s.requests[i].next == 0 && s.requests[i].sent == []
    requires n <= |s.requests[i].policy|
    ensures var r, t := s.requests[i], Acts(s, i, n, l);
            && t.last == Checked(s.last, r.policy[..n], r.now, l.cooldown) && t.available == s.available
            && t.requests == s.requests[i := After(r, n, s.last, l.cooldown)]
  {
    var r := s.requests[i];
    if n == 0 {
      assert After(r, 0, s.last, l.cooldown) == r && s.requests[i := r] == s.requests;
    } else {
      ActsAre(s, i, n - 1, l);
      ActNext(Acts(s, i, n - 1, l), i, r, n - 1, s.last, l);
    }
  }

  /** A waiting request that no other interferes with gets a permit, sends exactly the due
      actions of its policy, as one call of `Execute` does, and gives the permit back. */
  lemma AloneIsExecute(s: System, i: nat, l: Limits)
    requires i < |s.requests| && s.requests[i].Waiting? && s.available > 0
    ensures var r := s.requests[i];
            var t := Next(Acts(Next(s, Acquire(i), l), i, |r.policy|, l), Finish(i), l);
            && t.requests == s.requests[i := Done(DueOnes(s.last, r.policy, r.now, l.cooldown))]
            && t.last == Checked(s.last, r.policy, r.now, l.cooldown)
            && t.available == s.available
  {
    var r := s.requests[i];
    assert r.policy[..|r.policy|] == r.policy;
    ActsAre(Next(s, Acquire(i), l), i, |r.policy|, l);
  }

  // ---- every grant is a command ----

  function SentBy(r: Request): seq<PolicyAction> {
    match r
    case Running(_, _, _, sent) => sent
    case Done(sent) => sent
    case _ => []
  }

  /** How many of the commands are for the key. */
  function SentFor(sent: seq<PolicyAction>, key: string): nat {
    if sent == [] then 0
    else SentFor(sent[..|sent| - 1], key) + (if KeyOf(sent[|sent| - 1]) == key then 1 else 0)
  }

  function Total(counts: seq<nat>): nat {
    if counts == [] then 0 else Total(counts[..|counts| - 1]) + counts[|counts| - 1]
  }

  /** How many commands for the key each request has sent. */
  function CountsFor(requests: seq<Request>, key: string): seq<nat> {
    seq(|requests|, i requires 0 <= i < |requests| => SentFor(SentBy(requests[i]), key))
  }

  function AllSentFor(requests: seq<Request>, key: string): nat {
    Total(CountsFor(requests, key))
  }

  function GrantsFor(grants: seq<Grant>, key: string): nat {
    if grants == [] then 0
    else GrantsFor(grants[..|grants| - 1], key) + (if grants[|grants| - 1].key == key then 1 else 0)
  }

  lemma {:induction false} TotalUpdate(counts: seq<nat>, i: nat, n: nat)
    requires i < |counts|
    ensures Total(counts[i := n]) + counts[i] == Total(counts) + n
  {
    var front := counts[..|counts| - 1];
    if i == |counts| - 1 {
      assert counts[i := n][..|counts| - 1] == front;
    } else {
      assert counts[i := n][..|counts| - 1] == front[i := n];
      TotalUpdate(front, i, n);
    }
  }

  lemma AllSentUpdate(requests: seq<Request>, i: nat, r: Request, key: string)
    requires i < |requests|
    ensures AllSentFor(requests[i := r], key) + SentFor(SentBy(requests[i]), key)
         == AllSentFor(requests, key) + SentFor(SentBy(r), key)
  {
    assert CountsFor(requests[i := r], key) == CountsFor(requests, key)[i := SentFor(SentBy(r), key)];
    TotalUpdate(CountsFor(requests, key), i, SentFor(SentBy(r), key));
  }

  /** A request that changes without sending changes no count. */
  lemma SameSent(requests: seq<Request>, i: nat, r: Request, key: string)
    requires i < |requests| && SentBy(r) == SentBy(requests[i])
    ensures AllSentFor(requests[i := r], key) == AllSentFor(requests, key)
  {
    AllSentUpdate(requests, i, r, key);
  }

  lemma SentForNext(sent: seq<PolicyAction>, a: PolicyAction, key: string)
    ensures SentFor(sent + [a], key) == SentFor(sent, key) + (if KeyOf(a) == key then 1 else 0)
  {
    assert (sent + [a])[..|sent|] == sent;
  }

  lemma GrantsForNext(grants: seq<Grant>, g: Grant, key: string)
    ensures GrantsFor(grants + [g], key) == GrantsFor(grants, key) + (if g.key == key then 1 else 0)
  {
    assert (grants + [g])[..|grants|] == grants;
  }

  lemma ActGrants(s: System, i: nat, l: Limits, key: string)
    requires i < |s.requests| && s.requests[i].Running? && s.requests[i].next < |s.requests[i].policy|
    requires GrantsFor(s.grants, key) == AllSentFor(s.requests, key)
    ensures GrantsFor(ActOn(s, i, l).grants, key) == AllSentFor(ActOn(s, i, l).requests, key)
  {
    var r, t := s.requests[i], ActOn(s, i, l);
    var a := r.policy[r.next];
    assert t.requests == s.requests[i := t.requests[i]];
    AllSentUpdate(s.requests, i, t.requests[i], key);
    GrantsForNext(s.grants, Grant(KeyOf(a), r.now), key);
    SentForNext(r.sent, a, key);
  }

  /** Over all interleavings there are as many grants for a node and action as commands were
      sent to that node with that action. */
  lemma {:induction false} GrantsAreSent(steps: seq<Step>, l: Limits, key: string)
    ensures var s := Exec(steps, l); GrantsFor(s.grants, key) == AllSentFor(s.requests, key)
  {
    if steps != [] {
      var s, step := Exec(steps[..|steps| - 1], l), steps[|steps| - 1];
      GrantsAreSent(steps[..|steps| - 1], l, key);
      NextGrants(s, step, l, key);
    }
  }

  lemma NextGrants(s: System, step: Step, l: Limits, key: string)
    requires GrantsFor(s.grants, key) == AllSentFor(s.requests, key)
    ensures var s' := Next(s, step, l); GrantsFor(s'.grants, key) == AllSentFor(s'.requests, key)
  {
    var s' := Next(s, step, l);
    if step.Arrive? {
      assert CountsFor(s'.requests, key) == CountsFor(s.requests, key) + [0];
      assert CountsFor(s'.requests, key)[..|s.requests|] == CountsFor(s.requests, key);
    } else if step.Act? {
      if step.who < |s.requests| && s.requests[step.who].Running?
         && s.requests[step.who].next < |s.requests[step.who].policy| {
        ActGrants(s, step.who, l, key);
      }
    } else if step.who < |s.requests| {
      SameSent(s.requests, step.who, s'.requests[step.who], key);
      assert s'.requests == s.requests[step.who := s'.requests[step.who]];
    }
  }
}
