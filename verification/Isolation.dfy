/** When policies are told apart. The engine keys what it remembers by namespace and name
    (operator/internal/engine/engine.go:90), the alert store by name alone
    (operator/internal/scheduler/scheduler.go:155, 205): a policy is on its own exactly if no
    policy of another namespace bears its name. */
module Isolation {
  import opened GoTypes
  import opened LlmTypes
  import opened AlertMachine
  import opened AlertStore
  import opened Engine
  import opened Scans
  import opened ScanRounds

  /* ---- Keys ---- */

  /** Namespaces have no slash in Kubernetes, so the engine's key tells namespace and name. */
  lemma KeyTellsBoth(a: Policy, b: Policy)
    requires '/' !in a.namespace && '/' !in b.namespace && Key(a) == Key(b)
    ensures a.namespace == b.namespace && a.name == b.name
  {
    var t := Key(a);
    assert t[|a.namespace|] == '/' && t[|b.namespace|] == '/';
    assert forall i | 0 <= i < |a.namespace| :: t[i] == a.namespace[i] != '/';
    assert forall i | 0 <= i < |b.namespace| :: t[i] == b.namespace[i] != '/';
    assert |a.namespace| == |b.namespace|;
    assert a.namespace == t[..|a.namespace|] && b.namespace == t[..|b.namespace|];
    assert a.name == t[|a.namespace| + 1..] && b.name == t[|b.namespace| + 1..];
  }

  /* ---- Alerts without their dates ---- */

  function Kinds(h: seq<Observation>): (ks: seq<bool>)
    ensures |ks| == |h| && forall i | 0 <= i < |ks| :: ks[i] == h[i].Fail?
  {
    seq(|h|, i requires 0 <= i < |h| => h[i].Fail?)
  }

  predicate SameButDates(v: CheckValue, w: CheckValue) {
    v.state == w.state && v.retryCount == w.retryCount
  }

  /** State, retries and notifications of a check depend on its verdicts, not on when they came. */
  lemma {:induction false} DatesDecideNothing(threshold: Int32, g: seq<Observation>, h: seq<Observation>)
    requires Kinds(g) == Kinds(h)
    ensures SameButDates(RunCheck(threshold, g), RunCheck(threshold, h)) && Moves(threshold, g) == Moves(threshold, h)
  {
    assert |g| == |Kinds(g)| == |h|;
    if g != [] {
      var n := |g| - 1;
      assert Kinds(g)[n] == g[n].Fail? && Kinds(h)[n] == h[n].Fail?;
      assert Kinds(g[..n]) == Kinds(g)[..n] && Kinds(h[..n]) == Kinds(h)[..n];
      DatesDecideNothing(threshold, g[..n], h[..n]);
    }
  }

  /* ---- The reports of one name ---- */

  function Only(reports: seq<Report>, name: string): seq<Report> {
    if reports == [] then []
    else
      var last := reports[|reports| - 1];
      Only(reports[..|reports| - 1], name) + (if last.policyRef == name then [last] else [])
  }

  /** The PASS and FAIL reported for a check, in order. */
  function Outcomes(reports: seq<Report>, name: string, id: string): seq<bool> {
    if reports == [] then []
    else
      var last := reports[|reports| - 1];
      Outcomes(reports[..|reports| - 1], name, id)
        + (if Decides(last, name, id) then [last.result.verdict == FAIL] else [])
  }

  lemma {:induction false} OutcomesOfOnly(reports: seq<Report>, name: string, id: string)
    ensures Outcomes(Only(reports, name), name, id) == Outcomes(reports, name, id)
  {
    if reports != [] {
      var front, last := reports[..|reports| - 1], reports[|reports| - 1];
      OutcomesOfOnly(front, name, id);
      if last.policyRef == name {
        assert Only(reports, name)[..|Only(reports, name)| - 1] == Only(front, name);
      } else {
        assert Only(reports, name) == Only(front, name);
      }
    }
  }

  lemma {:induction false} HistoryHasTheOutcomes(reports: seq<Report>, clock: Clock, name: string, id: string)
    ensures Kinds(History(Calls(reports, clock), name, id)) == Outcomes(reports, name, id)
  {
    if reports != [] {
      var front, last := reports[..|reports| - 1], reports[|reports| - 1];
      HistoryHasTheOutcomes(front, clock, name, id);
      var ops := Calls(front, clock);
      var call := CallFor(last.policyRef, last.result, clock(|ops|));
      assert Calls(reports, clock) == ops + Made(call);
      if call.Some? {
        assert (ops + [call.value])[..|ops|] == ops;
      } else {
        assert ops + Made(call) == ops;
      }
    }
  }

  /** Two runs whose reports of one name agree have the same alerts and notifications for it, up
      to dates, whatever else they report. */
  lemma SameReportsSameAlerts(env: Setting, a: seq<Report>, b: seq<Report>, name: string, id: string)
    requires Only(a, name) == Only(b, name)
    ensures var f, g := Weave(NEW_FEED, env.threshold, a, env.clock), Weave(NEW_FEED, env.threshold, b, env.clock);
            && SameButDates(Value(f.alerts, name, id), Value(g.alerts, name, id))
            && MovesOf(Transitions(f.sent), name, id) == MovesOf(Transitions(g.sent), name, id)
  {
    OutcomesOfOnly(a, name, id);
    OutcomesOfOnly(b, name, id);
    HistoryHasTheOutcomes(a, env.clock, name, id);
    HistoryHasTheOutcomes(b, env.clock, name, id);
    WeaveFollows(env.threshold, a, env.clock);
    WeaveFollows(env.threshold, b, env.clock);
    var p, q := Calls(a, env.clock), Calls(b, env.clock);
    ChecksAreIndependent(env.threshold, p, name, id);
    ChecksAreIndependent(env.threshold, q, name, id);
    DatesDecideNothing(env.threshold, History(p, name, id), History(q, name, id));
  }

  /* ---- The rounds of one policy ---- */

  predicate SamePolicy(a: Policy, b: Policy) {
    a.namespace == b.namespace && a.name == b.name
  }

  function OwnRounds<S>(rounds: seq<Round<S>>, p: Policy): seq<Round<S>> {
    if rounds == [] then []
    else
      var last := rounds[|rounds| - 1];
      OwnRounds(rounds[..|rounds| - 1], p) + (if SamePolicy(last.policy, p) then [last] else [])
  }

  /** Two memories are the same for one key. */
  predicate SameAt(m: Memory, n: Memory, key: string) {
    && (key in m.hashes <==> key in n.hashes) && (key in m.hashes ==> m.hashes[key] == n.hashes[key])
    && (key in m.verdicts <==> key in n.verdicts) && (key in m.verdicts ==> m.verdicts[key] == n.verdicts[key])
  }

  lemma ScanUsesOwnKey<S>(digest: string -> string, m: Memory, n: Memory, b: Backend<S>, s: S, p: Policy,
                          checks: seq<CheckItem>)
    requires SameAt(m, n, Key(p))
    ensures var x, y := Scan(digest, m, b, s, p, checks), Scan(digest, n, b, s, p, checks);
            x.results == y.results && SameAt(x.memory, y.memory, Key(p))
  {
  }

  lemma ScanLeavesOtherKeys<S>(digest: string -> string, m: Memory, b: Backend<S>, s: S, p: Policy,
                               checks: seq<CheckItem>, key: string)
    requires key != Key(p)
    ensures SameAt(Scan(digest, m, b, s, p, checks).memory, m, key)
  {
  }

  ghost predicate SameFailing(a: Alerts, b: Alerts, name: string) {
    forall id :: IsFailing(a, name, id) <==> IsFailing(b, name, id)
  }

  lemma {:induction false} SelectedSame(a: Alerts, b: Alerts, name: string, checks: seq<CheckItem>)
    requires SameFailing(a, b, name)
    ensures Selected(a, name, checks) == Selected(b, name, checks)
  {
    if checks != [] {
      SelectedSame(a, b, name, checks[..|checks| - 1]);
    }
  }

  lemma {:induction false} OnlyOfTwo(early: seq<Report>, late: seq<Report>, name: string)
    ensures Only(early + late, name) == Only(early, name) + Only(late, name)
  {
    if late == [] {
      assert early + late == early;
    } else {
      var all, front := early + late, late[..|late| - 1];
      OnlyOfTwo(early, front, name);
      assert all[..|all| - 1] == early + front && all[|all| - 1] == late[|late| - 1];
    }
  }

  lemma {:induction false} OnlyOfOne(policyRef: string, rs: seq<CheckResult>, name: string)
    ensures Only(Reports(policyRef, rs), name) == if policyRef == name then Reports(policyRef, rs) else []
  {
    if rs != [] {
      OnlyOfOne(policyRef, rs[..|rs| - 1], name);
      assert Reports(policyRef, rs)[..|rs| - 1] == Reports(policyRef, rs[..|rs| - 1]);
    }
  }

  lemma OnlyOfMore(reports: seq<Report>, policyRef: string, rs: seq<CheckResult>, name: string)
    ensures Only(reports + Reports(policyRef, rs), name)
         == Only(reports, name) + (if policyRef == name then Reports(policyRef, rs) else [])
  {
    OnlyOfTwo(reports, Reports(policyRef, rs), name);
    OnlyOfOne(policyRef, rs, name);
  }

  /** One more round of the policy itself, after runs that agree on it, reports the same in both. */
  lemma OwnRound<S>(env: Setting, b: Backend<S>, w: World, v: World, r: Round<S>)
    requires SameFailing(w.feed.alerts, v.feed.alerts, r.policy.name) && SameAt(w.memory, v.memory, Key(r.policy))
    ensures ScanRounds.Reported(env, b, w, r) == ScanRounds.Reported(env, b, v, r)
    ensures SameAt(Act(env, b, w, r).memory, Act(env, b, v, r).memory, Key(r.policy))
  {
    SelectedSame(w.feed.alerts, v.feed.alerts, r.policy.name, r.checks);
    assert NoneFailing(w.feed.alerts, r.policy.name) <==> NoneFailing(v.feed.alerts, r.policy.name);
    ScanUsesOwnKey(env.digest, Remembered(w.memory, r), Remembered(v.memory, r), b, r.start, r.policy, ToScan(w.feed.alerts, r));
  }

  lemma ReportsDecideFailing<S>(env: Setting, b: Backend<S>, rounds: seq<Round<S>>, own: seq<Round<S>>, name: string)
    requires Only(RunRounds(env, b, rounds).1, name) == Only(RunRounds(env, b, own).1, name)
    ensures SameFailing(RunRounds(env, b, rounds).0.feed.alerts, RunRounds(env, b, own).0.feed.alerts, name)
  {
    var (w, x) := RunRounds(env, b, rounds);
    var (v, y) := RunRounds(env, b, own);
    RoundsAreWoven(env, b, rounds);
    RoundsAreWoven(env, b, own);
    forall id ensures IsFailing(w.feed.alerts, name, id) <==> IsFailing(v.feed.alerts, name, id) {
      SameReportsSameAlerts(env, x, y, name, id);
    }
  }

  /** No policy of another namespace bears the name. */
  ghost predicate NoNamesake<S>(rounds: seq<Round<S>>, p: Policy) {
    && '/' !in p.namespace
    && (forall r <- rounds :: '/' !in r.policy.namespace && (r.policy.name == p.name ==> r.policy.namespace == p.namespace))
  }

  lemma {:induction false} OwnReports<S>(env: Setting, b: Backend<S>, rounds: seq<Round<S>>, p: Policy)
    requires NoNamesake(rounds, p)
    ensures var (w, x) := RunRounds(env, b, rounds);
            var (v, y) := RunRounds(env, b, OwnRounds(rounds, p));
            Only(x, p.name) == Only(y, p.name) && SameAt(w.memory, v.memory, Key(p))
  {
    if rounds != [] {
      var front, r := rounds[..|rounds| - 1], rounds[|rounds| - 1];
      assert front + [r] == rounds && r in rounds && (forall q <- front :: q in rounds);
      OwnReports(env, b, front, p);
      OneMoreRound(env, b, front, r, p);
    }
  }

  /** In any run of rounds in which no policy of another namespace has the policy's name, what the
      policy reports, what is remembered of it, its alerts and its notifications are those of its
      own rounds alone; only clock readings may differ. */
  lemma OwnRoundsDecide<S>(env: Setting, b: Backend<S>, rounds: seq<Round<S>>, p: Policy, id: string)
    requires NoNamesake(rounds, p)
    ensures var (w, x) := RunRounds(env, b, rounds);
            var (v, y) := RunRounds(env, b, OwnRounds(rounds, p));
            && Only(x, p.name) == Only(y, p.name) && SameAt(w.memory, v.memory, Key(p))
            && SameButDates(Value(w.feed.alerts, p.name, id), Value(v.feed.alerts, p.name, id))
            && MovesOf(Transitions(w.feed.sent), p.name, id) == MovesOf(Transitions(v.feed.sent), p.name, id)
  {
    var own := OwnRounds(rounds, p);
    OwnReports(env, b, rounds, p);
    RoundsAreWoven(env, b, rounds);
    RoundsAreWoven(env, b, own);
    SameReportsSameAlerts(env, RunRounds(env, b, rounds).1, RunRounds(env, b, own).1, p.name, id);
  }

  lemma RunOneMore<S>(env: Setting, b: Backend<S>, rounds: seq<Round<S>>, r: Round<S>)
    ensures var (w, x) := RunRounds(env, b, rounds);
            RunRounds(env, b, rounds + [r]) == (Act(env, b, w, r), x + ScanRounds.Reported(env, b, w, r))
  {
    assert (rounds + [r])[..|rounds|] == rounds;
  }

  lemma OneMoreRound<S>(env: Setting, b: Backend<S>, front: seq<Round<S>>, r: Round<S>, p: Policy)
    requires '/' !in p.namespace && '/' !in r.policy.namespace
    requires r.policy.name == p.name ==> r.policy.namespace == p.namespace
    requires var (w, x) := RunRounds(env, b, front);
             var (v, y) := RunRounds(env, b, OwnRounds(front, p));
             Only(x, p.name) == Only(y, p.name) && SameAt(w.memory, v.memory, Key(p))
    ensures var (w, x) := RunRounds(env, b, front + [r]);
            var (v, y) := RunRounds(env, b, OwnRounds(front + [r], p));
            Only(x, p.name) == Only(y, p.name) && SameAt(w.memory, v.memory, Key(p))
  {
    var own := OwnRounds(front, p);
    var (w, x) := RunRounds(env, b, front);
    var (v, y) := RunRounds(env, b, own);
    assert (front + [r])[..|front|] == front;
    RunOneMore(env, b, front, r);
    OnlyOfRound(env, b, w, r, x, p.name);
    if r.policy.name == p.name {
      RunOneMore(env, b, own, r);
      ReportsDecideFailing(env, b, front, own, p.name);
      OwnRound(env, b, w, v, r);
      OnlyOfRound(env, b, v, r, y, p.name);
    } else {
      assert own + [] == own;
      if Key(r.policy) == Key(p) {
        KeyTellsBoth(r.policy, p);
      }
      ScanLeavesOtherKeys(env.digest, Remembered(w.memory, r), b, r.start, r.policy, ToScan(w.feed.alerts, r), Key(p));
    }
  }

  lemma OnlyOfRound<S>(env: Setting, b: Backend<S>, w: World, r: Round<S>, reports: seq<Report>, name: string)
    ensures Only(reports + ScanRounds.Reported(env, b, w, r), name)
         == Only(reports, name) + (if r.policy.name == name then ScanRounds.Reported(env, b, w, r) else [])
  {
    if Idle(w.feed.alerts, r) {
      OnlyOfMore(reports, r.policy.name, [], name);
    } else {
      OnlyOfMore(reports, r.policy.name, Scanning(env, b, w, r).results, name);
    }
  }

  /* ---- Policies that share a name ---- */

  /** An adapter that gives every check the verdict it is started with; no tool answers. */
  function EchoVerify(v: Verdict): (Verdict, Result<VerifyResponse>) {
    (v, Ok(VerifyResponse(v, "", [])))
  }

  function EchoBatch(v: Verdict, req: BatchRequest): (Verdict, Result<seq<VerifyResponse>>) {
    (v, Ok(seq(|req.checks|, _ => VerifyResponse(v, "", []))))
  }

  function Echo(): Backend<Verdict> {
    Backend((v, name, params) => (v, Err("no tool")), (v, req) => EchoVerify(v), (v, req) => EchoBatch(v, req))
  }

  lemma EchoScan(env: Setting, m: Memory, p: Policy, c: CheckItem, v: Verdict)
    requires Key(p) !in m.hashes
    ensures Scan(env.digest, m, Echo(), v, p, [c]).results == [ResultFor(c, v, "", [])]
    ensures Scan(env.digest, m, Echo(), v, p, [c]).memory.hashes.Keys == m.hashes.Keys + {Key(p)}
  {
    var (s, snapshot) := Collect(Echo(), v, SNAPSHOT_TOOLS);
    EchoCollects(v, SNAPSHOT_TOOLS);
    assert [c][..1] == [c] && [c][1..] == [];
    var (t, r) := RunOne(Echo(), v, c, p.targetNamespaces, snapshot);
    assert RunBatch(Echo(), v, [c], p.targetNamespaces, snapshot) == (t, [r]);
    assert [r] + [] == [r];
    assert RunBatches(Echo(), v, [c], p.targetNamespaces, snapshot) == (t, [r]);
  }

  lemma {:induction false} EchoCollects(v: Verdict, tools: seq<string>)
    ensures Collect(Echo(), v, tools) == (v, "")
  {
    if tools != [] {
      EchoCollects(v, tools[..|tools| - 1]);
    }
  }

  /** Full scans of the two policies, the first failing the check, the second passing it. */
  function FailThenPass(a: Policy, b: Policy, c: CheckItem): seq<Round<Verdict>> {
    [Round(FullScan, a, [c], FAIL, false), Round(FullScan, b, [c], PASS, false)]
  }

  lemma EchoRound(env: Setting, w: World, p: Policy, c: CheckItem, v: Verdict)
    requires Key(p) !in w.memory.hashes
    ensures var t := Act(env, Echo(), w, Round(FullScan, p, [c], v, false));
            && t.feed == ProcessOne(w.feed, env.threshold, p.name, ResultFor(c, v, "", []), env.clock)
            && t.memory.hashes.Keys == w.memory.hashes.Keys + {Key(p)}
  {
    EchoScan(env, w.memory, p, c, v);
    OneResult(w.feed, env.threshold, p.name, ResultFor(c, v, "", []), env.clock);
  }

  lemma FailThenPassResolves(f: Feed, threshold: Int32, name: string, c: CheckItem, clock: Clock)
    requires Entry(name, c.id) !in f.alerts
    ensures var g := ProcessOne(f, threshold, name, ResultFor(c, FAIL, "", []), clock);
            var h := ProcessOne(g, threshold, name, ResultFor(c, PASS, "", []), clock);
            Value(g.alerts, name, c.id).state == Firing && Value(h.alerts, name, c.id).state == Resolved
  {
  }

  /** Two policies of one name in different namespaces, sharing a check: what the first fired, a
      rescan of the second selects and a full scan of the second resolves; in its own rounds alone
      the first would still be firing. */
  lemma SameNameShares(env: Setting, a: Policy, b: Policy, c: CheckItem)
    requires a.name == b.name && a.namespace != b.namespace && '/' !in a.namespace && '/' !in b.namespace
    ensures var alone, both := RunRounds(env, Echo(), FailThenPass(a, b, c)[..1]).0, RunRounds(env, Echo(), FailThenPass(a, b, c)).0;
            && Value(alone.feed.alerts, a.name, c.id).state == Firing
            && ToScan(alone.feed.alerts, Round(Rescan, b, [c], PASS, false)) == [c]
            && Value(both.feed.alerts, a.name, c.id).state == Resolved
  {
    if Key(a) == Key(b) {
      KeyTellsBoth(a, b);
    }
    var r, q := Round(FullScan, a, [c], FAIL, false), Round(FullScan, b, [c], PASS, false);
    var w := Act(env, Echo(), NEW_WORLD, r);
    var rounds := FailThenPass(a, b, c);
    assert rounds[..1] == [] + [r] && rounds == ([] + [r]) + [q];
    RunOneMore(env, Echo(), [], r);
    RunOneMore(env, Echo(), [] + [r], q);
    EchoRound(env, NEW_WORLD, a, c, FAIL);
    EchoRound(env, w, b, c, PASS);
    FailThenPassResolves(NEW_FEED, env.threshold, a.name, c, env.clock);
    SelectedOne(w.feed.alerts, a.name, c);
  }

  lemma SelectedOne(a: Alerts, name: string, c: CheckItem)
    requires IsFailing(a, name, c.id)
    ensures Selected(a, name, [c]) == [c]
  {
    assert [c][..0] == [];
  }

  lemma OneResult(f: Feed, threshold: Int32, name: string, r: CheckResult, clock: Clock)
    ensures Process(f, threshold, name, [r], clock) == ProcessOne(f, threshold, name, r, clock)
  {
    assert [r][..0] == [];
  }

  lemma OwnOneMore<S>(rounds: seq<Round<S>>, r: Round<S>, p: Policy)
    ensures OwnRounds(rounds + [r], p) == OwnRounds(rounds, p) + (if SamePolicy(r.policy, p) then [r] else [])
  {
    assert (rounds + [r])[..|rounds|] == rounds;
  }

  /** A policy's alerts are those of its own rounds in every run with another policy, whatever the
      adapter, exactly when the two differ in name or are in one namespace. */
  lemma OnlyNamesakesInterfere(env: Setting, a: Policy, b: Policy)
    requires '/' !in a.namespace && '/' !in b.namespace
    ensures (forall back: Backend<Verdict>, rounds: seq<Round<Verdict>>, id |
               forall r <- rounds :: r.policy == a || r.policy == b ::
               OnItsOwn(env, back, rounds, a, id))
            <==> a.name != b.name || a.namespace == b.namespace
  {
    if a.name != b.name || a.namespace == b.namespace {
      forall back: Backend<Verdict>, rounds: seq<Round<Verdict>>, id | forall r <- rounds :: r.policy == a || r.policy == b
        ensures OnItsOwn(env, back, rounds, a, id)
      {
        OwnRoundsDecide(env, back, rounds, a, id);
      }
    } else {
      NamesakesInterfere(env, a, b, CheckItem("", "", ""));
    }
  }

  lemma FirstIsOwn(a: Policy, b: Policy, c: CheckItem)
    requires !SamePolicy(b, a)
    ensures OwnRounds(FailThenPass(a, b, c), a) == FailThenPass(a, b, c)[..1]
  {
    var rounds := FailThenPass(a, b, c);
    OwnOneMore([], rounds[0], a);
    OwnOneMore([] + [rounds[0]], rounds[1], a);
    assert rounds[..1] == [] + [rounds[0]] && rounds == ([] + [rounds[0]]) + [rounds[1]];
    assert OwnRounds<Verdict>([], a) == [];
  }

  lemma NamesakesInterfere(env: Setting, a: Policy, b: Policy, c: CheckItem)
    requires '/' !in a.namespace && '/' !in b.namespace && a.name == b.name && a.namespace != b.namespace
    ensures !OnItsOwn(env, Echo(), FailThenPass(a, b, c), a, c.id)
    ensures forall r <- FailThenPass(a, b, c) :: r.policy == a || r.policy == b
  {
    FirstIsOwn(a, b, c);
    SameNameShares(env, a, b, c);
  }

  ghost predicate OnItsOwn(env: Setting, b: Backend<Verdict>, rounds: seq<Round<Verdict>>, p: Policy, id: string) {
    SameButDates(Value(RunRounds(env, b, rounds).0.feed.alerts, p.name, id),
                 Value(RunRounds(env, b, OwnRounds(rounds, p)).0.feed.alerts, p.name, id))
  }
}
