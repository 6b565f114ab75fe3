/** Full scans and rescans of any policies running at the same time, as the goroutines of
    operator/internal/scheduler/scheduler.go do: a scan selects its checks in one step, and later
    makes one store call per result, while others make theirs in between. */
module Overlap {
  import opened GoTypes
  import opened LlmTypes
  import opened AlertMachine
  import opened AlertStore
  import opened Engine
  import opened Scans
  import opened ScanRounds

  /** A scan under way: its checks still to be reported, and how many reports had been processed
      when it selected them. */
  datatype Job = Job(kind: Kind, policyRef: string, todo: seq<CheckItem>, begun: nat)

  datatype State = State(reports: seq<Report>, jobs: map<nat, Job>)

  const INITIAL := State([], map[])

  datatype Event = Begin(i: nat, kind: Kind, policyRef: string, checks: seq<CheckItem>) | Finish(i: nat, result: CheckResult)

  function FeedAt(env: Setting, reports: seq<Report>): Feed {
    Weave(NEW_FEED, env.threshold, reports, env.clock)
  }

  predicate Due(s: State, e: Event) {
    match e
    case Begin(i, _, _, _) => i !in s.jobs
    case Finish(i, result) => i in s.jobs && s.jobs[i].todo != [] && result.id == s.jobs[i].todo[0].id
  }

  function Effect(env: Setting, s: State, e: Event): State
    requires Due(s, e)
  {
    match e
    case Begin(i, kind, policyRef, checks) =>
      var todo := if kind == FullScan then checks else Selected(FeedAt(env, s.reports).alerts, policyRef, checks);
      s.(jobs := s.jobs[i := Job(kind, policyRef, todo, |s.reports|)])
    case Finish(i, result) =>
      var job := s.jobs[i];
      State(s.reports + [Report(job.policyRef, result)], s.jobs[i := job.(todo := job.todo[1..])])
  }

  function Step(env: Setting, s: State, e: Event): State {
    if Due(s, e) then Effect(env, s, e) else s
  }

  function Run(env: Setting, es: seq<Event>): State {
    if es == [] then INITIAL else Step(env, Run(env, es[..|es| - 1]), es[|es| - 1])
  }

  /* ---- What a rescan still has to report was failing when it selected ---- */

  ghost predicate JobOK(env: Setting, s: State, i: nat)
    requires i in s.jobs
  {
    var job := s.jobs[i];
    && job.begun <= |s.reports|
    && (job.kind == Rescan ==>
          forall c <- job.todo :: IsFailing(FeedAt(env, s.reports[..job.begun]).alerts, job.policyRef, c.id))
  }

  ghost predicate Inv(env: Setting, s: State) {
    forall i <- s.jobs :: JobOK(env, s, i)
  }

  lemma StepKeepsInv(env: Setting, s: State, e: Event)
    requires Inv(env, s)
    ensures Inv(env, Step(env, s, e))
  {
    var t := Step(env, s, e);
    if e.Begin? {
      assert s.reports[..|s.reports|] == s.reports;
      SelectedAreFailing(FeedAt(env, s.reports).alerts, e.policyRef, e.checks);
    }
    forall i <- t.jobs ensures JobOK(env, t, i) {
      if i in s.jobs {
        assert JobOK(env, s, i);
        assert t.reports[..s.jobs[i].begun] == s.reports[..s.jobs[i].begun];
      }
    }
  }

  lemma {:induction false} InvAlwaysHolds(env: Setting, es: seq<Event>)
    ensures Inv(env, Run(env, es))
  {
    if es != [] {
      InvAlwaysHolds(env, es[..|es| - 1]);
      StepKeepsInv(env, Run(env, es[..|es| - 1]), es[|es| - 1]);
    }
  }

  /* ---- What holds in every interleaving ---- */

  /** However scans overlap: a check is failing exactly when the latest PASS or FAIL reported for
      it is FAIL, and its transitions chain and spell an alert word. */
  lemma FailingMeansLatestFailed(env: Setting, es: seq<Event>, policyRef: string, id: string)
    requires env.threshold > 0
    ensures var reports := Run(env, es).reports;
            var f := FeedAt(env, reports);
            && (id in FailingIDs(f.alerts, policyRef) <==> Latest(reports, policyRef, id) == Some(FAIL))
            && var ms := MovesOf(Transitions(f.sent), policyRef, id);
            Chained(ms) && AlertWord(Targets(ms))
  {
    var reports := Run(env, es).reports;
    WeaveFollows(env.threshold, reports, env.clock);
    LatestDecides(env.threshold, reports, env.clock, policyRef, id);
    FailingIDsAre(FeedAt(env, reports).alerts, policyRef, id);
    NotificationsOverAnyRun(env.threshold, Calls(reports, env.clock), policyRef, id);
  }

  ghost predicate Unchanged(a: Alerts, b: Alerts, k: Entry) {
    (k in b <==> k in a) && (k in a ==> b[k] == a[k])
  }

  /** A report, after others since its check was failing, announces a firing and enlarges the
      failing set exactly when fires says so, and touches its own entry only. */
  ghost predicate ReportedAmid(env: Setting, f: Feed, g: Feed, r: Report, fires: bool, k: Entry) {
    && (FiresNow(f, env.threshold, r, env.clock) <==> fires)
    && (FailingIDs(g.alerts, r.policyRef) <= FailingIDs(f.alerts, r.policyRef) <==> !fires)
    && (k != Entry(r.policyRef, r.result.id) ==> Unchanged(f.alerts, g.alerts, k))
  }

  lemma ReportAmidOthers(env: Setting, early: seq<Report>, since: seq<Report>, r: Report, k: Entry)
    requires IsFailing(FeedAt(env, early).alerts, r.policyRef, r.result.id)
    ensures ReportedAmid(env, FeedAt(env, early + since), FeedAt(env, early + since + [r]), r,
                         r.result.verdict == FAIL && Latest(since, r.policyRef, r.result.id) == Some(PASS), k)
  {
    var f := FeedAt(env, early + since);
    WeaveInTwo(NEW_FEED, env.threshold, early, since, env.clock);
    FiresAfterAPass(FeedAt(env, early), env.threshold, since, r, env.clock);
    WeaveOneMore(NEW_FEED, env.threshold, early + since, r, env.clock);
    ReportShrinks(f, env.threshold, r, env.clock);
    FiresExactlyWhen(f, env.threshold, r, env.clock);
  }

  /** When a rescan reports on a check, however many scans ran since it selected its checks: the
      check was failing then; the report announces a firing, and enlarges the failing set, exactly
      when it is FAIL and the latest PASS or FAIL for the check since the selection is PASS; and no
      other entry changes. */
  lemma RescanReports(env: Setting, es: seq<Event>, i: nat, result: CheckResult, k: Entry)
    requires Due(Run(env, es), Finish(i, result)) && Run(env, es).jobs[i].kind == Rescan
    ensures var s, t := Run(env, es), Step(env, Run(env, es), Finish(i, result));
            var job := s.jobs[i];
            && job.begun <= |s.reports|
            && result.id in FailingIDs(FeedAt(env, s.reports[..job.begun]).alerts, job.policyRef)
            && ReportedAmid(env, FeedAt(env, s.reports), FeedAt(env, t.reports), Report(job.policyRef, result),
                            result.verdict == FAIL && Latest(s.reports[job.begun..], job.policyRef, result.id) == Some(PASS), k)
  {
    InvAlwaysHolds(env, es);
    var s := Run(env, es);
    assert JobOK(env, s, i);
    var job := s.jobs[i];
    assert job.todo[0] in job.todo;
    var early, since := s.reports[..job.begun], s.reports[job.begun..];
    assert early + since == s.reports;
    FailingIDsAre(FeedAt(env, early).alerts, job.policyRef, result.id);
    ReportAmidOthers(env, early, since, Report(job.policyRef, result), k);
  }

  lemma FiresExactlyWhen(f: Feed, threshold: Int32, r: Report, clock: Clock)
    ensures FiresNow(f, threshold, r, clock)
            <==> r.result.verdict == FAIL && !IsFailing(f.alerts, r.policyRef, r.result.id)
  {
  }

  /** One report enlarges the failing set of its policy exactly when it fails a check that was not. */
  lemma ReportShrinks(f: Feed, threshold: Int32, r: Report, clock: Clock)
    ensures var g := ProcessOne(f, threshold, r.policyRef, r.result, clock);
            FailingIDs(g.alerts, r.policyRef) <= FailingIDs(f.alerts, r.policyRef)
            <==> !(r.result.verdict == FAIL && !IsFailing(f.alerts, r.policyRef, r.result.id))
  {
    var call := CallFor(r.policyRef, r.result, clock(f.tick));
    FailingIDsAre(f.alerts, r.policyRef, r.result.id);
    if call.Some? {
      FailingIDsStep(f.alerts, threshold, call.value, r.policyRef);
    }
  }

  /** The input that shows it can happen with no check named twice: a full scan passes the check
      between a rescan's selection and its report. */
  function Overlapping(policyRef: string, c: CheckItem): seq<Event> {
    [Begin(0, FullScan, policyRef, [c]), Finish(0, ResultFor(c, FAIL, "", [])),
     Begin(1, Rescan, policyRef, [c]), Begin(2, FullScan, policyRef, [c]), Finish(2, ResultFor(c, PASS, "", []))]
  }

  lemma RunOneMore(env: Setting, es: seq<Event>, e: Event)
    ensures Run(env, es + [e]) == Step(env, Run(env, es), e)
  {
    assert (es + [e])[..|es|] == es;
  }

  /** A full scan of one check from the start. */
  lemma OneFailure(env: Setting, policyRef: string, c: CheckItem)
    ensures var failed := ResultFor(c, FAIL, "", []);
            Run(env, [] + [Begin(0, FullScan, policyRef, [c])] + [Finish(0, failed)])
            == State([Report(policyRef, failed)], map[0 := Job(FullScan, policyRef, [], 0)])
  {
    var begin, end := Begin(0, FullScan, policyRef, [c]), Finish(0, ResultFor(c, FAIL, "", []));
    RunOneMore(env, [], begin);
    RunOneMore(env, [] + [begin], end);
    var s := State([], map[0 := Job(FullScan, policyRef, [c], 0)]);
    assert Run(env, [] + [begin]) == s;
    assert [c][1..] == [] && [] + [Report(policyRef, end.result)] == [Report(policyRef, end.result)];
  }

  lemma OverlapRun(env: Setting, policyRef: string, c: CheckItem)
    ensures var failed, passed := Report(policyRef, ResultFor(c, FAIL, "", [])), Report(policyRef, ResultFor(c, PASS, "", []));
            var s := Run(env, Overlapping(policyRef, c));
            s.reports == [failed, passed] && 1 in s.jobs
            && s.jobs[1] == Job(Rescan, policyRef, Selected(FeedAt(env, [failed]).alerts, policyRef, [c]), 1)
  {
    var es := Overlapping(policyRef, c);
    var l2 := [] + [es[0]] + [es[1]];
    var l3 := l2 + [es[2]];
    var l4 := l3 + [es[3]];
    OneFailure(env, policyRef, c);
    RunOneMore(env, l2, es[2]);
    RunOneMore(env, l3, es[3]);
    RunOneMore(env, l4, es[4]);
    assert l4 + [es[4]] == es;
    var failed, passed := Report(policyRef, ResultFor(c, FAIL, "", [])), Report(policyRef, ResultFor(c, PASS, "", []));
    var s2 := Run(env, l2);
    var rescan := Job(Rescan, policyRef, Selected(FeedAt(env, [failed]).alerts, policyRef, [c]), 1);
    var s4 := s2.(jobs := s2.jobs[1 := rescan][2 := Job(FullScan, policyRef, [c], 1)]);
    assert Run(env, l4) == s4;
    assert [failed] + [passed] == [failed, passed];
  }

  lemma OverlapFires(env: Setting, policyRef: string, c: CheckItem)
    ensures var s := Run(env, Overlapping(policyRef, c));
            var last := Finish(1, ResultFor(c, FAIL, "", []));
            && Due(s, last) && s.jobs[1].kind == Rescan && s.jobs[1].todo == [c]
            && FiresNow(FeedAt(env, s.reports), env.threshold, Report(policyRef, last.result), env.clock)
  {
    var failed, passed := Report(policyRef, ResultFor(c, FAIL, "", [])), Report(policyRef, ResultFor(c, PASS, "", []));
    OverlapRun(env, policyRef, c);
    LatestOfOne([], failed, policyRef, c.id);
    LatestOfOne([failed], passed, policyRef, c.id);
    assert [] + [failed] == [failed] && [failed] + [passed] == [failed, passed];
    SinceDecides(NEW_FEED, env.threshold, [failed], env.clock, policyRef, c.id);
    SinceDecides(NEW_FEED, env.threshold, [failed, passed], env.clock, policyRef, c.id);
    assert [c][..0] == [];
    assert Selected(FeedAt(env, [failed]).alerts, policyRef, [c]) == [c];
    FiresExactlyWhen(FeedAt(env, [failed, passed]), env.threshold, failed, env.clock);
  }

  lemma LatestOfOne(front: seq<Report>, r: Report, policyRef: string, id: string)
    requires Decides(r, policyRef, id)
    ensures Latest(front + [r], policyRef, id) == Some(r.result.verdict)
  {
  }
}
