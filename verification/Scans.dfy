/** What the scheduler does with the results of a scan (operator/internal/scheduler/scheduler.go),
    on values: results pass through the alert store in order, each change of state becomes one
    event, and rescans are confined to the failing checks. Then runs of full scans and rescans. */
module Scans {
  import opened GoTypes
  import opened LlmTypes
  import opened AlertMachine
  import opened AlertStore
  import opened Engine

  datatype Event = Event(policyRef: string, checkID: string, description: string, severity: string,
                         verdict: Verdict, reasoning: string, transition: Transition)

  /** The clock as the store reads it: reading number n. */
  type Clock = nat -> Time

  /** The call a result makes on the store: only PASS and FAIL make one. */
  function CallFor(policyRef: string, r: CheckResult, now: Time): Option<Op> {
    match r.verdict
    case FAIL => Some(Op(policyRef, r.id, Fail(now)))
    case PASS => Some(Op(policyRef, r.id, Pass(now)))
    case WARN => None
    case Other(_) => None
  }

  /** A failing result is dated by the store; any other stays as it is. */
  function Dated(r: CheckResult, v: CheckValue): CheckResult {
    if r.verdict == FAIL then r.(failedSince := Some(v.failedSince)) else r
  }

  function EventsFor(policyRef: string, r: CheckResult, t: Option<Transition>): seq<Event> {
    if t.Some? then [Event(policyRef, r.id, r.description, r.severity, r.verdict, r.reasoning, t.value)] else []
  }

  /** The store, the number of clock readings it took, and the events sent so far. */
  datatype Feed = Feed(alerts: Alerts, tick: nat, sent: seq<Event>)

  const NEW_FEED := Feed(map[], 0, [])

  function ProcessOne(f: Feed, threshold: Int32, policyRef: string, r: CheckResult, clock: Clock): Feed {
    match CallFor(policyRef, r, clock(f.tick))
    case None => f
    case Some(op) =>
      Feed(Apply(f.alerts, threshold, op), f.tick + 1,
           f.sent + EventsFor(policyRef, r, Emission(f.alerts, threshold, op)))
  }

  function Process(f: Feed, threshold: Int32, policyRef: string, rs: seq<CheckResult>, clock: Clock): Feed {
    if rs == [] then f
    else ProcessOne(Process(f, threshold, policyRef, rs[..|rs| - 1], clock), threshold, policyRef, rs[|rs| - 1], clock)
  }

  /** The results as they are stored, each failing one dated as it was processed. */
  function DatedAll(f: Feed, threshold: Int32, policyRef: string, rs: seq<CheckResult>, clock: Clock)
    : (dated: seq<CheckResult>)
    ensures |dated| == |rs|
  {
    if rs == [] then []
    else
      var g, last := Process(f, threshold, policyRef, rs, clock), rs[|rs| - 1];
      DatedAll(f, threshold, policyRef, rs[..|rs| - 1], clock) + [Dated(last, Value(g.alerts, policyRef, last.id))]
  }

  function Transitions(es: seq<Event>): (ts: seq<Transition>)
    ensures |ts| == |es| && forall i | 0 <= i < |ts| :: ts[i] == es[i].transition
  {
    seq(|es|, i requires 0 <= i < |es| => es[i].transition)
  }

  /* ---- Reports: all results ever processed ---- */

  datatype Report = Report(policyRef: string, result: CheckResult)

  function Reports(policyRef: string, rs: seq<CheckResult>): (reports: seq<Report>)
    ensures |reports| == |rs| && forall i | 0 <= i < |rs| :: reports[i] == Report(policyRef, rs[i])
  {
    seq(|rs|, i requires 0 <= i < |rs| => Report(policyRef, rs[i]))
  }

  /** The store calls the reports make, each dated by the next clock reading. */
  function Calls(reports: seq<Report>, clock: Clock): seq<Op> {
    if reports == [] then []
    else
      var ops, last := Calls(reports[..|reports| - 1], clock), reports[|reports| - 1];
      ops + Made(CallFor(last.policyRef, last.result, clock(|ops|)))
  }

  function Made(call: Option<Op>): seq<Op> {
    if call.Some? then [call.value] else []
  }

  lemma CallsGrow(reports: seq<Report>, r: Report, clock: Clock)
    ensures var ops := Calls(reports, clock);
            Calls(reports + [r], clock) == ops + Made(CallFor(r.policyRef, r.result, clock(|ops|)))
  {
    assert (reports + [r])[..|reports|] == reports;
  }

  lemma RunGrows(threshold: Int32, ops: seq<Op>, op: Op)
    ensures RunAlerts(threshold, ops + [op]) == Apply(RunAlerts(threshold, ops), threshold, op)
    ensures RunEmissions(threshold, ops + [op])
         == RunEmissions(threshold, ops) + Reported(Emission(RunAlerts(threshold, ops), threshold, op))
  {
    assert (ops + [op])[..|ops|] == ops;
  }

  /** The feed is what the store calls of all reports so far leave, and the events sent are
      exactly the transitions those calls gave, one each, in order. */
  ghost predicate Follows(f: Feed, threshold: Int32, reports: seq<Report>, clock: Clock) {
    var ops := Calls(reports, clock);
    && f.alerts == RunAlerts(threshold, ops)
    && f.tick == |ops|
    && Transitions(f.sent) == RunEmissions(threshold, ops)
  }

  lemma TransitionsGrow(sent: seq<Event>, policyRef: string, r: CheckResult, t: Option<Transition>)
    ensures Transitions(sent + EventsFor(policyRef, r, t)) == Transitions(sent) + Reported(t)
  {
  }

  lemma OneMoreFollows(f: Feed, threshold: Int32, reports: seq<Report>, policyRef: string, r: CheckResult, clock: Clock)
    requires Follows(f, threshold, reports, clock)
    ensures Follows(ProcessOne(f, threshold, policyRef, r, clock), threshold, reports + [Report(policyRef, r)], clock)
  {
    var ops := Calls(reports, clock);
    var call := CallFor(policyRef, r, clock(|ops|));
    assert Calls(reports + [Report(policyRef, r)], clock) == ops + Made(call) by {
      CallsGrow(reports, Report(policyRef, r), clock);
    }
    if call.Some? {
      RunGrows(threshold, ops, call.value);
      TransitionsGrow(f.sent, policyRef, r, Emission(f.alerts, threshold, call.value));
    } else {
      assert ops + Made(call) == ops;
    }
  }

  lemma {:induction false} ProcessFollows(f: Feed, threshold: Int32, reports: seq<Report>, policyRef: string,
                                          rs: seq<CheckResult>, clock: Clock)
    requires Follows(f, threshold, reports, clock)
    ensures Follows(Process(f, threshold, policyRef, rs, clock), threshold, reports + Reports(policyRef, rs), clock)
  {
    if rs == [] {
      assert reports + Reports(policyRef, rs) == reports;
    } else {
      var front, r := rs[..|rs| - 1], rs[|rs| - 1];
      ProcessFollows(f, threshold, reports, policyRef, front, clock);
      var g, sofar := Process(f, threshold, policyRef, front, clock), reports + Reports(policyRef, front);
      OneMoreFollows(g, threshold, sofar, policyRef, r, clock);
      assert sofar + [Report(policyRef, r)] == reports + Reports(policyRef, rs);
    }
  }

  /** Reports of any policies, in any order, processed one after the other. */
  function Weave(f: Feed, threshold: Int32, reports: seq<Report>, clock: Clock): Feed {
    if reports == [] then f
    else
      var last := reports[|reports| - 1];
      ProcessOne(Weave(f, threshold, reports[..|reports| - 1], clock), threshold, last.policyRef, last.result, clock)
  }

  lemma WeaveOneMore(f: Feed, threshold: Int32, reports: seq<Report>, r: Report, clock: Clock)
    ensures Weave(f, threshold, reports + [r], clock)
         == ProcessOne(Weave(f, threshold, reports, clock), threshold, r.policyRef, r.result, clock)
  {
    assert (reports + [r])[..|reports|] == reports;
  }

  lemma {:induction false} WeaveInTwo(f: Feed, threshold: Int32, early: seq<Report>, late: seq<Report>, clock: Clock)
    ensures Weave(f, threshold, early + late, clock) == Weave(Weave(f, threshold, early, clock), threshold, late, clock)
  {
    if late == [] {
      assert early + late == early;
    } else {
      var front, r := late[..|late| - 1], late[|late| - 1];
      WeaveInTwo(f, threshold, early, front, clock);
      WeaveOneMore(f, threshold, early + front, r, clock);
      assert early + front + [r] == early + late;
    }
  }

  /** A scan that nobody interrupts is one way to weave its reports. */
  lemma {:induction false} ProcessIsWeave(f: Feed, threshold: Int32, policyRef: string, rs: seq<CheckResult>, clock: Clock)
    ensures Process(f, threshold, policyRef, rs, clock) == Weave(f, threshold, Reports(policyRef, rs), clock)
  {
    if rs != [] {
      ProcessIsWeave(f, threshold, policyRef, rs[..|rs| - 1], clock);
      assert Reports(policyRef, rs)[..|rs| - 1] == Reports(policyRef, rs[..|rs| - 1]);
    }
  }

  lemma {:induction false} WeaveFollows(threshold: Int32, reports: seq<Report>, clock: Clock)
    ensures Follows(Weave(NEW_FEED, threshold, reports, clock), threshold, reports, clock)
  {
    if reports == [] {
      assert Transitions([]) == [];
    } else {
      var front, r := reports[..|reports| - 1], reports[|reports| - 1];
      WeaveFollows(threshold, front, clock);
      OneMoreFollows(Weave(NEW_FEED, threshold, front, clock), threshold, front, r.policyRef, r.result, clock);
      assert front + [Report(r.policyRef, r.result)] == reports;
    }
  }

  /** The event is about this report: it names its policy and check, carries what it says, and
      its transition goes where the verdict leads. */
  predicate Tells(e: Event, r: Report) {
    && e.policyRef == e.transition.policyRef == r.policyRef
    && e.checkID == e.transition.checkID == r.result.id
    && e.description == r.result.description && e.severity == r.result.severity
    && e.verdict == r.result.verdict && e.reasoning == r.result.reasoning
    && (r.result.verdict == PASS <==> e.transition.to == Resolved)
    && (r.result.verdict == FAIL <==> e.transition.to == Firing || e.transition.to == Escalated)
    && e.transition.from != e.transition.to == e.transition.state.state
  }

  /** What the store call of a report does after the reports before it. */
  function EmissionAfter(threshold: Int32, before: seq<Report>, r: Report, clock: Clock): Option<Transition> {
    var ops := Calls(before, clock);
    var call := CallFor(r.policyRef, r.result, clock(|ops|));
    if call.None? then None else Emission(RunAlerts(threshold, ops), threshold, call.value)
  }

  /** Report by report, what its store call does. */
  function Emissions(threshold: Int32, reports: seq<Report>, clock: Clock): (given: seq<Option<Transition>>)
    ensures |given| == |reports|
  {
    if reports == [] then []
    else
      var front := reports[..|reports| - 1];
      Emissions(threshold, front, clock) + [EmissionAfter(threshold, front, reports[|reports| - 1], clock)]
  }

  /** Event number i is about the report at position at[i] and carries the transition that report's
      own store call gave; the positions ascend, and no other report's call gave any. */
  ghost predicate Told(es: seq<Event>, at: seq<nat>, reports: seq<Report>, given: seq<Option<Transition>>)
    requires |given| == |reports|
  {
    && |at| == |es|
    && (forall i, j | 0 <= i < j < |at| :: at[i] < at[j])
    && (forall i | 0 <= i < |es| ::
          at[i] < |reports| && Tells(es[i], reports[at[i]]) && given[at[i]] == Some(es[i].transition))
    && (forall k | 0 <= k < |reports| && k !in at :: given[k] == None)
  }

  /** The last report sends an event exactly when its store call gave a transition. */
  lemma LastEvent(f: Feed, threshold: Int32, reports: seq<Report>, r: Report, clock: Clock)
    requires Follows(f, threshold, reports, clock)
    ensures var sent := ProcessOne(f, threshold, r.policyRef, r.result, clock).sent;
            match EmissionAfter(threshold, reports, r, clock)
            case None => sent == f.sent
            case Some(t) => exists e :: sent == f.sent + [e] && Tells(e, r) && e.transition == t
  {
    var call := CallFor(r.policyRef, r.result, clock(f.tick));
    if call.Some? {
      var es := EventsFor(r.policyRef, r.result, Emission(f.alerts, threshold, call.value));
      assert es != [] ==> es == [es[0]] && Tells(es[0], r);
      assert es == [] ==> f.sent + es == f.sent;
    }
  }

  lemma NoMoreTold(es: seq<Event>, at: seq<nat>, reports: seq<Report>, given: seq<Option<Transition>>, r: Report)
    requires |given| == |reports| && Told(es, at, reports, given)
    ensures Told(es, at, reports + [r], given + [None])
  {
  }

  lemma OneMoreTold(es: seq<Event>, at: seq<nat>, reports: seq<Report>, given: seq<Option<Transition>>, r: Report, e: Event)
    requires |given| == |reports| && Told(es, at, reports, given) && Tells(e, r)
    ensures Told(es + [e], at + [|reports|], reports + [r], given + [Some(e.transition)])
  {
    var longer := at + [|reports|];
    assert longer[|at|] == |reports| && forall k | k in at :: k in longer;
  }

  /** All told, for the reports so far. */
  ghost predicate AllTold(threshold: Int32, reports: seq<Report>, clock: Clock, at: seq<nat>) {
    Told(Weave(NEW_FEED, threshold, reports, clock).sent, at, reports, Emissions(threshold, reports, clock))
  }

  lemma EmissionsOneMore(threshold: Int32, front: seq<Report>, r: Report, clock: Clock)
    ensures Emissions(threshold, front + [r], clock)
         == Emissions(threshold, front, clock) + [EmissionAfter(threshold, front, r, clock)]
  {
    assert (front + [r])[..|front|] == front;
  }

  lemma OneMoreAllTold(threshold: Int32, front: seq<Report>, r: Report, clock: Clock, before: seq<nat>) returns (at: seq<nat>)
    requires AllTold(threshold, front, clock, before)
    ensures AllTold(threshold, front + [r], clock, at)
  {
    var f, given := Weave(NEW_FEED, threshold, front, clock), Emissions(threshold, front, clock);
    var t, sent := EmissionAfter(threshold, front, r, clock), ProcessOne(f, threshold, r.policyRef, r.result, clock).sent;
    assert t.None? ==> sent == f.sent by {
      WeaveFollows(threshold, front, clock);
      LastEvent(f, threshold, front, r, clock);
    }
    WeaveOneMore(NEW_FEED, threshold, front, r, clock);
    EmissionsOneMore(threshold, front, r, clock);
    if t.None? {
      at := before;
      NoMoreTold(f.sent, before, front, given, r);
    } else {
      var e := TheEvent(f, threshold, front, r, clock);
      at := before + [|front|];
      OneMoreTold(f.sent, before, front, given, r, e);
    }
  }

  lemma TheEvent(f: Feed, threshold: Int32, reports: seq<Report>, r: Report, clock: Clock) returns (e: Event)
    requires f == Weave(NEW_FEED, threshold, reports, clock) && EmissionAfter(threshold, reports, r, clock).Some?
    ensures ProcessOne(f, threshold, r.policyRef, r.result, clock).sent == f.sent + [e]
    ensures Tells(e, r) && e.transition == EmissionAfter(threshold, reports, r, clock).value
  {
    WeaveFollows(threshold, reports, clock);
    LastEvent(f, threshold, reports, r, clock);
    var t, sent := EmissionAfter(threshold, reports, r, clock).value, ProcessOne(f, threshold, r.policyRef, r.result, clock).sent;
    e :| sent == f.sent + [e] && Tells(e, r) && e.transition == t;
  }

  /** Every event sent over any reports tells of the very report whose store call gave it. */
  lemma {:induction false} EventsTellTheirReports(threshold: Int32, reports: seq<Report>, clock: Clock)
    returns (at: seq<nat>)
    ensures Told(Weave(NEW_FEED, threshold, reports, clock).sent, at, reports, Emissions(threshold, reports, clock))
  {
    if reports == [] {
      at := [];
    } else {
      var front, r := reports[..|reports| - 1], reports[|reports| - 1];
      var before := EventsTellTheirReports(threshold, front, clock);
      assert front + [r] == reports;
      at := OneMoreAllTold(threshold, front, r, clock, before);
    }
  }

  /** After a call that fails a check, its date is that of its streak's first failure. */
  lemma CallDatesItsStreak(threshold: Int32, ops: seq<Op>, op: Op)
    requires threshold > 0 && op.seen.Fail?
    ensures var h := History(ops + [op], op.policy, op.check);
            && TrailingFails(h) > 0
            && Value(RunAlerts(threshold, ops + [op]), op.policy, op.check).failedSince == h[|h| - TrailingFails(h)].at
  {
    var h := History(ops + [op], op.policy, op.check);
    assert (ops + [op])[..|ops|] == ops;
    assert h == History(ops, op.policy, op.check) + [op.seen];
    OwnCell(threshold, ops + [op], op.policy, op.check);
    ClosedForm(threshold, h);
  }

  /** A failing result is dated with the first failure of its check's present streak. */
  lemma FailureDatesItsStreak(f: Feed, threshold: Int32, reports: seq<Report>, policyRef: string, r: CheckResult, clock: Clock)
    requires threshold > 0 && Follows(f, threshold, reports, clock) && r.verdict == FAIL
    ensures var g := ProcessOne(f, threshold, policyRef, r, clock);
            var h := History(Calls(reports + [Report(policyRef, r)], clock), policyRef, r.id);
            && TrailingFails(h) > 0
            && Dated(r, Value(g.alerts, policyRef, r.id)).failedSince == Some(h[|h| - TrailingFails(h)].at)
  {
    var ops := Calls(reports, clock);
    var op := Op(policyRef, r.id, Fail(clock(|ops|)));
    FailureIsACall(f, threshold, reports, policyRef, r, clock);
    CallDatesItsStreak(threshold, ops, op);
  }

  lemma FailureIsACall(f: Feed, threshold: Int32, reports: seq<Report>, policyRef: string, r: CheckResult, clock: Clock)
    requires Follows(f, threshold, reports, clock) && r.verdict == FAIL
    ensures var ops := Calls(reports, clock);
            var more := ops + [Op(policyRef, r.id, Fail(clock(|ops|)))];
            && Calls(reports + [Report(policyRef, r)], clock) == more
            && ProcessOne(f, threshold, policyRef, r, clock).alerts == RunAlerts(threshold, more)
  {
    var ops := Calls(reports, clock);
    CallsGrow(reports, Report(policyRef, r), clock);
    RunGrows(threshold, ops, Op(policyRef, r.id, Fail(clock(|ops|))));
  }

  /** A result as it is stored: as it was, except that a failing one is dated with the first
      failure of the streak its check's history ends in. */
  ghost predicate StoredAs(stored: CheckResult, r: CheckResult, h: seq<Observation>) {
    if r.verdict == FAIL then
      TrailingFails(h) > 0 && stored == r.(failedSince := Some(h[|h| - TrailingFails(h)].at))
    else stored == r
  }

  ghost function HistoryAfter(reports: seq<Report>, policyRef: string, rs: seq<CheckResult>, id: string, clock: Clock): seq<Observation> {
    History(Calls(reports + Reports(policyRef, rs), clock), policyRef, id)
  }

  /** The results of a scan are stored one by one, each by its check's history as it stood when that
      result was processed, the result included. */
  lemma {:induction false} StoredResults(f: Feed, threshold: Int32, reports: seq<Report>, policyRef: string,
                                         rs: seq<CheckResult>, clock: Clock, i: nat)
    requires threshold > 0 && Follows(f, threshold, reports, clock) && i < |rs|
    ensures StoredAs(DatedAll(f, threshold, policyRef, rs, clock)[i], rs[i],
                     HistoryAfter(reports, policyRef, rs[..i + 1], rs[i].id, clock))
  {
    var front, last := rs[..|rs| - 1], rs[|rs| - 1];
    assert front + [last] == rs;
    DatedOneMore(f, threshold, policyRef, front, last, clock);
    if i < |front| {
      StoredResults(f, threshold, reports, policyRef, front, clock, i);
      assert front[..i + 1] == rs[..i + 1] && front[i] == rs[i];
    } else {
      LastIsStored(f, threshold, reports, policyRef, front, last, clock);
      assert rs[..i + 1] == rs && rs[i] == last;
    }
  }

  lemma DatedOneMore(f: Feed, threshold: Int32, policyRef: string, front: seq<CheckResult>, r: CheckResult, clock: Clock)
    ensures DatedAll(f, threshold, policyRef, front + [r], clock)
         == DatedAll(f, threshold, policyRef, front, clock)
            + [Dated(r, Value(ProcessOne(Process(f, threshold, policyRef, front, clock), threshold, policyRef, r, clock).alerts,
                              policyRef, r.id))]
  {
    assert (front + [r])[..|front|] == front;
  }

  lemma LastIsStored(f: Feed, threshold: Int32, reports: seq<Report>, policyRef: string,
                     front: seq<CheckResult>, r: CheckResult, clock: Clock)
    requires threshold > 0 && Follows(f, threshold, reports, clock)
    ensures StoredAs(DatedAll(f, threshold, policyRef, front + [r], clock)[|front|], r,
                     HistoryAfter(reports, policyRef, front + [r], r.id, clock))
  {
    var g, before := Process(f, threshold, policyRef, front, clock), reports + Reports(policyRef, front);
    assert Follows(g, threshold, before, clock) by {
      ProcessFollows(f, threshold, reports, policyRef, front, clock);
    }
    assert reports + Reports(policyRef, front + [r]) == before + [Report(policyRef, r)];
    DatedAsStored(g, threshold, before, policyRef, r, clock);
    DatedOneMore(f, threshold, policyRef, front, r, clock);
  }

  lemma DatedAsStored(g: Feed, threshold: Int32, before: seq<Report>, policyRef: string, r: CheckResult, clock: Clock)
    requires threshold > 0 && Follows(g, threshold, before, clock)
    ensures StoredAs(Dated(r, Value(ProcessOne(g, threshold, policyRef, r, clock).alerts, policyRef, r.id)), r,
                     History(Calls(before + [Report(policyRef, r)], clock), policyRef, r.id))
  {
    if r.verdict == FAIL {
      FailureDatesItsStreak(g, threshold, before, policyRef, r, clock);
    }
  }

  /* ---- The failing set ---- */

  predicate IsFailing(a: Alerts, policyRef: string, id: string) {
    AlertMachine.Failing(Value(a, policyRef, id).state)
  }

  lemma FailingIDsAre(a: Alerts, policyRef: string, id: string)
    ensures id in FailingIDs(a, policyRef) <==> IsFailing(a, policyRef, id)
  {
    assert id in FailingIDs(a, policyRef) <==> Entry(policyRef, id) in a && AlertMachine.Failing(a[Entry(policyRef, id)].state);
  }

  /** The latest PASS or FAIL reported for a check. */
  function Latest(reports: seq<Report>, policyRef: string, id: string): Option<Verdict> {
    if reports == [] then None
    else
      var last := reports[|reports| - 1];
      if Decides(last, policyRef, id) then Some(last.result.verdict)
      else Latest(reports[..|reports| - 1], policyRef, id)
  }

  lemma {:induction false} LatestDecides(threshold: Int32, reports: seq<Report>, clock: Clock, policyRef: string, id: string)
    ensures IsFailing(RunAlerts(threshold, Calls(reports, clock)), policyRef, id) <==> Latest(reports, policyRef, id) == Some(FAIL)
  {
    if reports != [] {
      LatestDecides(threshold, reports[..|reports| - 1], clock, policyRef, id);
      ReportDecides(threshold, reports[..|reports| - 1], reports[|reports| - 1], clock, policyRef, id);
      assert reports[..|reports| - 1] + [reports[|reports| - 1]] == reports;
    }
  }

  predicate Decides(r: Report, policyRef: string, id: string) {
    r.policyRef == policyRef && r.result.id == id && (r.result.verdict == PASS || r.result.verdict == FAIL)
  }

  lemma ReportDecides(threshold: Int32, front: seq<Report>, last: Report, clock: Clock, policyRef: string, id: string)
    ensures IsFailing(RunAlerts(threshold, Calls(front + [last], clock)), policyRef, id)
            <==> if Decides(last, policyRef, id) then last.result.verdict == FAIL
                 else IsFailing(RunAlerts(threshold, Calls(front, clock)), policyRef, id)
  {
    var ops := Calls(front, clock);
    var call := CallFor(last.policyRef, last.result, clock(|ops|));
    CallsGrow(front, last, clock);
    if call.Some? {
      RunGrows(threshold, ops, call.value);
      CallDecides(RunAlerts(threshold, ops), threshold, call.value, policyRef, id);
    } else {
      assert ops + Made(call) == ops;
    }
  }

  lemma CallDecides(a: Alerts, threshold: Int32, op: Op, policyRef: string, id: string)
    ensures IsFailing(Apply(a, threshold, op), policyRef, id)
            <==> if op.policy == policyRef && op.check == id then op.seen.Fail? else IsFailing(a, policyRef, id)
  {
  }

  /** After a scan of distinct checks, a check of it is failing if it failed now, or if it was
      failing and neither failed nor passed now. */
  lemma {:induction false} ScanDecides(f: Feed, threshold: Int32, policyRef: string, rs: seq<CheckResult>, clock: Clock, i: nat)
    requires Distinct(IDs(rs)) && i < |rs|
    ensures IsFailing(Process(f, threshold, policyRef, rs, clock).alerts, policyRef, rs[i].id)
            <==> rs[i].verdict == FAIL || (rs[i].verdict != PASS && IsFailing(f.alerts, policyRef, rs[i].id))
  {
    var front, n := rs[..|rs| - 1], |rs| - 1;
    assert forall k | 0 <= k < n :: IDs(front)[k] == IDs(rs)[k];
    if i < n {
      assert IDs(rs)[i] != IDs(rs)[n];
      ScanDecides(f, threshold, policyRef, front, clock, i);
    } else {
      assert forall k | 0 <= k < n :: IDs(rs)[k] != IDs(rs)[n];
      UnreportedIsKept(f, threshold, policyRef, front, clock, Entry(policyRef, rs[i].id));
    }
  }

  function IDs(rs: seq<CheckResult>): (ids: seq<string>)
    ensures |ids| == |rs| && forall i | 0 <= i < |ids| :: ids[i] == rs[i].id
  {
    seq(|rs|, i requires 0 <= i < |rs| => rs[i].id)
  }

  ghost predicate Distinct(ids: seq<string>) {
    forall i, j | 0 <= i < j < |ids| :: ids[i] != ids[j]
  }

  /** A scan leaves alone what it does not report on. */
  lemma {:induction false} UnreportedIsKept(f: Feed, threshold: Int32, policyRef: string, rs: seq<CheckResult>,
                                            clock: Clock, k: Entry)
    requires k.policy != policyRef || forall i | 0 <= i < |rs| :: IDs(rs)[i] != k.check
    ensures var g := Process(f, threshold, policyRef, rs, clock);
            && (k in g.alerts <==> k in f.alerts)
            && (k in f.alerts ==> g.alerts[k] == f.alerts[k])
  {
    if rs != [] {
      var front := rs[..|rs| - 1];
      assert forall i | 0 <= i < |front| :: IDs(front)[i] == IDs(rs)[i];
      UnreportedIsKept(f, threshold, policyRef, front, clock, k);
      assert IDs(rs)[|rs| - 1] == rs[|rs| - 1].id;
    }
  }

  /* ---- Rescans ---- */

  ghost predicate AllFailing(a: Alerts, policyRef: string, ids: seq<string>) {
    forall i | 0 <= i < |ids| :: IsFailing(a, policyRef, ids[i])
  }

  /** No new event announces a firing. */
  ghost predicate NoneFires(before: seq<Event>, after: seq<Event>, policyRef: string, ids: seq<string>) {
    before <= after && forall i | |before| <= i < |after| :: OnlyMoves(after[i], policyRef, ids)
  }

  ghost predicate OnlyMoves(e: Event, policyRef: string, ids: seq<string>) {
    && e.policyRef == e.transition.policyRef == policyRef
    && e.checkID == e.transition.checkID && e.checkID in ids
    && AlertMachine.Failing(e.transition.from)
    && (e.transition.to == Escalated || e.transition.to == Resolved)
  }

  /** Results for failing checks only, all distinct: whatever the verdicts, they announce nothing
      but escalations and resolutions of those checks. */
  lemma {:induction false} RescanNeverFires(f: Feed, threshold: Int32, policyRef: string, rs: seq<CheckResult>, clock: Clock)
    requires AllFailing(f.alerts, policyRef, IDs(rs)) && Distinct(IDs(rs))
    ensures NoneFires(f.sent, Process(f, threshold, policyRef, rs, clock).sent, policyRef, IDs(rs))
  {
    if rs != [] {
      var front, last, n := rs[..|rs| - 1], rs[|rs| - 1], |rs| - 1;
      assert forall k | 0 <= k < n :: IDs(front)[k] == IDs(rs)[k];
      RescanNeverFires(f, threshold, policyRef, front, clock);
      var g := Process(f, threshold, policyRef, front, clock);
      assert forall k | 0 <= k < n :: IDs(rs)[k] != IDs(rs)[n];
      UnreportedIsKept(f, threshold, policyRef, front, clock, Entry(policyRef, last.id));
      assert IsFailing(g.alerts, policyRef, last.id) by {
        assert IsFailing(f.alerts, policyRef, IDs(rs)[n]);
      }
      var h := Process(f, threshold, policyRef, rs, clock);
      forall i | |f.sent| <= i < |h.sent| ensures OnlyMoves(h.sent[i], policyRef, IDs(rs)) {
        if i < |g.sent| {
          assert OnlyMoves(g.sent[i], policyRef, IDs(front));
        } else {
          assert IDs(rs)[n] in IDs(rs);
        }
      }
    }
  }

  ghost predicate Fires(before: seq<Event>, after: seq<Event>) {
    exists i :: |before| <= i < |after| && after[i].transition.to == Firing
  }

  /** Some verdicts for these checks make a scan of them announce a firing. */
  ghost predicate MayFire(f: Feed, threshold: Int32, policyRef: string, ids: seq<string>, clock: Clock) {
    exists rs :: IDs(rs) == ids && Fires(f.sent, Process(f, threshold, policyRef, rs, clock).sent)
  }

  /** PASS for the i-th check, FAIL for the j-th, WARN for all others. */
  function PassThenFail(ids: seq<string>, i: nat, j: nat): (rs: seq<CheckResult>)
    ensures IDs(rs) == ids
    ensures forall k | 0 <= k < |rs| :: rs[k].verdict == if k == i then PASS else if k == j then FAIL else WARN
  {
    var rs := seq(|ids|, k requires 0 <= k < |ids| =>
                    CheckResult(ids[k], "", "", if k == i then PASS else if k == j then FAIL else WARN, "", [], None));
    assert IDs(rs) == ids;
    rs
  }

  /** What makes these verdicts fire: the j-th check is not failing when its FAIL arrives, because
      it was not at the start (then i is out of range) or because its own PASS came first. */
  lemma {:induction false} PassThenFailFires(f: Feed, threshold: Int32, policyRef: string, ids: seq<string>, clock: Clock,
                                             i: nat, j: nat, n: nat)
    requires j < |ids| && n <= |ids|
    requires (i < j && ids[i] == ids[j]) || (i == |ids| && !IsFailing(f.alerts, policyRef, ids[j]))
    ensures var g := Process(f, threshold, policyRef, PassThenFail(ids, i, j)[..n], clock);
            && f.sent <= g.sent
            && (n <= j && (i < n || i == |ids|) ==> !IsFailing(g.alerts, policyRef, ids[j]))
            && (j < n ==> Fires(f.sent, g.sent))
  {
    if n > 0 {
      var rs := PassThenFail(ids, i, j);
      assert IDs(rs)[n - 1] == rs[n - 1].id;
      assert rs[..n][..n - 1] == rs[..n - 1];
      PassThenFailFires(f, threshold, policyRef, ids, clock, i, j, n - 1);
      var g := Process(f, threshold, policyRef, rs[..n - 1], clock);
      var h := Process(f, threshold, policyRef, rs[..n], clock);
      assert h == ProcessOne(g, threshold, policyRef, rs[n - 1], clock);
      if n - 1 == j {
        assert h.sent[|g.sent|].transition.to == Firing;
      } else if n - 1 > j {
        var k :| |f.sent| <= k < |g.sent| && g.sent[k].transition.to == Firing;
        assert h.sent[k].transition.to == Firing;
      }
    }
  }

  /** Processing results for these checks in one go can announce a firing exactly when one of them
      is not failing, or two are the same. */
  lemma FiringNeedsAGapOrARepeat(f: Feed, threshold: Int32, policyRef: string, ids: seq<string>, clock: Clock)
    ensures MayFire(f, threshold, policyRef, ids, clock) <==> !AllFailing(f.alerts, policyRef, ids) || !Distinct(ids)
  {
    if AllFailing(f.alerts, policyRef, ids) && Distinct(ids) {
      forall rs | IDs(rs) == ids ensures !Fires(f.sent, Process(f, threshold, policyRef, rs, clock).sent) {
        RescanNeverFires(f, threshold, policyRef, rs, clock);
      }
    } else {
      var i, j: nat := |ids|, 0;
      if !Distinct(ids) {
        i, j :| 0 <= i < j < |ids| && ids[i] == ids[j];
      } else {
        j :| 0 <= j < |ids| && !IsFailing(f.alerts, policyRef, ids[j]);
      }
      var rs := PassThenFail(ids, i, j);
      assert IDs(rs) == ids && |rs| == |ids|;
      PassThenFailFires(f, threshold, policyRef, ids, clock, i, j, |ids|);
      assert rs[..|ids|] == rs;
    }
  }

  /** So a rescan can announce a firing, if all the checks it selected are still failing when its
      results are processed, exactly when it scans some check twice. */
  lemma OnlyRepeatsFire(f: Feed, threshold: Int32, policyRef: string, ids: seq<string>, clock: Clock)
    requires AllFailing(f.alerts, policyRef, ids)
    ensures MayFire(f, threshold, policyRef, ids, clock) <==> !Distinct(ids)
  {
    FiringNeedsAGapOrARepeat(f, threshold, policyRef, ids, clock);
  }

  /* ---- A report among others ---- */

  /** The reports since then decide whether a check is failing; without any, what was then holds. */
  lemma {:induction false} SinceDecides(f: Feed, threshold: Int32, since: seq<Report>, clock: Clock, policyRef: string, id: string)
    ensures IsFailing(Weave(f, threshold, since, clock).alerts, policyRef, id)
            <==> match Latest(since, policyRef, id)
                 case Some(v) => v == FAIL
                 case None => IsFailing(f.alerts, policyRef, id)
  {
    if since != [] {
      var front, r := since[..|since| - 1], since[|since| - 1];
      SinceDecides(f, threshold, front, clock, policyRef, id);
      var g := Weave(f, threshold, front, clock);
      var call := CallFor(r.policyRef, r.result, clock(g.tick));
      if call.Some? {
        CallDecides(g.alerts, threshold, call.value, policyRef, id);
      }
    }
  }

  /** Processing this report now announces a firing. */
  predicate FiresNow(f: Feed, threshold: Int32, r: Report, clock: Clock) {
    var g := ProcessOne(f, threshold, r.policyRef, r.result, clock);
    |g.sent| > |f.sent| && g.sent[|g.sent| - 1].transition.to == Firing
  }

  /** From a state in which a check is failing, after any reports by anyone on anything: a report
      on that check announces a firing exactly when it is FAIL and the latest PASS or FAIL for the
      check since then is PASS. */
  lemma {:induction false} FiresAfterAPass(f: Feed, threshold: Int32, since: seq<Report>, r: Report, clock: Clock)
    requires IsFailing(f.alerts, r.policyRef, r.result.id)
    ensures FiresNow(Weave(f, threshold, since, clock), threshold, r, clock)
            <==> r.result.verdict == FAIL && Latest(since, r.policyRef, r.result.id) == Some(PASS)
  {
    SinceDecides(f, threshold, since, clock, r.policyRef, r.result.id);
    LatestIsPassOrFail(since, r.policyRef, r.result.id);
  }

  lemma {:induction false} LatestIsPassOrFail(reports: seq<Report>, policyRef: string, id: string)
    ensures Latest(reports, policyRef, id).Some? ==> Latest(reports, policyRef, id).value in {PASS, FAIL}
  {
    if reports != [] {
      LatestIsPassOrFail(reports[..|reports| - 1], policyRef, id);
    }
  }
}
