/** The scheduler of operator/internal/scheduler/scheduler.go: its two scans as methods over the
    engine, the alert store, the notifications and the policy's status. Whether the API server
    takes a new result or a status update, and the clock readings of the status, are parameters. */
module Scheduler {
  import opened GoTypes
  import opened LlmTypes
  import opened AlertMachine
  import opened AlertStore
  import opened Conditions
  import opened Scans
  import opened ScanRounds
  import E = Engine

  class WallClock {
    const reading: Clock
    var tick: nat

    constructor (reading: Clock)
      ensures this.reading == reading && tick == 0
    {
      this.reading, tick := reading, 0;
    }

    method Now() returns (now: Time)
      modifies this
      ensures now == reading(old(tick)) && tick == old(tick) + 1
    {
      now := reading(tick);
      tick := tick + 1;
    }
  }

  class Dispatcher {
    var sent: seq<Event>

    constructor ()
      ensures sent == []
    {
      sent := [];
    }

    method Dispatch(event: Event)
      modifies this
      ensures sent == old(sent) + [event]
    {
      sent := sent + [event];
    }
  }

  /** What the API server keeps for one policy: the results of its scans and its status. */
  class PolicyRecord {
    var results: seq<seq<E.CheckResult>>
    var lastFullScan: Option<Time>
    var summary: Option<E.Summary>
    var conditions: seq<Condition>

    constructor ()
      ensures results == [] && lastFullScan == None && summary == None && conditions == []
    {
      results, lastFullScan, summary, conditions := [], None, None, [];
    }
  }

  datatype Stamp = Stamp(scan: Time, first: Time, second: Time)

  class Scheduler {
    const policy: E.Policy
    const checks: seq<E.CheckItem>
    const engine: E.Engine
    const store: Store
    const dispatcher: Dispatcher
    const clock: WallClock
    const record: PolicyRecord

    constructor (policy: E.Policy, checks: seq<E.CheckItem>, engine: E.Engine, store: Store,
                 dispatcher: Dispatcher, clock: WallClock, record: PolicyRecord)
      ensures this.policy == policy && this.checks == checks && this.engine == engine && this.store == store
      ensures this.dispatcher == dispatcher && this.clock == clock && this.record == record
    {
      this.policy, this.checks, this.engine, this.store := policy, checks, engine, store;
      this.dispatcher, this.clock, this.record := dispatcher, clock, record;
    }

    ghost function Fed(): Feed
      reads store, clock, dispatcher
    {
      Feed(store.contents, clock.tick, dispatcher.sent)
    }

    ghost function Now(): World
      reads engine, store, clock, dispatcher
    {
      World(engine.Remembered(), Fed())
    }

    /** The results as they are stored after the scan of a round. */
    ghost function Stored<S>(b: E.Backend<S>, w: World, r: Round<S>): seq<E.CheckResult> {
      DatedAll(w.feed, store.escalationThreshold, policy.name, Scanning(Env(), b, w, r).results, clock.reading)
    }

    ghost function Env(): Setting
    {
      Setting(engine.digest, store.escalationThreshold, clock.reading)
    }

    /** Results pass through the store in order; failing ones are dated in place. */
    method ProcessResults(results: array<E.CheckResult>)
      requires store.Valid()
      modifies store, store.repr, dispatcher, clock, results
      ensures store.Valid() && fresh(store.repr - old(store.repr))
      ensures Fed() == Process(old(Fed()), store.escalationThreshold, policy.name, old(results[..]), clock.reading)
      ensures results[..] == DatedAll(old(Fed()), store.escalationThreshold, policy.name, old(results[..]), clock.reading)
    {
      ghost var rs, f := results[..], Fed();
      ghost var all := DatedAll(f, store.escalationThreshold, policy.name, rs, clock.reading);
      for i := 0 to results.Length
        invariant store.Valid() && fresh(store.repr - old(store.repr))
        invariant Fed() == Process(f, store.escalationThreshold, policy.name, rs[..i], clock.reading)
        invariant forall j | 0 <= j < i :: results[j] == all[j]
        invariant forall j | i <= j < results.Length :: results[j] == rs[j]
      {
        NextResult(f, store.escalationThreshold, policy.name, rs, i, clock.reading);
        var dated := ProcessResult(results[i]);
        results[i] := dated;
      }
      assert rs[..|rs|] == rs;
    }

    /** One result: its store call, and an event if that call gave a transition. */
    method ProcessResult(check: E.CheckResult) returns (dated: E.CheckResult)
      requires store.Valid()
      modifies store, store.repr, dispatcher, clock
      ensures store.Valid() && fresh(store.repr - old(store.repr))
      ensures Fed() == ProcessOne(old(Fed()), store.escalationThreshold, policy.name, check, clock.reading)
      ensures dated == Scans.Dated(check, Value(Fed().alerts, policy.name, check.id))
    {
      var transition;
      transition, dated := Record(check);
      if transition.Some? {
        dispatcher.Dispatch(Event(policy.name, check.id, check.description, check.severity, check.verdict,
                                  check.reasoning, transition.value));
      }
    }

    /** The store call a verdict makes, if any. */
    method Record(check: E.CheckResult) returns (transition: Option<Transition>, dated: E.CheckResult)
      requires store.Valid()
      modifies store, store.repr, clock
      ensures store.Valid() && fresh(store.repr - old(store.repr))
      ensures var call := CallFor(policy.name, check, clock.reading(old(clock.tick)));
              if call.None? then store.contents == old(store.contents) && clock.tick == old(clock.tick) && transition == None
              else
                && store.contents == Apply(old(store.contents), store.escalationThreshold, call.value)
                && clock.tick == old(clock.tick) + 1
                && transition == Emission(old(store.contents), store.escalationThreshold, call.value)
      ensures dated == Scans.Dated(check, Value(store.contents, policy.name, check.id))
    {
      transition, dated := None, check;
      if check.verdict == FAIL {
        var now := clock.Now();
        transition := store.RecordFail(policy.name, check.id, now);
        var copy := store.GetState(policy.name, check.id);
        if copy.Some? {
          dated := check.(failedSince := Some(copy.value.failedSince));
        }
      } else if check.verdict == PASS {
        var now := clock.Now();
        transition := store.RecordPass(policy.name, check.id, now);
      }
    }

    static method InArray(rs: seq<E.CheckResult>) returns (results: array<E.CheckResult>)
      ensures fresh(results) && results[..] == rs
    {
      results := new E.CheckResult[|rs|](i requires 0 <= i < |rs| => rs[i]);
    }

    /** The part the two scans share: run the checks, then process the results. */
    method RunAndProcess<S>(b: E.Backend<S>, start: S, some: seq<E.CheckItem>, ghost r: Round<S>)
      returns (results: array<E.CheckResult>, summary: E.Summary)
      requires store.Valid()
      requires r.policy == policy && r.start == start && !r.rebuilt && !Idle(store.contents, r) && some == ToScan(store.contents, r)
      modifies engine, store, store.repr, dispatcher, clock
      ensures store.Valid() && fresh(store.repr - old(store.repr)) && fresh(results)
      ensures Now() == Act(Env(), b, old(Now()), r)
      ensures results[..] == Stored(b, old(Now()), r)
      ensures summary == E.Summarize(Scanning(Env(), b, old(Now()), r).results)
    {
      var s, rs;
      s, rs, summary := engine.RunChecks(b, start, policy, some);
      results := InArray(rs);
      ProcessResults(results);
    }

    /** A round that is not idle, its result object included. */
    method RunRound<S>(b: E.Backend<S>, start: S, some: seq<E.CheckItem>, ghost r: Round<S>, created: bool)
      returns (summary: E.Summary)
      requires store.Valid()
      requires r.policy == policy && r.start == start && !r.rebuilt && !Idle(store.contents, r) && some == ToScan(store.contents, r)
      modifies engine, store, store.repr, dispatcher, clock, record`results
      ensures store.Valid() && fresh(store.repr - old(store.repr))
      ensures Now() == Act(Env(), b, old(Now()), r)
      ensures record.results == old(record.results) + if created then [Stored(b, old(Now()), r)] else []
      ensures summary == E.Summarize(Scanning(Env(), b, old(Now()), r).results)
    {
      var results;
      results, summary := RunAndProcess(b, start, some, r);
      if created {
        record.results := record.results + [results[..]];
      }
    }

    /** The scan's result object, then the policy's status, each only if the API server agrees. */
    method RunFullScan<S>(b: E.Backend<S>, start: S, created: bool, updated: bool, stamp: Stamp)
      requires store.Valid()
      modifies engine, store, store.repr, dispatcher, clock, record
      ensures store.Valid() && fresh(store.repr - old(store.repr))
      ensures Now() == Act(Env(), b, old(Now()), Round(FullScan, policy, checks, start, false))
      ensures var r := Round(FullScan, policy, checks, start, false);
              && record.results == old(record.results) + (if created then [Stored(b, old(Now()), r)] else [])
              && StatusAfter(if created && updated then Some(E.Summarize(Scanning(Env(), b, old(Now()), r).results))
                             else None, stamp)
    {
      var summary := RunRound(b, start, checks, Round(FullScan, policy, checks, start, false), created);
      if created && updated {
        UpdatePolicyStatus(summary, stamp);
      }
    }

    twostate predicate StatusAfter(scanned: Option<E.Summary>, stamp: Stamp)
      reads record
    {
      if scanned.Some? then
        && record.lastFullScan == Some(stamp.scan) && record.summary == scanned
        && record.conditions == WriteTo(old(record.conditions), ScanWrite(scanned.value, stamp.first, stamp.second))
      else
        && record.lastFullScan == old(record.lastFullScan) && record.summary == old(record.summary)
        && record.conditions == old(record.conditions)
    }

    method UpdatePolicyStatus(summary: E.Summary, stamp: Stamp)
      modifies record
      ensures record.results == old(record.results) && StatusAfter(Some(summary), stamp)
    {
      record.lastFullScan, record.summary := Some(stamp.scan), Some(summary);
      var cs, message := record.conditions, LastScan(summary);
      if summary.failed > 0 {
        cs := SetCondition(cs, Condition(DEGRADED, True, "ChecksFailed", message, stamp.first));
        cs := SetCondition(cs, Condition(AVAILABLE, False, "ChecksFailed", message, stamp.second));
      } else {
        cs := SetCondition(cs, Condition(AVAILABLE, True, "ScanCompleted", message, stamp.first));
        cs := SetCondition(cs, Condition(DEGRADED, False, "ScanCompleted", message, stamp.second));
      }
      record.conditions := cs;
    }

    /** The checks a rescan covers: those of the policy now failing, in the policy's order. */
    method FailedChecks() returns (idle: bool, some: seq<E.CheckItem>)
      requires store.Valid()
      ensures idle <==> NoneFailing(store.contents, policy.name)
      ensures some == Selected(store.contents, policy.name, checks)
    {
      var failedIDs := store.FailedChecks(policy.name);
      idle, some := |failedIDs| == 0, [];
      ListsTheFailing(store.contents, policy.name, failedIDs);
      for i := 0 to |checks|
        invariant some == Selected(store.contents, policy.name, checks[..i])
      {
        assert checks[..i + 1][..i] == checks[..i];
        if checks[i].id in failedIDs {
          some := some + [checks[i]];
        }
      }
      assert checks[..|checks|] == checks;
    }

    /** Only checks now failing are scanned; the policy's status is left alone. */
    method RunRescan<S>(b: E.Backend<S>, start: S, created: bool)
      requires store.Valid()
      modifies engine, store, store.repr, dispatcher, clock, record`results
      ensures store.Valid() && fresh(store.repr - old(store.repr))
      ensures Now() == Act(Env(), b, old(Now()), Round(Rescan, policy, checks, start, false))
      ensures var r := Round(Rescan, policy, checks, start, false);
              record.results == old(record.results)
                + (if created && !Idle(old(store.contents), r) then [Stored(b, old(Now()), r)] else [])
    {
      var idle, some := FailedChecks();
      if idle {
        return;
      }
      var _ := RunRound(b, start, some, Round(Rescan, policy, checks, start, false), created);
    }
  }

  lemma {:induction false} NextResult(f: Feed, threshold: Int32, policyRef: string, rs: seq<E.CheckResult>, i: nat,
                                     reading: Clock)
    requires i < |rs|
    ensures var g := ProcessOne(Process(f, threshold, policyRef, rs[..i], reading), threshold, policyRef, rs[i], reading);
            && Process(f, threshold, policyRef, rs[..i + 1], reading) == g
            && DatedAll(f, threshold, policyRef, rs, reading)[i] == Scans.Dated(rs[i], Value(g.alerts, policyRef, rs[i].id))
  {
    var front := rs[..|rs| - 1];
    assert rs[..i + 1][..i] == rs[..i];
    if i < |front| {
      NextResult(f, threshold, policyRef, front, i, reading);
      assert front[..i] == rs[..i] && front[i] == rs[i];
    } else {
      assert rs[..i + 1] == rs && front == rs[..i];
    }
  }

  lemma ListsTheFailing(a: Alerts, policyRef: string, failedIDs: seq<string>)
    requires forall id :: id in failedIDs <==> id in FailingIDs(a, policyRef)
    ensures forall id :: id in failedIDs <==> IsFailing(a, policyRef, id)
    ensures NoneFailing(a, policyRef) <==> |failedIDs| == 0
  {
    forall id ensures id in failedIDs <==> IsFailing(a, policyRef, id) {
      FailingIDsAre(a, policyRef, id);
    }
    if |failedIDs| > 0 {
      assert failedIDs[0] in failedIDs;
    }
  }
}
