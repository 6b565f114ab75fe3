/** Runs of the two loops of the scheduler over any number of policies: full scans of all checks
    of a policy, and rescans of those now failing. */
module ScanRounds {
  import opened GoTypes
  import opened LlmTypes
  import opened AlertMachine
  import opened AlertStore
  import opened Engine
  import opened Scans
  import Conditions

  datatype Kind = FullScan | Rescan

  /** One scan; rebuilt says that the policy's scheduler, and with it its engine, was built anew
      since the policy's last scan. */
  datatype Round<S> = Round(kind: Kind, policy: Policy, checks: seq<CheckItem>, start: S, rebuilt: bool)

  datatype Setting = Setting(digest: string -> string, threshold: Int32, clock: Clock)

  /** All policies share the store; what engines remember is kept per policy. */
  datatype World = World(memory: Memory, feed: Feed)

  const NEW_WORLD := World(EMPTY_MEMORY, NEW_FEED)

  function Selected(a: Alerts, policyRef: string, checks: seq<CheckItem>): seq<CheckItem> {
    if checks == [] then []
    else
      var last := checks[|checks| - 1];
      Selected(a, policyRef, checks[..|checks| - 1]) + (if IsFailing(a, policyRef, last.id) then [last] else [])
  }

  ghost predicate NoneFailing(a: Alerts, policyRef: string) {
    forall id :: !IsFailing(a, policyRef, id)
  }

  /** A rescan does nothing when the policy has no failing check. */
  ghost predicate Idle<S>(a: Alerts, r: Round<S>) {
    r.kind == Rescan && NoneFailing(a, r.policy.name)
  }

  function ToScan<S>(a: Alerts, r: Round<S>): seq<CheckItem> {
    if r.kind == FullScan then r.checks else Selected(a, r.policy.name, r.checks)
  }

  /** A new engine remembers nothing of the policy. */
  function Remembered<S>(m: Memory, r: Round<S>): Memory {
    if r.rebuilt then Memory(m.hashes - {Key(r.policy)}, m.verdicts - {Key(r.policy)}) else m
  }

  function Scanning<S>(env: Setting, b: Backend<S>, w: World, r: Round<S>): Scanned<S> {
    Scan(env.digest, Remembered(w.memory, r), b, r.start, r.policy, ToScan(w.feed.alerts, r))
  }

  ghost function Act<S>(env: Setting, b: Backend<S>, w: World, r: Round<S>): World {
    if Idle(w.feed.alerts, r) then w.(memory := Remembered(w.memory, r))
    else
      var done := Scanning(env, b, w, r);
      World(done.memory, Process(w.feed, env.threshold, r.policy.name, done.results, env.clock))
  }

  ghost function Reported<S>(env: Setting, b: Backend<S>, w: World, r: Round<S>): seq<Report> {
    if Idle(w.feed.alerts, r) then [] else Reports(r.policy.name, Scanning(env, b, w, r).results)
  }

  ghost function RunRounds<S>(env: Setting, b: Backend<S>, rounds: seq<Round<S>>): (World, seq<Report>) {
    if rounds == [] then (NEW_WORLD, [])
    else
      var (w, reports) := RunRounds(env, b, rounds[..|rounds| - 1]);
      var r := rounds[|rounds| - 1];
      (Act(env, b, w, r), reports + Reported(env, b, w, r))
  }

  lemma {:induction false} RoundsFollow<S>(env: Setting, b: Backend<S>, rounds: seq<Round<S>>)
    ensures var (w, reports) := RunRounds(env, b, rounds);
            Follows(w.feed, env.threshold, reports, env.clock)
  {
    if rounds == [] {
      assert Transitions([]) == [];
    } else {
      RoundsFollow(env, b, rounds[..|rounds| - 1]);
      var (w, reports) := RunRounds(env, b, rounds[..|rounds| - 1]);
      var r := rounds[|rounds| - 1];
      if Idle(w.feed.alerts, r) {
        assert reports + [] == reports;
      } else {
        ProcessFollows(w.feed, env.threshold, reports, r.policy.name, Scanning(env, b, w, r).results, env.clock);
      }
    }
  }

  lemma {:induction false} RoundsAreWoven<S>(env: Setting, b: Backend<S>, rounds: seq<Round<S>>)
    ensures var (w, reports) := RunRounds(env, b, rounds);
            w.feed == Weave(NEW_FEED, env.threshold, reports, env.clock)
  {
    if rounds != [] {
      RoundsAreWoven(env, b, rounds[..|rounds| - 1]);
      var (w, reports) := RunRounds(env, b, rounds[..|rounds| - 1]);
      var r := rounds[|rounds| - 1];
      if Idle(w.feed.alerts, r) {
        assert reports + [] == reports;
      } else {
        var rs := Scanning(env, b, w, r).results;
        ProcessIsWeave(w.feed, env.threshold, r.policy.name, rs, env.clock);
        WeaveInTwo(NEW_FEED, env.threshold, reports, Reports(r.policy.name, rs), env.clock);
      }
    }
  }

  /** Over any run of rounds every event sent tells of the very report whose store call gave its
      transition, in order, and no other report's call gave one. */
  lemma EventsTellTheRounds<S>(env: Setting, b: Backend<S>, rounds: seq<Round<S>>) returns (at: seq<nat>)
    ensures var (w, reports) := RunRounds(env, b, rounds);
            Told(w.feed.sent, at, reports, Emissions(env.threshold, reports, env.clock))
  {
    RoundsAreWoven(env, b, rounds);
    at := EventsTellTheirReports(env.threshold, RunRounds(env, b, rounds).1, env.clock);
  }

  /** Over any mix of full scans and rescans of any policies, with any adapter: a check is failing
      exactly when the latest PASS or FAIL reported for it is FAIL; the events sent are exactly the
      transitions of the store calls those reports make, one each, in order; and the events of each
      check form a chain that spells an alert word. */
  lemma FailingMeansLatestFailed<S>(env: Setting, b: Backend<S>, rounds: seq<Round<S>>, policyRef: string, id: string)
    requires env.threshold > 0
    ensures var (w, reports) := RunRounds(env, b, rounds);
            && (id in FailingIDs(w.feed.alerts, policyRef) <==> Latest(reports, policyRef, id) == Some(FAIL))
            && Transitions(w.feed.sent) == RunEmissions(env.threshold, Calls(reports, env.clock))
            && var ms := MovesOf(Transitions(w.feed.sent), policyRef, id);
            Chained(ms) && AlertWord(Targets(ms))
  {
    var (w, reports) := RunRounds(env, b, rounds);
    RoundsFollow(env, b, rounds);
    LatestDecides(env.threshold, reports, env.clock, policyRef, id);
    FailingIDsAre(w.feed.alerts, policyRef, id);
    NotificationsOverAnyRun(env.threshold, Calls(reports, env.clock), policyRef, id);
  }

  /** A full scan's status against the store. Degraded is true exactly when a check of the scan
      failed. Afterwards a scanned check is failing exactly when its last PASS or FAIL of the scan is
      FAIL, or it had none and was failing before. So, where the scan names no check twice, a check
      that failed is failing; and where moreover no verdict is WARN, Degraded is true exactly when
      some scanned check is failing. */
  lemma ScanHealth(env: Setting, f: Feed, policyRef: string, rs: seq<CheckResult>,
                   cs: seq<Conditions.Condition>, first: Time, second: Time)
    requires |rs| < 0x8000_0000
    ensures var after := Conditions.WriteTo(cs, Conditions.ScanWrite(Summarize(rs), first, second));
            var d := Conditions.Find(after, Conditions.DEGRADED);
            var g := Process(f, env.threshold, policyRef, rs, env.clock);
            && d.Some?
            && (d.value.status == Conditions.True <==> exists r :: r in rs && r.verdict.FAIL?)
            && (forall r <- rs :: IsFailing(g.alerts, policyRef, r.id) <==>
                  match Latest(Reports(policyRef, rs), policyRef, r.id)
                  case Some(v) => v == FAIL
                  case None => IsFailing(f.alerts, policyRef, r.id))
            && (Distinct(IDs(rs)) ==> forall r <- rs :: r.verdict.FAIL? ==> IsFailing(g.alerts, policyRef, r.id))
            && (Distinct(IDs(rs)) && (forall r <- rs :: r.verdict.PASS? || r.verdict.FAIL?) ==>
                  (d.value.status == Conditions.True <==> exists r :: r in rs && IsFailing(g.alerts, policyRef, r.id)))
  {
    Conditions.FullScanStatusIsFaithful(cs, rs, first, second);
    var g := Process(f, env.threshold, policyRef, rs, env.clock);
    ProcessIsWeave(f, env.threshold, policyRef, rs, env.clock);
    forall r <- rs
      ensures IsFailing(g.alerts, policyRef, r.id) <==>
              match Latest(Reports(policyRef, rs), policyRef, r.id)
              case Some(v) => v == FAIL
              case None => IsFailing(f.alerts, policyRef, r.id)
    {
      SinceDecides(f, env.threshold, Reports(policyRef, rs), env.clock, policyRef, r.id);
    }
    if Distinct(IDs(rs)) {
      forall r <- rs ensures IsFailing(g.alerts, policyRef, r.id)
                             <==> r.verdict == FAIL || (r.verdict != PASS && IsFailing(f.alerts, policyRef, r.id))
      {
        var i :| 0 <= i < |rs| && rs[i] == r;
        ScanDecides(f, env.threshold, policyRef, rs, env.clock, i);
      }
    }
  }

  /* ---- Rescans ---- */

  lemma {:induction false} SelectedAreFailing(a: Alerts, policyRef: string, checks: seq<CheckItem>)
    ensures forall c :: c in Selected(a, policyRef, checks) <==> c in checks && IsFailing(a, policyRef, c.id)
  {
    if checks != [] {
      var front, last := checks[..|checks| - 1], checks[|checks| - 1];
      SelectedAreFailing(a, policyRef, front);
      assert forall c :: c in checks <==> c in front || c == last;
    }
  }

  /** The checks at these places, ascending, are those a round covers: all, or in a rescan those
      now failing. */
  ghost predicate Covers<S>(a: Alerts, r: Round<S>, at: seq<nat>) {
    && (forall i, j | 0 <= i < j < |at| :: at[i] < at[j])
    && (forall k :: k in at <==> 0 <= k < |r.checks| && (r.kind == FullScan || IsFailing(a, r.policy.name, r.checks[k].id)))
  }

  /** The checks picked are those at these places, ascending. */
  ghost predicate Picks(some: seq<CheckItem>, checks: seq<CheckItem>, at: seq<nat>) {
    && |at| == |some|
    && (forall i, j | 0 <= i < j < |at| :: at[i] < at[j])
    && (forall i | 0 <= i < |at| :: at[i] < |checks| && some[i] == checks[at[i]])
  }

  ghost predicate FailAt(a: Alerts, policyRef: string, checks: seq<CheckItem>, at: seq<nat>) {
    forall k :: k in at <==> 0 <= k < |checks| && IsFailing(a, policyRef, checks[k].id)
  }

  lemma OneMorePick(some: seq<CheckItem>, front: seq<CheckItem>, at: seq<nat>, last: CheckItem)
    requires Picks(some, front, at)
    ensures Picks(some, front + [last], at) && Picks(some + [last], front + [last], at + [|front|])
  {
  }

  lemma OneMoreFailAt(a: Alerts, policyRef: string, front: seq<CheckItem>, at: seq<nat>, last: CheckItem)
    requires FailAt(a, policyRef, front, at)
    ensures FailAt(a, policyRef, front + [last], at + if IsFailing(a, policyRef, last.id) then [|front|] else [])
  {
    var longer := at + if IsFailing(a, policyRef, last.id) then [|front|] else [];
    forall k ensures k in longer <==> 0 <= k < |front + [last]| && IsFailing(a, policyRef, (front + [last])[k].id) {
      assert k in longer <==> k in at || (k == |front| && IsFailing(a, policyRef, last.id));
    }
  }

  lemma {:induction false} SelectedAt(a: Alerts, policyRef: string, checks: seq<CheckItem>) returns (at: seq<nat>)
    ensures Picks(Selected(a, policyRef, checks), checks, at) && FailAt(a, policyRef, checks, at)
  {
    if checks == [] {
      at := [];
    } else {
      var front, last := checks[..|checks| - 1], checks[|checks| - 1];
      var before := SelectedAt(a, policyRef, front);
      assert front + [last] == checks;
      OneMorePick(Selected(a, policyRef, front), front, before, last);
      OneMoreFailAt(a, policyRef, front, before, last);
      at := before + if IsFailing(a, policyRef, last.id) then [|front|] else [];
      assert before + [] == before;
      assert Selected(a, policyRef, front) + [] == Selected(a, policyRef, front);
    }
  }

  /** A round reports once on each check it covers, in the policy's order, under the policy's name,
      and on nothing else. */
  lemma RoundReportsOn<S>(env: Setting, b: Backend<S>, w: World, r: Round<S>) returns (at: seq<nat>)
    ensures var reports := Reported(env, b, w, r);
            && Covers(w.feed.alerts, r, at) && |reports| == |at|
            && forall i | 0 <= i < |at| ::
                 at[i] in at && reports[i].policyRef == r.policy.name && ReportsOn(reports[i].result, r.checks[at[i]])
  {
    var a, name := w.feed.alerts, r.policy.name;
    at := Covered(a, r);
    assert |at| > 0 ==> at[0] in at;
    if !Idle(a, r) {
      var some, rs := ToScan(a, r), Scanning(env, b, w, r).results;
      ScanReportsOnAll(env.digest, Remembered(w.memory, r), b, r.start, r.policy, some);
      forall i | 0 <= i < |at|
        ensures at[i] in at && Reports(name, rs)[i].policyRef == name && ReportsOn(Reports(name, rs)[i].result, r.checks[at[i]])
      {
        assert at[i] in at && some[i] == r.checks[at[i]] && ReportsOn(rs[i], some[i]);
      }
    }
  }

  lemma Covered<S>(a: Alerts, r: Round<S>) returns (at: seq<nat>)
    ensures Covers(a, r, at) && Picks(ToScan(a, r), r.checks, at)
  {
    if r.kind == FullScan {
      at := seq(|r.checks|, i requires 0 <= i < |r.checks| => i);
      forall k | 0 <= k < |r.checks| ensures k in at {
        assert at[k] == k;
      }
    } else {
      at := SelectedAt(a, r.policy.name, r.checks);
    }
  }

  function CheckIDs(checks: seq<CheckItem>): (ids: seq<string>)
    ensures |ids| == |checks| && forall i | 0 <= i < |ids| :: ids[i] == checks[i].id
  {
    seq(|checks|, i requires 0 <= i < |checks| => checks[i].id)
  }

  lemma {:induction false} SelectedAreDistinct(a: Alerts, policyRef: string, checks: seq<CheckItem>)
    requires Distinct(CheckIDs(checks))
    ensures Distinct(CheckIDs(Selected(a, policyRef, checks)))
  {
    if checks != [] {
      var front, last := checks[..|checks| - 1], checks[|checks| - 1];
      assert forall i | 0 <= i < |front| :: CheckIDs(front)[i] == CheckIDs(checks)[i];
      SelectedAreDistinct(a, policyRef, front);
      SelectedAreFailing(a, policyRef, front);
      var some := Selected(a, policyRef, front);
      forall k | 0 <= k < |some| ensures some[k].id != last.id {
        assert some[k] in front;
        var i :| 0 <= i < |front| && front[i] == some[k];
        assert CheckIDs(checks)[i] != CheckIDs(checks)[|front|];
      }
      assert forall k | 0 <= k < |some| :: CheckIDs(Selected(a, policyRef, checks))[k] == CheckIDs(some)[k];
    }
  }

  /** The results of a rescan are for failing checks, and for each once if the policy names each once. */
  lemma RescanResults<S>(env: Setting, b: Backend<S>, w: World, r: Round<S>)
    requires r.kind == Rescan
    ensures AllFailing(w.feed.alerts, r.policy.name, IDs(Scanning(env, b, w, r).results))
    ensures Distinct(CheckIDs(r.checks)) ==> Distinct(IDs(Scanning(env, b, w, r).results))
  {
    var name, a, some := r.policy.name, w.feed.alerts, ToScan(w.feed.alerts, r);
    var rs := Scanning(env, b, w, r).results;
    ScanReportsOnAll(env.digest, Remembered(w.memory, r), b, r.start, r.policy, some);
    SelectedAreFailing(a, name, r.checks);
    forall i | 0 <= i < |rs| ensures IDs(rs)[i] == CheckIDs(some)[i] && IsFailing(a, name, IDs(rs)[i]) {
      assert ReportsOn(rs[i], some[i]) && some[i] in some;
    }
    if Distinct(CheckIDs(r.checks)) {
      SelectedAreDistinct(a, name, r.checks);
    }
  }

  /** A rescan that nobody interrupts only shrinks the failing set, touches only its members, and of a policy with
      distinct check IDs it sends only escalations and resolutions of members. */
  lemma RescanIsConfined<S>(env: Setting, b: Backend<S>, w: World, r: Round<S>, k: Entry)
    requires r.kind == Rescan
    ensures var before, after := w.feed, Act(env, b, w, r).feed;
            && FailingIDs(after.alerts, r.policy.name) <= FailingIDs(before.alerts, r.policy.name)
            && (k.policy != r.policy.name || k.check !in FailingIDs(before.alerts, r.policy.name) ==>
                  (k in after.alerts <==> k in before.alerts)
                  && (k in before.alerts ==> after.alerts[k] == before.alerts[k]))
            && (Distinct(CheckIDs(r.checks)) ==>
                  NoneFires(before.sent, after.sent, r.policy.name, IDs(Scanning(env, b, w, r).results)))
  {
    if !Idle(w.feed.alerts, r) {
      var rs := Scanning(env, b, w, r).results;
      RescanResults(env, b, w, r);
      Confined(env, w.feed, r.policy.name, rs, k);
      if Distinct(CheckIDs(r.checks)) {
        RescanNeverFires(w.feed, env.threshold, r.policy.name, rs, env.clock);
      }
    }
  }

  lemma Confined(env: Setting, f: Feed, name: string, rs: seq<CheckResult>, k: Entry)
    requires AllFailing(f.alerts, name, IDs(rs))
    ensures var g := Process(f, env.threshold, name, rs, env.clock);
            && FailingIDs(g.alerts, name) <= FailingIDs(f.alerts, name)
            && (k.policy != name || k.check !in FailingIDs(f.alerts, name) ==>
                  (k in g.alerts <==> k in f.alerts) && (k in f.alerts ==> g.alerts[k] == f.alerts[k]))
  {
    var g := Process(f, env.threshold, name, rs, env.clock);
    forall e: Entry ensures e.policy != name || !IsFailing(f.alerts, name, e.check) ==>
                            (e in g.alerts <==> e in f.alerts) && (e in f.alerts ==> g.alerts[e] == f.alerts[e])
    {
      if e.policy != name || !IsFailing(f.alerts, name, e.check) {
        UnreportedIsKept(f, env.threshold, name, rs, env.clock, e);
      }
    }
    forall id ensures id in FailingIDs(g.alerts, name) ==> id in FailingIDs(f.alerts, name) {
      FailingIDsAre(f.alerts, name, id);
      FailingIDsAre(g.alerts, name, id);
      assert Entry(name, id).policy == name;
    }
    FailingIDsAre(f.alerts, name, k.check);
  }
}
