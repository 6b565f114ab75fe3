/** The alert store of operator/internal/state/store.go: heap cells inside nested maps,
    and what any sequence of calls on it guarantees. Every call takes the store's lock, so an
    interleaving of concurrent callers is a sequence of calls. */
module AlertStore {
  import opened GoTypes
  import opened AlertMachine

  const DEFAULT_THRESHOLD: Int32 := 5

  datatype Op = Op(policy: string, check: string, seen: Observation)

  datatype Entry = Entry(policy: string, check: string)

  /** The store's contents as a value: (policy, check) to what its cell holds. */
  type Alerts = map<Entry, CheckValue>

  function Value(a: Alerts, policy: string, check: string): CheckValue {
    if Entry(policy, check) in a then a[Entry(policy, check)] else FRESH
  }

  function Apply(a: Alerts, threshold: Int32, op: Op): Alerts {
    a[Entry(op.policy, op.check) := After(Value(a, op.policy, op.check), threshold, op.seen)]
  }

  /** A call reports a transition exactly when it changes the state of its check. */
  function Emission(a: Alerts, threshold: Int32, op: Op): Option<Transition> {
    var before := Value(a, op.policy, op.check);
    var after := After(before, threshold, op.seen);
    if before.state == after.state then None
    else Some(Transition(op.check, op.policy, before.state, after.state, after))
  }

  ghost function FailingIDs(a: Alerts, policy: string): set<string> {
    set k <- a.Keys | k.policy == policy && Failing(a[k].state) :: k.check
  }

  /* ---- Sequences of calls ---- */

  function RunAlerts(threshold: Int32, ops: seq<Op>): Alerts {
    if ops == [] then map[] else Apply(RunAlerts(threshold, ops[..|ops| - 1]), threshold, ops[|ops| - 1])
  }

  function Reported(o: Option<Transition>): seq<Transition> {
    if o.Some? then [o.value] else []
  }

  /** All transitions reported over a sequence of calls, in order. */
  function RunEmissions(threshold: Int32, ops: seq<Op>): seq<Transition> {
    if ops == [] then []
    else
      var earlier := ops[..|ops| - 1];
      RunEmissions(threshold, earlier) + Reported(Emission(RunAlerts(threshold, earlier), threshold, ops[|ops| - 1]))
  }

  function History(ops: seq<Op>, policy: string, check: string): seq<Observation> {
    if ops == [] then []
    else
      var op := ops[|ops| - 1];
      History(ops[..|ops| - 1], policy, check)
        + (if op.policy == policy && op.check == check then [op.seen] else [])
  }

  function MovesOf(ts: seq<Transition>, policy: string, check: string): seq<Move> {
    if ts == [] then []
    else
      var t := ts[|ts| - 1];
      MovesOf(ts[..|ts| - 1], policy, check)
        + (if t.policyRef == policy && t.checkID == check then [Move(t.from, t.to)] else [])
  }

  lemma {:induction false} OwnCell(threshold: Int32, ops: seq<Op>, policy: string, check: string)
    ensures var h := History(ops, policy, check);
            && (Entry(policy, check) in RunAlerts(threshold, ops) <==> h != [])
            && Value(RunAlerts(threshold, ops), policy, check) == RunCheck(threshold, h)
  {
    if ops != [] {
      var earlier := ops[..|ops| - 1];
      OwnCell(threshold, earlier, policy, check);
      var g, h := History(earlier, policy, check), History(ops, policy, check);
      if h != g {
        assert h[..|h| - 1] == g;
      }
    }
  }

  lemma {:induction false} OwnMoves(threshold: Int32, ops: seq<Op>, policy: string, check: string)
    ensures MovesOf(RunEmissions(threshold, ops), policy, check) == Moves(threshold, History(ops, policy, check))
  {
    if ops != [] {
      var earlier, op := ops[..|ops| - 1], ops[|ops| - 1];
      OwnMoves(threshold, earlier, policy, check);
      OwnCell(threshold, earlier, policy, check);
      var ts, e := RunEmissions(threshold, earlier), Emission(RunAlerts(threshold, earlier), threshold, op);
      MovesOneMore(ts, e, policy, check);
      var g, h := History(earlier, policy, check), History(ops, policy, check);
      if op.policy == policy && op.check == check {
        assert h == g + [op.seen];
        MovesGrow(threshold, g, op.seen);
      } else {
        assert h == g;
      }
    }
  }

  lemma MovesOneMore(ts: seq<Transition>, o: Option<Transition>, policy: string, check: string)
    ensures MovesOf(ts + Reported(o), policy, check)
         == MovesOf(ts, policy, check)
            + if o.Some? && o.value.policyRef == policy && o.value.checkID == check
              then [Move(o.value.from, o.value.to)] else []
  {
    if o.Some? {
      assert (ts + [o.value])[..|ts|] == ts;
    } else {
      assert ts + Reported(o) == ts;
    }
  }

  /** A check sees only its own calls: its cell and its notifications are those of its own
      history, whatever is interleaved on other checks and policies. */
  lemma ChecksAreIndependent(threshold: Int32, ops: seq<Op>, policy: string, check: string)
    ensures var h := History(ops, policy, check);
            && (Entry(policy, check) in RunAlerts(threshold, ops) <==> h != [])
            && Value(RunAlerts(threshold, ops), policy, check) == RunCheck(threshold, h)
            && MovesOf(RunEmissions(threshold, ops), policy, check) == Moves(threshold, h)
  {
    OwnCell(threshold, ops, policy, check);
    OwnMoves(threshold, ops, policy, check);
  }

  /** A transition tells what its call did: the check and policy it named, the state they had
      before, and the whole cell as it is now. There is none exactly if the state stayed. */
  lemma TransitionTellsTheCell(threshold: Int32, ops: seq<Op>, op: Op)
    ensures var before := Value(RunAlerts(threshold, ops), op.policy, op.check);
            var after := Value(RunAlerts(threshold, ops + [op]), op.policy, op.check);
            && RunEmissions(threshold, ops + [op]) == RunEmissions(threshold, ops)
                 + (if before.state == after.state then []
                    else [Transition(op.check, op.policy, before.state, after.state, after)])
            && forall k | k != Entry(op.policy, op.check) ::
                 (k in RunAlerts(threshold, ops) <==> k in RunAlerts(threshold, ops + [op]))
                 && (k in RunAlerts(threshold, ops) ==> RunAlerts(threshold, ops + [op])[k] == RunAlerts(threshold, ops)[k])
  {
    assert (ops + [op])[..|ops|] == ops;
  }

  /** Over every interleaving, the notifications of each check form a chain that spells an
      alert word and ends in the state the store holds. */
  lemma NotificationsOverAnyRun(threshold: Int32, ops: seq<Op>, policy: string, check: string)
    requires threshold > 0
    ensures var ms := MovesOf(RunEmissions(threshold, ops), policy, check);
            && Chained(ms)
            && AlertWord(Targets(ms))
            && Value(RunAlerts(threshold, ops), policy, check).state == if ms == [] then Unknown else ms[|ms| - 1].to
  {
    ChecksAreIndependent(threshold, ops, policy, check);
    NotificationsFormAChain(threshold, History(ops, policy, check));
  }

  function CountTo(ts: seq<Transition>, policy: string, target: AlertState): nat {
    if ts == [] then 0
    else
      var t := ts[|ts| - 1];
      CountTo(ts[..|ts| - 1], policy, target) + (if t.policyRef == policy && t.to == target then 1 else 0)
  }

  lemma CountOneMore(ts: seq<Transition>, o: Option<Transition>, policy: string, target: AlertState)
    ensures CountTo(ts + Reported(o), policy, target)
         == CountTo(ts, policy, target)
            + if o.Some? && o.value.policyRef == policy && o.value.to == target then 1 else 0
  {
    if o.Some? {
      assert (ts + [o.value])[..|ts|] == ts;
    } else {
      assert ts + Reported(o) == ts;
    }
  }

  lemma FailingIDsStep(a: Alerts, threshold: Int32, op: Op, policy: string)
    ensures var before, after := FailingIDs(a, policy), FailingIDs(Apply(a, threshold, op), policy);
            var now := Failing(Apply(a, threshold, op)[Entry(op.policy, op.check)].state);
            after == if op.policy != policy then before
                     else if now then before + {op.check} else before - {op.check}
  {
    var b := Apply(a, threshold, op);
    forall id ensures id in FailingIDs(b, policy) <==>
                      Entry(policy, id) in b && Failing(b[Entry(policy, id)].state) {}
    forall id ensures id in FailingIDs(a, policy) <==>
                      Entry(policy, id) in a && Failing(a[Entry(policy, id)].state) {}
  }

  /** Conservation: over every interleaving on all policies and checks, the checks now failing
      for a policy number its FIRING notifications less its RESOLVED ones. */
  lemma {:induction false} FailingChecksAreConserved(threshold: Int32, ops: seq<Op>, policy: string)
    requires threshold > 0
    ensures var ts := RunEmissions(threshold, ops);
            |FailingIDs(RunAlerts(threshold, ops), policy)| == CountTo(ts, policy, Firing) - CountTo(ts, policy, Resolved)
  {
    if ops != [] {
      var earlier, op := ops[..|ops| - 1], ops[|ops| - 1];
      FailingChecksAreConserved(threshold, earlier, policy);
      var a := RunAlerts(threshold, earlier);
      var e, ts := Emission(a, threshold, op), RunEmissions(threshold, earlier);
      CountOneMore(ts, e, policy, Firing);
      CountOneMore(ts, e, policy, Resolved);
      FailingIDsStep(a, threshold, op, policy);
      assert op.check in FailingIDs(a, op.policy) <==> Failing(Value(a, op.policy, op.check).state) by {
        assert op.check in FailingIDs(a, op.policy) <==>
               Entry(op.policy, op.check) in a && Failing(a[Entry(op.policy, op.check)].state);
      }
    } else {
      assert FailingIDs(map[], policy) == {};
    }
  }

  /* ---- The store itself ---- */

  class CheckState {
    var state: AlertState
    var failedSince: Time
    var retryCount: Int32
    var lastUpdated: Time
    /** The one (policy, check) entry this cell was made for. */
    ghost const entry: Entry

    constructor (ghost policyRef: string, ghost checkID: string)
      ensures Value() == FRESH && entry == Entry(policyRef, checkID)
    {
      entry := Entry(policyRef, checkID);
      state, failedSince, retryCount, lastUpdated := Unknown, ZERO_TIME, 0, ZERO_TIME;
    }

    function Value(): CheckValue
      reads this
    {
      CheckValue(state, failedSince, retryCount, lastUpdated)
    }

    /** The cell's part of RecordFail; moved says whether the state changed. */
    method Fail(now: Time, threshold: Int32) returns (moved: bool)
      modifies this
      ensures Value() == AfterFail(old(Value()), threshold, now)
      ensures moved == (state != old(state))
    {
      moved := false;
      if state == Unknown || state == Resolved {
        state, failedSince, retryCount, lastUpdated := Firing, now, 0, now;
        moved := true;
      } else if state == Firing {
        retryCount := Wrap32(retryCount + 1);
        lastUpdated := now;
        if retryCount >= threshold {
          state := Escalated;
          moved := true;
        }
      } else {
        retryCount := Wrap32(retryCount + 1);
        lastUpdated := now;
      }
    }

    /** The cell's part of RecordPass. */
    method Pass(now: Time) returns (moved: bool)
      modifies this
      ensures Value() == AfterPass(old(Value()), now)
      ensures moved == (state != old(state))
    {
      moved := state == Firing || state == Escalated;
      if moved {
        state, retryCount, lastUpdated := Resolved, 0, now;
      }
    }

    method Restore(since: Time, now: Time)
      modifies this
      ensures Value() == CheckValue(Firing, since, old(retryCount), now)
    {
      state, failedSince, lastUpdated := Firing, since, now;
    }
  }

  class Store {
    var checks: map<string, map<string, CheckState>>
    const escalationThreshold: Int32

    /** What the cells hold, and the cells. */
    ghost var contents: Alerts
    ghost var repr: set<CheckState>

    /** The contents mirror the nested maps, and each cell belongs to the entry it was made for. */
    ghost predicate Valid()
      reads this, repr
    {
      && escalationThreshold > 0
      && (forall p, c {:trigger Entry(p, c)} :: Entry(p, c) in contents <==> p in checks && c in checks[p])
      && (forall k <- contents :: Mirrored(k))
    }

    ghost predicate Mirrored(k: Entry)
      requires k in contents
      reads this, repr
    {
      && k.policy in checks && k.check in checks[k.policy]
      && var cs := checks[k.policy][k.check];
         cs in repr && cs.entry == k && cs.Value() == contents[k]
    }

    /** Hence no two (policy, check) entries share a cell. */
    lemma NoSharedCells(p1: string, c1: string, p2: string, c2: string)
      requires Valid()
      requires p1 in checks && c1 in checks[p1] && p2 in checks && c2 in checks[p2]
      requires checks[p1][c1] == checks[p2][c2]
      ensures p1 == p2 && c1 == c2
    {
      assert Mirrored(Entry(p1, c1)) && Mirrored(Entry(p2, c2));
    }

    constructor (threshold: Int32)
      ensures Valid() && contents == map[] && repr == {}
      ensures escalationThreshold == if threshold <= 0 then 5 else threshold
    {
      escalationThreshold := if threshold <= 0 then DEFAULT_THRESHOLD else threshold;
      checks, contents, repr := map[], map[], {};
    }

    method Create(policyRef: string, checkID: string)
      requires Valid() && Entry(policyRef, checkID) !in contents
      modifies this
      ensures Valid() && fresh(repr - old(repr))
      ensures contents == old(contents)[Entry(policyRef, checkID) := FRESH]
    {
      var cells: map<string, CheckState> := map[];
      if policyRef in checks {
        cells := checks[policyRef];
      }
      var cs := new CheckState(policyRef, checkID);
      checks := checks[policyRef := cells[checkID := cs]];
      contents, repr := contents[Entry(policyRef, checkID) := FRESH], repr + {cs};
      forall k <- contents ensures Mirrored(k) {
        assert k != Entry(policyRef, checkID) ==> old(Mirrored(k));
      }
    }

    method GetOrCreate(policyRef: string, checkID: string) returns (cs: CheckState)
      requires Valid()
      modifies this
      ensures Valid() && fresh(repr - old(repr))
      ensures contents == old(contents)[Entry(policyRef, checkID) := Value(old(contents), policyRef, checkID)]
      ensures policyRef in checks && checkID in checks[policyRef] && cs == checks[policyRef][checkID]
      ensures cs in repr && cs.entry == Entry(policyRef, checkID)
      ensures cs.Value() == Value(old(contents), policyRef, checkID)
    {
      if policyRef !in checks || checkID !in checks[policyRef] {
        Create(policyRef, checkID);
      }
      cs := checks[policyRef][checkID];
      assert Mirrored(Entry(policyRef, checkID));
    }

    /** Writing one cell and its entry of the contents keeps the mirror. */
    twostate lemma StillMirrored(cs: CheckState, new before: Alerts)
      requires old(Valid()) && unchanged(this`checks) && unchanged(this`repr)
      requires cs.entry in old(contents) && checks[cs.entry.policy][cs.entry.check] == cs
      requires old(contents) == before[cs.entry := old(cs.Value())]
      requires contents == before[cs.entry := cs.Value()]
      requires forall c <- repr | c != cs :: unchanged(c)
      ensures Valid()
    {
      forall k <- contents ensures Mirrored(k) {
        assert old(Mirrored(k));
      }
    }

    method RecordFail(policyRef: string, checkID: string, now: Time) returns (t: Option<Transition>)
      requires Valid()
      modifies this, repr
      ensures Valid() && fresh(repr - old(repr))
      ensures contents == Apply(old(contents), escalationThreshold, Op(policyRef, checkID, Fail(now)))
      ensures t == Emission(old(contents), escalationThreshold, Op(policyRef, checkID, Fail(now)))
    {
      ghost var before := contents;
      var cs := GetOrCreate(policyRef, checkID);
      label found:
      var prev := cs.state;
      var moved := cs.Fail(now, escalationThreshold);
      t := if moved then Some(Transition(checkID, policyRef, prev, cs.state, cs.Value())) else None;
      contents := before[Entry(policyRef, checkID) := cs.Value()];
      StillMirrored@found(cs, before);
    }

    method RecordPass(policyRef: string, checkID: string, now: Time) returns (t: Option<Transition>)
      requires Valid()
      modifies this, repr
      ensures Valid() && fresh(repr - old(repr))
      ensures contents == Apply(old(contents), escalationThreshold, Op(policyRef, checkID, Pass(now)))
      ensures t == Emission(old(contents), escalationThreshold, Op(policyRef, checkID, Pass(now)))
    {
      ghost var before := contents;
      var cs := GetOrCreate(policyRef, checkID);
      label found:
      var prev := cs.state;
      var moved := cs.Pass(now);
      assert cs.Value() == After(Value(before, policyRef, checkID), escalationThreshold, Pass(now));
      t := if moved then Some(Transition(checkID, policyRef, prev, cs.state, cs.Value())) else None;
      contents := before[Entry(policyRef, checkID) := cs.Value()];
      StillMirrored@found(cs, before);
    }

    /** The failing checks of a policy, each once, in whatever order the map is visited. */
    method FailedChecks(policyRef: string) returns (failed: seq<string>)
      requires Valid()
      ensures forall i, j | 0 <= i < j < |failed| :: failed[i] != failed[j]
      ensures forall id :: id in failed <==> id in FailingIDs(contents, policyRef)
    {
      failed := [];
      if policyRef in checks {
        var todo := checks[policyRef].Keys;
        while todo != {}
          invariant todo <= checks[policyRef].Keys
          invariant forall i, j | 0 <= i < j < |failed| :: failed[i] != failed[j]
          invariant forall id :: id in failed <==> id in FailingIDs(contents, policyRef) && id !in todo
        {
          var id :| id in todo;
          var cs := checks[policyRef][id];
          assert id in FailingIDs(contents, policyRef) <==> Failing(cs.state) by {
            assert Entry(policyRef, id) in contents;
          }
          if cs.state == Firing || cs.state == Escalated {
            failed := failed + [id];
          }
          todo := todo - {id};
        }
      }
    }

    method GetState(policyRef: string, checkID: string) returns (copy: Option<CheckValue>)
      requires Valid()
      ensures copy == if Entry(policyRef, checkID) in contents then Some(contents[Entry(policyRef, checkID)]) else None
    {
      copy := None;
      if policyRef in checks {
        if checkID in checks[policyRef] {
          copy := Some(checks[policyRef][checkID].Value());
        }
      }
    }

    /** Rebuilds a firing check from a stored date. It reports nothing and keeps the retry count. */
    method RestoreFromFailedSince(policyRef: string, checkID: string, failedSince: Time, now: Time)
      requires Valid()
      modifies this, repr
      ensures Valid() && fresh(repr - old(repr))
      ensures contents == old(contents)[Entry(policyRef, checkID) := Restored(Value(old(contents), policyRef, checkID), failedSince, now)]
    {
      ghost var before := contents;
      var cs := GetOrCreate(policyRef, checkID);
      label found:
      cs.Restore(failedSince, now);
      contents := before[Entry(policyRef, checkID) := cs.Value()];
      StillMirrored@found(cs, before);
    }
  }

  function Restored(v: CheckValue, failedSince: Time, now: Time): CheckValue {
    CheckValue(Firing, failedSince, v.retryCount, now)
  }

  function FailTimes(v: CheckValue, threshold: Int32, times: seq<Time>): CheckValue {
    if times == [] then v else AfterFail(FailTimes(v, threshold, times[..|times| - 1]), threshold, times[|times| - 1])
  }

  const MAX_INT32: Int32 := 0x7fff_ffff

  /** The retries a restored check counts from: what it kept, except that a counter at its upper
      end goes on at the lower. */
  function KeptRetries(v: CheckValue): int {
    if v.retryCount == MAX_INT32 then -0x8000_0001 else v.retryCount
  }

  /** After a restore, escalation comes when the failures since then and the retries kept from
      before together reach the threshold: a fresh check escalates on failure number threshold,
      one earlier than a check the store watched from the start, and a check restored while
      already escalated is announced as escalated a second time. */
  lemma {:induction false} RestoreKeepsOldRetries(v: CheckValue, threshold: Int32, since: Time, now: Time, times: seq<Time>)
    requires threshold > 0
    ensures var w := FailTimes(Restored(v, since, now), threshold, times);
            && w.state == (if times != [] && KeptRetries(v) + |times| >= threshold then Escalated else Firing)
            && w.failedSince == since
            && w.retryCount == Wrap32(v.retryCount + |times|)
            && w.lastUpdated == (if times == [] then now else times[|times| - 1])
  {
    if times != [] {
      RestoreKeepsOldRetries(v, threshold, since, now, times[..|times| - 1]);
      WrapStep(v.retryCount + |times| - 1);
    }
  }
}
