/** The alert life cycle of operator/internal/state/store.go as a machine on values:
    one step per RecordFail or RecordPass, then whole histories of such steps. */
module AlertMachine {
  import opened GoTypes

  datatype AlertState = Unknown | Firing | Resolved | Escalated

  datatype CheckValue = CheckValue(state: AlertState, failedSince: Time, retryCount: Int32, lastUpdated: Time)

  datatype Transition = Transition(checkID: string, policyRef: string,
                                   from: AlertState, to: AlertState, state: CheckValue)

  /** One verdict reported for a check, with the clock reading the store takes. */
  datatype Observation = Fail(at: Time) | Pass(at: Time)

  const FRESH := CheckValue(Unknown, ZERO_TIME, 0, ZERO_TIME)

  predicate Failing(s: AlertState) {
    s == Firing || s == Escalated
  }

  function AfterFail(v: CheckValue, threshold: Int32, now: Time): CheckValue {
    match v.state
    case Unknown => CheckValue(Firing, now, 0, now)
    case Resolved => CheckValue(Firing, now, 0, now)
    case Firing =>
      var retries := Wrap32(v.retryCount + 1);
      CheckValue(if retries >= threshold then Escalated else Firing, v.failedSince, retries, now)
    case Escalated => v.(retryCount := Wrap32(v.retryCount + 1), lastUpdated := now)
  }

  function AfterPass(v: CheckValue, now: Time): CheckValue {
    if Failing(v.state) then CheckValue(Resolved, v.failedSince, 0, now) else v
  }

  function After(v: CheckValue, threshold: Int32, seen: Observation): CheckValue {
    match seen
    case Fail(now) => AfterFail(v, threshold, now)
    case Pass(now) => AfterPass(v, now)
  }

  /* ---- The history of one check ---- */

  function RunCheck(threshold: Int32, h: seq<Observation>): CheckValue {
    if h == [] then FRESH else After(RunCheck(threshold, h[..|h| - 1]), threshold, h[|h| - 1])
  }

  /** Length of the unbroken run of failures at the end of the history. */
  function TrailingFails(h: seq<Observation>): (k: nat)
    ensures k <= |h|
    ensures forall i :: |h| - k <= i < |h| ==> h[i].Fail?
    ensures k < |h| ==> h[|h| - k - 1].Pass?
  {
    if h == [] || h[|h| - 1].Pass? then 0 else 1 + TrailingFails(h[..|h| - 1])
  }

  predicate EverFailed(h: seq<Observation>) {
    exists i :: 0 <= i < |h| && h[i].Fail?
  }

  lemma EverFailedStep(h: seq<Observation>)
    requires h != []
    ensures EverFailed(h) <==> EverFailed(h[..|h| - 1]) || h[|h| - 1].Fail?
  {
    var g := h[..|h| - 1];
    if EverFailed(g) {
      var i :| 0 <= i < |g| && g[i].Fail?;
      assert h[i].Fail?;
    }
    if EverFailed(h) && h[|h| - 1].Pass? {
      var i :| 0 <= i < |h| && h[i].Fail?;
      assert g[i].Fail?;
    }
  }

  /** The state of a check is a function of whether it ever failed and of the length k of its
      trailing streak: escalation comes on failure number threshold + 1, the streak's first
      failure dates it, and the retry counter is k - 1 modulo 2^32. */
  lemma {:induction false} ClosedForm(threshold: Int32, h: seq<Observation>)
    requires threshold > 0
    ensures var v, k := RunCheck(threshold, h), TrailingFails(h);
            && (v.state == Unknown <==> !EverFailed(h))
            && (v.state == Resolved <==> EverFailed(h) && k == 0)
            && (v.state == Firing <==> 1 <= k <= threshold)
            && (v.state == Escalated <==> threshold < k)
            && (k > 0 ==> v.failedSince == h[|h| - k].at && v.lastUpdated == h[|h| - 1].at)
            && v.retryCount == Wrap32(if k == 0 then 0 else k - 1)
  {
    if h != [] {
      ClosedForm(threshold, h[..|h| - 1]);
      EverFailedStep(h);
      var k := TrailingFails(h[..|h| - 1]);
      if h[|h| - 1].Fail? && k > 0 {
        WrapStep(k - 1);
      }
    }
  }

  /** A check that never failed is as new, whatever was passed. */
  lemma {:induction false} PassesLeaveItFresh(threshold: Int32, h: seq<Observation>)
    requires !EverFailed(h)
    ensures RunCheck(threshold, h) == CheckValue(Unknown, 0, 0, 0)
  {
    if h != [] {
      EverFailedStep(h);
      PassesLeaveItFresh(threshold, h[..|h| - 1]);
      assert h[|h| - 1].Pass?;
    }
  }

  /** Its last failure was the one at p. The check keeps the date of that failure's streak, and
      was last updated by that failure or, if any passes followed, by the first of them. */
  lemma {:induction false} DatesOutliveTheStreak(threshold: Int32, h: seq<Observation>, p: nat)
    requires threshold > 0 && p < |h| && h[p].Fail? && forall i | p < i < |h| :: h[i].Pass?
    ensures var v, g := RunCheck(threshold, h), h[..p + 1];
            && TrailingFails(g) > 0 && v.failedSince == g[|g| - TrailingFails(g)].at
            && v.lastUpdated == h[if p + 1 < |h| then p + 1 else p].at
            && (p + 1 < |h| ==> v.state == Resolved)
  {
    if p == |h| - 1 {
      assert h[..p + 1] == h;
      ClosedForm(threshold, h);
    } else {
      var front := h[..|h| - 1];
      assert h[..p + 1] == front[..p + 1];
      DatesOutliveTheStreak(threshold, front, p);
      assert p < |front| - 1 ==> front[p + 1] == h[p + 1];
      PassResolves(threshold, h, p);
    }
  }

  lemma PassResolves(threshold: Int32, h: seq<Observation>, p: nat)
    requires threshold > 0 && p < |h| - 1 && h[p].Fail? && h[|h| - 1].Pass?
    requires forall i | p < i < |h| - 1 :: h[i].Pass?
    ensures var front := h[..|h| - 1];
            var u := RunCheck(threshold, front);
            RunCheck(threshold, h) ==
              if p == |front| - 1 then CheckValue(Resolved, u.failedSince, 0, h[|h| - 1].at) else u
  {
    var front := h[..|h| - 1];
    assert front[p].Fail? && EverFailed(front);
    ClosedForm(threshold, front);
  }

  /* ---- The same machine with a counter that never overflows ---- */

  datatype IdealValue = IdealValue(state: AlertState, retries: nat)

  function IdealRun(threshold: Int32, h: seq<Observation>): IdealValue {
    if h == [] then IdealValue(Unknown, 0)
    else
      var v := IdealRun(threshold, h[..|h| - 1]);
      match h[|h| - 1]
      case Pass(_) => if Failing(v.state) then IdealValue(Resolved, 0) else v
      case Fail(_) =>
        match v.state
        case Unknown => IdealValue(Firing, 0)
        case Resolved => IdealValue(Firing, 0)
        case Firing => IdealValue(if v.retries + 1 >= threshold then Escalated else Firing, v.retries + 1)
        case Escalated => v.(retries := v.retries + 1)
  }

  /** The int32 counter may wrap while a check stays escalated; no state, hence no
      transition, ever differs from the run with an unbounded counter. */
  lemma {:induction false} WrapAroundIsInvisible(threshold: Int32, h: seq<Observation>)
    requires threshold > 0
    ensures var v, u := RunCheck(threshold, h), IdealRun(threshold, h);
            v.state == u.state && (v.state == Firing ==> v.retryCount == u.retries < threshold)
  {
    if h != [] {
      WrapAroundIsInvisible(threshold, h[..|h| - 1]);
    }
  }

  /* ---- Notifications of one check ---- */

  datatype Move = Move(from: AlertState, to: AlertState)

  /** The moves a check makes over a history, one per change of state. */
  function Moves(threshold: Int32, h: seq<Observation>): seq<Move> {
    if h == [] then []
    else
      var v := RunCheck(threshold, h[..|h| - 1]);
      var w := RunCheck(threshold, h);
      Moves(threshold, h[..|h| - 1]) + (if v.state == w.state then [] else [Move(v.state, w.state)])
  }

  ghost predicate Chained(ms: seq<Move>) {
    && (ms != [] ==> ms[0].from == Unknown)
    && (forall i :: 0 < i < |ms| ==> ms[i].from == ms[i - 1].to)
  }

  function Targets(ms: seq<Move>): (w: seq<AlertState>)
    ensures |w| == |ms| && forall i :: 0 <= i < |w| ==> w[i] == ms[i].to
  {
    seq(|ms|, i requires 0 <= i < |ms| => ms[i].to)
  }

  /** w is a prefix of a word of (Firing Escalated? Resolved)*. */
  predicate AlertWord(w: seq<AlertState>) {
    if w == [] then true
    else if |w| == 1 then w[0] == Firing
    else if w[1] == Resolved then w[0] == Firing && AlertWord(w[2..])
    else w[0] == Firing && w[1] == Escalated && (|w| == 2 || (w[2] == Resolved && AlertWord(w[3..])))
  }

  predicate MayFollow(w: seq<AlertState>, x: AlertState) {
    if w == [] || w[|w| - 1] == Resolved then x == Firing
    else if w[|w| - 1] == Firing then x == Escalated || x == Resolved
    else w[|w| - 1] == Escalated && x == Resolved
  }

  lemma {:induction false} AlertWordExtends(w: seq<AlertState>, x: AlertState)
    ensures AlertWord(w + [x]) <==> AlertWord(w) && MayFollow(w, x)
    decreases |w|
  {
    var u := w + [x];
    if |w| >= 2 && w[0] == Firing && w[1] == Resolved {
      assert u[2..] == w[2..] + [x];
      AlertWordExtends(w[2..], x);
    } else if |w| >= 3 && w[0] == Firing && w[1] == Escalated && w[2] == Resolved {
      assert u[3..] == w[3..] + [x];
      AlertWordExtends(w[3..], x);
    }
  }

  /** Notifications of a check form a chain from Unknown to its present state, and they spell
      an alert word, so none is ever repeated. */
  lemma {:induction false} NotificationsFormAChain(threshold: Int32, h: seq<Observation>)
    requires threshold > 0
    ensures var ms := Moves(threshold, h);
            && Chained(ms)
            && AlertWord(Targets(ms))
            && (forall m <- ms :: m.to != Unknown)
            && RunCheck(threshold, h).state == if ms == [] then Unknown else ms[|ms| - 1].to
  {
    if h != [] {
      var g := h[..|h| - 1];
      NotificationsFormAChain(threshold, g);
      var ms, ns := Moves(threshold, g), Moves(threshold, h);
      if ns != ms {
        var m := Move(RunCheck(threshold, g).state, RunCheck(threshold, h).state);
        assert ns == ms + [m];
        assert Targets(ns) == Targets(ms) + [m.to];
        assert MayFollow(Targets(ms), m.to);
        AlertWordExtends(Targets(ms), m.to);
      }
    }
  }

  lemma MovesGrow(threshold: Int32, g: seq<Observation>, o: Observation)
    ensures var v := RunCheck(threshold, g);
            && RunCheck(threshold, g + [o]) == After(v, threshold, o)
            && Moves(threshold, g + [o]) == Moves(threshold, g)
                 + (if After(v, threshold, o).state == v.state then [] else [Move(v.state, After(v, threshold, o).state)])
  {
    assert (g + [o])[..|g|] == g;
  }

  lemma OneMore(threshold: Int32, g: seq<Observation>, o: Observation)
    ensures var h, v := g + [o], RunCheck(threshold, g);
            && RunCheck(threshold, h) == After(v, threshold, o)
            && TrailingFails(h) == (if o.Pass? then 0 else 1 + TrailingFails(g))
            && Targets(Moves(threshold, h)) == Targets(Moves(threshold, g))
                 + (if RunCheck(threshold, h).state == v.state then [] else [RunCheck(threshold, h).state])
  {
    assert (g + [o])[..|g|] == g;
    MovesGrow(threshold, g, o);
  }

  /** Every alert word is spelled by some history: fail once to fire, threshold more times to
      escalate, pass to resolve. */
  lemma {:induction false} EveryAlertWordHappens(threshold: Int32, w: seq<AlertState>) returns (h: seq<Observation>)
    requires threshold > 0 && AlertWord(w)
    ensures Targets(Moves(threshold, h)) == w
    ensures w != [] && w[|w| - 1] == Firing ==> TrailingFails(h) == 1
    decreases |w|
  {
    if w == [] {
      h := [];
    } else {
      var u, x := w[..|w| - 1], w[|w| - 1];
      assert w == u + [x];
      AlertWordExtends(u, x);
      var g := EveryAlertWordHappens(threshold, u);
      SpelledState(threshold, g, u);
      if x == Escalated {
        h := FailUntilEscalated(threshold, g);
      } else {
        h := g + [if x == Firing then Fail(0) else Pass(0)];
        OneMore(threshold, g, h[|g|]);
        ClosedForm(threshold, g);
      }
    }
  }

  lemma SpelledState(threshold: Int32, g: seq<Observation>, u: seq<AlertState>)
    requires threshold > 0 && Targets(Moves(threshold, g)) == u
    ensures RunCheck(threshold, g).state == if u == [] then Unknown else u[|u| - 1]
  {
    NotificationsFormAChain(threshold, g);
  }

  lemma {:induction false} FailUntilEscalated(threshold: Int32, g: seq<Observation>) returns (h: seq<Observation>)
    requires threshold > 0 && 1 <= TrailingFails(g) <= threshold
    ensures Targets(Moves(threshold, h)) == Targets(Moves(threshold, g)) + [Escalated]
    decreases threshold - TrailingFails(g)
  {
    h := g + [Fail(0)];
    OneMore(threshold, g, Fail(0));
    ClosedForm(threshold, g);
    ClosedForm(threshold, h);
    if TrailingFails(g) < threshold {
      h := FailUntilEscalated(threshold, h);
    }
  }

  ghost predicate Spelled(threshold: Int32, w: seq<AlertState>) {
    exists h :: Targets(Moves(threshold, h)) == w
  }

  /** The notification language: what some history can spell is exactly the alert words. */
  lemma NotificationLanguage(threshold: Int32, w: seq<AlertState>)
    requires threshold > 0
    ensures Spelled(threshold, w) <==> AlertWord(w)
  {
    if Spelled(threshold, w) {
      var h :| Targets(Moves(threshold, h)) == w;
      NotificationsFormAChain(threshold, h);
    }
    if AlertWord(w) {
      var h := EveryAlertWordHappens(threshold, w);
    }
  }
}
