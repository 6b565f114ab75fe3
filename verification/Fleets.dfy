/** Schedulers under many reconciles at once (operator/internal/controller/checklistpolicy_controller.go):
    reconciles of different policies interleave step by step, those of one policy follow each
    other. Every step is one access to the API server, to the scheduler map, or to a scheduler. */
module Fleets {
  import opened GoTypes
  import opened Reconciling

  /** The API server's policies, the reconciler's map of schedulers, the schedulers now running
      (with the policy each runs for), and the scans started on request. */
  datatype Fleet = Fleet(objects: map<string, PolicyObject>, schedulers: map<string, nat>,
                         live: map<nat, string>, next: nat, triggered: seq<nat>)

  /** What the outside answers: the read, the build, the write, the clock. */
  datatype Answer = Answer(readable: bool, build: Build, accepted: bool, first: Time, second: Time)

  /* ---- The accesses ---- */

  function StopScheduler(f: Fleet, k: string): Fleet {
    if k in f.schedulers then f.(live := f.live - {f.schedulers[k]}, schedulers := f.schedulers - {k}) else f
  }

  function StartScheduler(f: Fleet, k: string): Fleet {
    f.(live := f.live[f.next := k], next := f.next + 1)
  }

  function Keep(f: Fleet, k: string, id: nat): Fleet {
    f.(schedulers := f.schedulers[k := id])
  }

  function Trigger(f: Fleet, k: string): Fleet {
    if k in f.schedulers then f.(triggered := f.triggered + [f.schedulers[k]]) else f
  }

  /** A write goes through if the API server accepts it and the policy is still as it was read;
      a policy being deleted vanishes with its last finalizer. */
  function Put(f: Fleet, k: string, accepted: bool, seen: PolicyObject, written: PolicyObject): Fleet {
    if !accepted || k !in f.objects || f.objects[k] != seen then f
    else if written.deleting && written.finalizers == [] then f.(objects := f.objects - {k})
    else f.(objects := f.objects[k := written])
  }

  /* ---- Steps ---- */

  /** How far the reconcile of a policy has come, and the policy as it read it. */
  datatype Task =
    | Idle
    | Gone
    | Departing(seen: PolicyObject)
    | Departed(seen: PolicyObject)
    | Joining(seen: PolicyObject)
    | Triggering(seen: PolicyObject)
    | Clearing(seen: PolicyObject)
    | Rebuilding(seen: PolicyObject)
    | Stopped(seen: PolicyObject)
    | Started(seen: PolicyObject, id: nat)
    | Reporting(seen: PolicyObject, build: Build)

  datatype State = State(fleet: Fleet, tasks: map<string, Task>)

  const INITIAL := State(Fleet(map[], map[], map[], 0, []), map[])

  /** A step of some policy's reconcile, or anything anyone else does to a policy object. */
  datatype Event = Step(key: string, answer: Answer) | Edit(key: string, edited: Option<PolicyObject>)

  function TaskOf(s: State, k: string): Task {
    if k in s.tasks then s.tasks[k] else Idle
  }

  function Begin(f: Fleet, k: string, readable: bool): Task {
    if !readable then Idle
    else if k !in f.objects then Gone
    else
      var o := f.objects[k];
      match Decide(o)
      case Ignore => Idle
      case Depart => Departing(o)
      case Join => Joining(o)
      case RunNow => Triggering(o)
      case Rebuild => Rebuilding(o)
  }

  function Advance(f: Fleet, k: string, task: Task, a: Answer): (Fleet, Task) {
    match task
    case Idle => (f, Begin(f, k, a.readable))
    case Gone => (StopScheduler(f, k), Idle)
    case Departing(o) => (StopScheduler(f, k), Departed(o))
    case Departed(o) => (Put(f, k, a.accepted, o, Left(o)), Idle)
    case Joining(o) => (Put(f, k, a.accepted, o, Joined(o)), Idle)
    case Triggering(o) => (Trigger(f, k), Clearing(o))
    case Clearing(o) => (Put(f, k, a.accepted, o, Cleared(o)), Idle)
    case Rebuilding(o) => (StopScheduler(f, k), Stopped(o))
    case Stopped(o) => if a.build.Built? then (StartScheduler(f, k), Started(o, f.next)) else (f, Reporting(o, a.build))
    case Started(o, id) => (Keep(f, k, id), Reporting(o, Built))
    case Reporting(o, b) => (Put(f, k, a.accepted, o, Judged(o, b, a.first, a.second)), Idle)
  }

  function After(s: State, e: Event): State {
    match e
    case Step(k, a) =>
      var (f, task) := Advance(s.fleet, k, TaskOf(s, k), a);
      State(f, s.tasks[k := task])
    case Edit(k, edited) =>
      s.(fleet := s.fleet.(objects := if edited.Some? then s.fleet.objects[k := edited.value] else s.fleet.objects - {k}))
  }

  function Run(es: seq<Event>): State {
    if es == [] then INITIAL else After(Run(es[..|es| - 1]), es[|es| - 1])
  }

  /* ---- The invariant ---- */

  /** The scheduler that may be running for a policy: the one just started, or the map's. */
  function Expected(s: State, k: string): Option<nat> {
    if TaskOf(s, k).Started? then Some(TaskOf(s, k).id)
    else if k in s.fleet.schedulers then Some(s.fleet.schedulers[k])
    else None
  }

  /** Exactly the expected scheduler is running for the policy. */
  ghost predicate RunsExpected(s: State, k: string) {
    && (Expected(s, k).Some? ==> Expected(s, k).value in s.fleet.live && s.fleet.live[Expected(s, k).value] == k)
    && (forall id | id in s.fleet.live && s.fleet.live[id] == k :: Expected(s, k) == Some(id))
  }

  predicate TaskOK(s: State, k: string) {
    match TaskOf(s, k)
    case Departing(o) => Decide(o) == Depart
    case Departed(o) => Decide(o) == Depart && k !in s.fleet.schedulers
    case Stopped(_) => k !in s.fleet.schedulers
    case Started(_, _) => k !in s.fleet.schedulers
    case Reporting(_, b) => b.Built? <==> k in s.fleet.schedulers
    case _ => true
  }

  ghost predicate Inv(s: State) {
    && (forall id <- s.fleet.live :: id < s.fleet.next)
    && (forall k :: RunsExpected(s, k) && TaskOK(s, k))
  }

  /** A step for one policy leaves the schedulers of all others alone. */
  lemma OthersUntouched(s: State, e: Event, k: string)
    requires Inv(s) && k != e.key
    ensures var t := After(s, e);
            && TaskOf(t, k) == TaskOf(s, k)
            && (k in t.fleet.schedulers <==> k in s.fleet.schedulers)
            && (k in s.fleet.schedulers ==> t.fleet.schedulers[k] == s.fleet.schedulers[k])
            && (forall id :: id in t.fleet.live && t.fleet.live[id] == k <==> id in s.fleet.live && s.fleet.live[id] == k)
  {
    assert RunsExpected(s, e.key);
  }

  lemma OthersStayOK(s: State, t: State, k: string)
    requires RunsExpected(s, k) && TaskOK(s, k) && TaskOf(t, k) == TaskOf(s, k)
    requires k in t.fleet.schedulers <==> k in s.fleet.schedulers
    requires k in s.fleet.schedulers ==> t.fleet.schedulers[k] == s.fleet.schedulers[k]
    requires forall id :: id in t.fleet.live && t.fleet.live[id] == k <==> id in s.fleet.live && s.fleet.live[id] == k
    ensures RunsExpected(t, k) && TaskOK(t, k)
  {
  }

  lemma OwnTask(s: State, e: Event)
    requires Inv(s)
    ensures RunsExpected(After(s, e), e.key) && TaskOK(After(s, e), e.key)
  {
    assert RunsExpected(s, e.key) && TaskOK(s, e.key);
  }

  lemma StepKeepsInv(s: State, e: Event)
    requires Inv(s)
    ensures Inv(After(s, e))
  {
    forall k ensures RunsExpected(After(s, e), k) && TaskOK(After(s, e), k) {
      if k == e.key {
        OwnTask(s, e);
      } else {
        OthersUntouched(s, e, k);
        OthersStayOK(s, After(s, e), k);
      }
    }
  }

  lemma {:induction false} InvAlwaysHolds(es: seq<Event>)
    ensures Inv(Run(es))
  {
    if es != [] {
      InvAlwaysHolds(es[..|es| - 1]);
      StepKeepsInv(Run(es[..|es| - 1]), es[|es| - 1]);
    }
  }

  /** In every interleaving, no two schedulers ever run for one policy; and while no reconcile of
      it is under way, the one running is the map's, or none is and the map has none. */
  lemma OneSchedulerPerPolicy(es: seq<Event>, k: string)
    ensures var s := Run(es);
            && (forall a, b | a in s.fleet.live && b in s.fleet.live && s.fleet.live[a] == k == s.fleet.live[b] :: a == b)
            && (TaskOf(s, k) == Idle ==>
                  forall id :: id in s.fleet.live && s.fleet.live[id] == k
                               <==> k in s.fleet.schedulers && s.fleet.schedulers[k] == id)
  {
    InvAlwaysHolds(es);
    assert RunsExpected(Run(es), k);
  }

  ghost predicate NoneRuns(f: Fleet, k: string) {
    k !in f.schedulers && forall id <- f.live :: f.live[id] != k
  }

  /** How a reconcile ends tells whether a scheduler runs: none after a policy was found gone, was
      let go, or could not get its scheduler built; the map's one after a good build. */
  lemma EndOfReconcile(es: seq<Event>, k: string, a: Answer)
    requires TaskOf(After(Run(es), Step(k, a)), k) == Idle
    ensures var task, f := TaskOf(Run(es), k), After(Run(es), Step(k, a)).fleet;
            && (task.Gone? || task.Departed? || (task.Reporting? && task.build.Broken?) ==> NoneRuns(f, k))
            && (task.Reporting? && task.build.Built? ==>
                  k in f.schedulers && f.schedulers[k] in f.live && f.live[f.schedulers[k]] == k)
  {
    var s := Run(es);
    InvAlwaysHolds(es);
    StepKeepsInv(s, Step(k, a));
    assert TaskOK(s, k) && RunsExpected(After(s, Step(k, a)), k);
  }

  predicate Holds(f: Fleet, k: string) {
    k in f.objects && FINALIZER in f.objects[k].finalizers
  }

  lemma PutKeepsHolding(f: Fleet, k: string, accepted: bool, seen: PolicyObject, written: PolicyObject)
    requires Holds(f, k) && (FINALIZER in seen.finalizers ==> FINALIZER in written.finalizers)
    ensures Holds(Put(f, k, accepted, seen, written), k)
  {
  }

  lemma OwnStepHolds(f: Fleet, k: string, task: Task, a: Answer)
    requires Holds(f, k) && !(task.Departed? && task.seen == f.objects[k])
    ensures Holds(Advance(f, k, task, a).0, k)
  {
    match task
    case Joining(o) => PutKeepsHolding(f, k, a.accepted, o, Joined(o));
    case Clearing(o) => PutKeepsHolding(f, k, a.accepted, o, Cleared(o));
    case Reporting(o, b) => PutKeepsHolding(f, k, a.accepted, o, Judged(o, b, a.first, a.second));
    case _ =>
  }

  lemma OthersHold(f: Fleet, k: string, other: string, task: Task, a: Answer)
    requires Holds(f, k) && k != other
    ensures Holds(Advance(f, other, task, a).0, k)
  {
  }

  lemma OnlyDepartingLetsGo(s: State, k: string, e: Event)
    requires e.Step? && Holds(s.fleet, k) && !Holds(After(s, e).fleet, k)
    ensures e.key == k && TaskOf(s, k).Departed? && TaskOf(s, k).seen == s.fleet.objects[k]
  {
    if e.key != k {
      OthersHold(s.fleet, k, e.key, TaskOf(s, e.key), e.answer);
    } else if !(TaskOf(s, k).Departed? && TaskOf(s, k).seen == s.fleet.objects[k]) {
      OwnStepHolds(s.fleet, k, TaskOf(s, k), e.answer);
    }
  }

  /** The reconciler gives up its finalizer on a policy only while that policy is being deleted
      and none of its schedulers runs. */
  lemma FinalizerOutlivesScheduler(es: seq<Event>, k: string, e: Event)
    requires e.Step? && Holds(Run(es).fleet, k) && !Holds(After(Run(es), e).fleet, k)
    ensures Run(es).fleet.objects[k].deleting
    ensures NoneRuns(Run(es).fleet, k) && NoneRuns(After(Run(es), e).fleet, k)
  {
    InvAlwaysHolds(es);
    assert TaskOK(Run(es), k) && RunsExpected(Run(es), k);
    OnlyDepartingLetsGo(Run(es), k, e);
  }

  /** A requested scan runs on the scheduler that is running for the policy, if there is one. */
  lemma RunNowFindsTheRunning(es: seq<Event>, k: string, a: Answer)
    requires TaskOf(Run(es), k).Triggering?
    ensures var f, g := Run(es).fleet, After(Run(es), Step(k, a)).fleet;
            if forall id <- f.live :: f.live[id] != k then g.triggered == f.triggered
            else exists id :: id in f.live && f.live[id] == k && g.triggered == f.triggered + [id]
  {
    InvAlwaysHolds(es);
    assert RunsExpected(Run(es), k);
  }

  /* ---- A reconcile that nobody interrupts ---- */

  function Rank(task: Task): nat {
    match task
    case Idle => 0
    case Gone => 1
    case Departing(_) => 2
    case Departed(_) => 1
    case Joining(_) => 1
    case Triggering(_) => 2
    case Clearing(_) => 1
    case Rebuilding(_) => 4
    case Stopped(_) => 3
    case Started(_, _) => 2
    case Reporting(_, _) => 1
  }

  function Complete(f: Fleet, k: string, task: Task, a: Answer): Fleet
    decreases Rank(task)
  {
    if task.Idle? then f
    else
      var (g, u) := Advance(f, k, task, a);
      Complete(g, k, u, a)
  }

  /** One whole reconcile. */
  function Whole(f: Fleet, k: string, a: Answer): Fleet {
    Complete(f, k, Begin(f, k, a.readable), a)
  }

  function Steps(s: State, k: string, a: Answer, n: nat): State
    decreases n
  {
    if n == 0 then s else Steps(After(s, Step(k, a)), k, a, n - 1)
  }

  lemma {:induction false} CompleteIsARun(s: State, k: string, a: Answer) returns (n: nat)
    requires TaskOf(s, k) != Idle
    ensures Steps(s, k, a, n) == State(Complete(s.fleet, k, TaskOf(s, k), a), s.tasks[k := Idle])
    decreases Rank(TaskOf(s, k))
  {
    var t := After(s, Step(k, a));
    if TaskOf(t, k) == Idle {
      assert Steps(s, k, a, 1) == Steps(t, k, a, 0) == t;
      n := 1;
    } else {
      var m := CompleteIsARun(t, k, a);
      assert t.tasks[k := Idle] == s.tasks[k := Idle];
      n := m + 1;
    }
  }

  lemma ReportingIs(f: Fleet, k: string, o: PolicyObject, b: Build, a: Answer)
    ensures Complete(f, k, Reporting(o, b), a) == Put(f, k, a.accepted, o, Judged(o, b, a.first, a.second))
  {
    var g := Put(f, k, a.accepted, o, Judged(o, b, a.first, a.second));
    assert Advance(f, k, Reporting(o, b), a) == (g, Idle) && Complete(g, k, Idle, a) == g;
  }

  /** A rebuild in one go: the old scheduler goes first; a new one comes only after a good build. */
  function Rebuilt(f: Fleet, k: string, o: PolicyObject, a: Answer): Fleet {
    var g := StopScheduler(f, k);
    Put(if a.build.Built? then Keep(StartScheduler(g, k), k, g.next) else g,
        k, a.accepted, o, Judged(o, a.build, a.first, a.second))
  }

  lemma RebuildingIs(f: Fleet, k: string, o: PolicyObject, a: Answer)
    ensures Complete(f, k, Rebuilding(o), a) == Rebuilt(f, k, o, a)
  {
    var g := StopScheduler(f, k);
    assert Complete(f, k, Rebuilding(o), a) == Complete(g, k, Stopped(o), a);
    if a.build.Built? {
      var h := StartScheduler(g, k);
      ReportingIs(Keep(h, k, g.next), k, o, Built, a);
      assert Complete(g, k, Stopped(o), a) == Complete(h, k, Started(o, g.next), a);
    } else {
      ReportingIs(g, k, o, a.build, a);
    }
  }

  lemma ShortOnesAre(f: Fleet, k: string, o: PolicyObject, a: Answer)
    ensures Complete(f, k, Departing(o), a) == Put(StopScheduler(f, k), k, a.accepted, o, Left(o))
    ensures Complete(f, k, Joining(o), a) == Put(f, k, a.accepted, o, Joined(o))
    ensures Complete(f, k, Triggering(o), a) == Put(Trigger(f, k), k, a.accepted, o, Cleared(o))
  {
    var g, h := StopScheduler(f, k), Trigger(f, k);
    assert Complete(f, k, Departing(o), a) == Complete(g, k, Departed(o), a)
        == Complete(Put(g, k, a.accepted, o, Left(o)), k, Idle, a);
    assert Complete(f, k, Triggering(o), a) == Complete(h, k, Clearing(o), a)
        == Complete(Put(h, k, a.accepted, o, Cleared(o)), k, Idle, a);
  }

  /** A whole reconcile, uninterrupted, decision by decision. */
  lemma WholeIs(f: Fleet, k: string, a: Answer)
    ensures Whole(f, k, a) ==
            if !a.readable then f
            else if k !in f.objects then StopScheduler(f, k)
            else
              var o := f.objects[k];
              match Decide(o)
              case Ignore => f
              case Depart => Put(StopScheduler(f, k), k, a.accepted, o, Left(o))
              case Join => Put(f, k, a.accepted, o, Joined(o))
              case RunNow => Put(Trigger(f, k), k, a.accepted, o, Cleared(o))
              case Rebuild => Rebuilt(f, k, o, a)
  {
    if a.readable && k in f.objects {
      ShortOnesAre(f, k, f.objects[k], a);
      RebuildingIs(f, k, f.objects[k], a);
    } else {
      assert Begin(f, k, a.readable).Gone? ==> Complete(f, k, Gone, a) == Complete(StopScheduler(f, k), k, Idle, a);
    }
  }

  /** An uninterrupted reconcile of a live policy, its write accepted, leaves the object as the
      decision alone determines, and no other object changed. */
  lemma WholeWritesTheDecision(f: Fleet, k: string, a: Answer)
    requires a.readable && a.accepted && k in f.objects && !f.objects[k].deleting
    ensures Whole(f, k, a).objects == f.objects[k := Reconciled(f.objects[k], a.build, a.first, a.second)]
  {
    WholeIs(f, k, a);
  }

  /** The scheduler kept for k, if any, no longer runs in g; nothing else is stopped or started. */
  predicate JustStopped(f: Fleet, g: Fleet, k: string) {
    && g.schedulers == f.schedulers - {k} && g.next == f.next && g.triggered == f.triggered
    && g.live == f.live - (if k in f.schedulers then {f.schedulers[k]} else {})
  }

  /** A new scheduler has taken the place of the one kept for k, if any. */
  predicate JustReplaced(f: Fleet, g: Fleet, k: string) {
    && g.schedulers == f.schedulers[k := f.next] && g.next == f.next + 1 && g.triggered == f.triggered
    && g.live == (f.live - if k in f.schedulers then {f.schedulers[k]} else {})[f.next := k]
  }

  /** What a whole reconcile does to the schedulers, in terms of the policy alone: a policy let go
      or not buildable has its scheduler stopped, a request goes to the scheduler there is, a good
      build replaces it by a new one, all else leaves every scheduler as it is. */
  lemma WholeSchedules(f: Fleet, k: string, a: Answer)
    requires a.readable && k in f.objects
    ensures var o, g := f.objects[k], Whole(f, k, a);
            if o.deleting && Ours(o) then JustStopped(f, g, k)
            else if o.deleting || !Ours(o) then g == f.(objects := g.objects)
            else if Asked(o) then
              g == f.(objects := g.objects, triggered := f.triggered + if k in f.schedulers then [f.schedulers[k]] else [])
            else if a.build.Broken? then JustStopped(f, g, k)
            else JustReplaced(f, g, k)
  {
    var o := f.objects[k];
    WholeIs(f, k, a);
    StopJustStops(f, k);
    if o.deleting {
      PutOnlyWrites(StopScheduler(f, k), k, a.accepted, o, Left(o));
    } else if !Ours(o) {
      PutOnlyWrites(f, k, a.accepted, o, Joined(o));
    } else if Asked(o) {
      assert f.triggered + [] == f.triggered;
      PutOnlyWrites(Trigger(f, k), k, a.accepted, o, Cleared(o));
    } else {
      RebuiltSchedules(f, k, o, a);
    }
  }

  lemma PutOnlyWrites(f: Fleet, k: string, accepted: bool, seen: PolicyObject, written: PolicyObject)
    ensures Put(f, k, accepted, seen, written) == f.(objects := Put(f, k, accepted, seen, written).objects)
  {
  }

  lemma StopJustStops(f: Fleet, k: string)
    ensures JustStopped(f, StopScheduler(f, k), k)
  {
  }

  lemma RebuiltSchedules(f: Fleet, k: string, o: PolicyObject, a: Answer)
    ensures if a.build.Broken? then JustStopped(f, Rebuilt(f, k, o, a), k) else JustReplaced(f, Rebuilt(f, k, o, a), k)
  {
    StopJustStops(f, k);
    assert (f.schedulers - {k})[k := f.next] == f.schedulers[k := f.next];
  }

  /** What it does to the objects: a refused write changes none; an accepted one changes this
      policy's as Reconciled says, or removes it with the last finalizer it was waiting for. */
  lemma WholeWrites(f: Fleet, k: string, a: Answer)
    requires a.readable && k in f.objects
    ensures var o, g := f.objects[k], Whole(f, k, a);
            g.objects ==
              if !a.accepted then f.objects
              else if o.deleting && Ours(o) && (forall x <- o.finalizers :: x == "dtm.io/finalizer") then f.objects - {k}
              else f.objects[k := Reconciled(o, a.build, a.first, a.second)]
  {
    var o := f.objects[k];
    WholeIs(f, k, a);
    assert f.objects[k := o] == f.objects;
    LastLeft(o);
  }

  lemma LastLeft(o: PolicyObject)
    ensures Left(o).finalizers == [] <==> forall x <- o.finalizers :: x == "dtm.io/finalizer"
  {
    var left := Left(o).finalizers;
    if left != [] {
      assert left[0] in left;
    }
  }

  /** After a rebuild whose write was accepted the policy's health conditions tell how the build and
      the last full scan went. */
  lemma WholeReports(f: Fleet, k: string, a: Answer)
    requires a.readable && a.accepted && k in f.objects
    requires !f.objects[k].deleting && Ours(f.objects[k]) && !Asked(f.objects[k])
    ensures var o, g := f.objects[k], Whole(f, k, a);
            k in g.objects && SaysHealth(g.objects[k].conditions, a.build, o.summary)
            && g.objects == f.objects[k := o.(conditions := g.objects[k].conditions)]
  {
    var o := f.objects[k];
    WholeWritesTheDecision(f, k, a);
    ReconcileDoes(o, a.build, a.first, a.second);
  }

  /** What a reconcile of a policy being deleted does to its scheduler: it is stopped exactly when
      the policy still holds our finalizer; without it, the scheduler keeps running until the
      policy is found gone. */
  lemma DeletionStopsTheHolders(es: seq<Event>, k: string, a: Answer)
    requires a.readable && TaskOf(Run(es), k) == Idle
    requires k in Run(es).fleet.objects && Run(es).fleet.objects[k].deleting
    ensures var f := Run(es).fleet;
            NoneRuns(Whole(f, k, a), k) <==> Holds(f, k) || NoneRuns(f, k)
  {
    var f := Run(es).fleet;
    InvAlwaysHolds(es);
    assert RunsExpected(Run(es), k);
    WholeIs(f, k, a);
  }

  lemma RunOneMore(es: seq<Event>, e: Event)
    ensures Run(es + [e]) == After(Run(es), e)
  {
    assert (es + [e])[..|es|] == es;
  }

  lemma {:induction false} StepsAreARun(es: seq<Event>, k: string, a: Answer, n: nat) returns (more: seq<Event>)
    ensures Run(es + more) == Steps(Run(es), k, a, n) && forall e <- more :: e == Step(k, a)
    decreases n
  {
    if n == 0 {
      more := [];
      assert es + more == es;
    } else {
      RunOneMore(es, Step(k, a));
      var rest := StepsAreARun(es + [Step(k, a)], k, a, n - 1);
      more := [Step(k, a)] + rest;
      assert es + more == es + [Step(k, a)] + rest;
      assert Steps(Run(es), k, a, n) == Steps(After(Run(es), Step(k, a)), k, a, n - 1);
    }
  }

  /** From any run on, an uninterrupted reconcile of a policy is a run of steps for that policy. */
  lemma WholeIsARun(es: seq<Event>, k: string, a: Answer) returns (more: seq<Event>)
    requires TaskOf(Run(es), k) == Idle
    ensures Run(es + more).fleet == Whole(Run(es).fleet, k, a) && TaskOf(Run(es + more), k) == Idle
    ensures forall e <- more :: e == Step(k, a)
  {
    var f := Run(es).fleet;
    if Begin(f, k, a.readable) == Idle {
      more := [];
      assert es + more == es;
    } else {
      RunOneMore(es, Step(k, a));
      var begun := es + [Step(k, a)];
      var n := CompleteIsARun(Run(begun), k, a);
      var rest := StepsAreARun(begun, k, a, n);
      more := [Step(k, a)] + rest;
      assert es + more == begun + rest;
    }
  }

  const GOOD := Answer(true, Built, true, 0, 0)

  lemma BuiltRuns(f: Fleet, k: string, o: PolicyObject, a: Answer)
    requires a.build.Built?
    ensures !NoneRuns(Rebuilt(f, k, o, a), k)
  {
  }

  /** The case is reached: a policy is created, its scheduler is started, then someone takes its
      finalizer and has it deleted. No reconcile is under way, the policy does not hold our
      finalizer, and its scheduler runs; it still does after an uninterrupted reconcile that reads
      the policy, whatever else is answered. */
  lemma ForsakenKeepsRunning(k: string, o: PolicyObject, left: PolicyObject, a: Answer) returns (es: seq<Event>)
    requires Decide(o) == Rebuild && left.deleting && FINALIZER !in left.finalizers && a.readable
    ensures var s := Run(es);
            && TaskOf(s, k) == Idle && k in s.fleet.objects && s.fleet.objects[k] == left
            && !Holds(s.fleet, k) && !NoneRuns(s.fleet, k) && !NoneRuns(Whole(s.fleet, k, a), k)
  {
    var created := [] + [Edit(k, Some(o))];
    RunOneMore([], Edit(k, Some(o)));
    var more := WholeIsARun(created, k, GOOD);
    WholeIs(Run(created).fleet, k, GOOD);
    BuiltRuns(Run(created).fleet, k, o, GOOD);
    es := created + more + [Edit(k, Some(left))];
    RunOneMore(created + more, Edit(k, Some(left)));
    DeletionStopsTheHolders(es, k, a);
  }

  /* ---- A scan on request ---- */

  /** Reconciles one after the other, each uninterrupted. */
  function WholeAll(f: Fleet, k: string, answers: seq<Answer>): Fleet {
    if answers == [] then f else Whole(WholeAll(f, k, answers[..|answers| - 1]), k, answers[|answers| - 1])
  }

  /** How many of the reconciles got to read the policy. */
  function Readable(answers: seq<Answer>): nat {
    if answers == [] then 0
    else Readable(answers[..|answers| - 1]) + (if answers[|answers| - 1].readable then 1 else 0)
  }

  ghost predicate Requested(f: Fleet, k: string) {
    k in f.objects && Decide(f.objects[k]) == RunNow
  }

  ghost predicate Refused(answers: seq<Answer>) {
    forall a <- answers :: !(a.readable && a.accepted)
  }

  /** The scans started between f and g are n of the policy's scheduler, none of another. */
  ghost predicate Starts(f: Fleet, g: Fleet, k: string, n: nat) {
    && |g.triggered| == |f.triggered| + n && f.triggered <= g.triggered
    && (forall i | |f.triggered| <= i < |g.triggered| :: k in f.schedulers && g.triggered[i] == f.schedulers[k])
  }

  lemma {:induction false} RefusedRequestsRepeat(f: Fleet, k: string, answers: seq<Answer>)
    requires Requested(f, k) && Refused(answers)
    ensures var g := WholeAll(f, k, answers);
            && g.objects == f.objects && g.schedulers == f.schedulers
            && Starts(f, g, k, if k in f.schedulers then Readable(answers) else 0)
  {
    if answers != [] {
      var front, a := answers[..|answers| - 1], answers[|answers| - 1];
      assert forall b <- front :: b in answers;
      RefusedRequestsRepeat(f, k, front);
      assert a in answers;
      WholeIs(WholeAll(f, k, front), k, a);
    }
  }

  /** A request for a scan, reconciled until its removal is accepted: the annotation is gone then,
      and the scans started are one for each time the policy was read, if a scheduler runs for it,
      else none. So a request starts exactly one scan exactly if a scheduler runs and no write
      was refused before. */
  lemma RequestStarts(f: Fleet, k: string, refused: seq<Answer>, a: Answer)
    requires Requested(f, k) && Refused(refused) && a.readable && a.accepted
    ensures var g, n := WholeAll(f, k, refused + [a]), if k in f.schedulers then Readable(refused) + 1 else 0;
            && k in g.objects && g.objects[k] == Cleared(f.objects[k]) && !Requested(g, k)
            && Starts(f, g, k, n)
            && (|g.triggered| == |f.triggered| + 1 <==> k in f.schedulers && forall b <- refused :: !b.readable)
  {
    assert (refused + [a])[..|refused|] == refused;
    RefusedRequestsRepeat(f, k, refused);
    WholeIs(WholeAll(f, k, refused), k, a);
    NoneReadable(refused);
  }

  lemma {:induction false} NoneReadable(answers: seq<Answer>)
    ensures Readable(answers) == 0 <==> forall a <- answers :: !a.readable
  {
    if answers != [] {
      var front, last := answers[..|answers| - 1], answers[|answers| - 1];
      NoneReadable(front);
      assert forall a :: a in answers <==> a in front || a == last;
    }
  }

  /** What a reconcile asks for: nothing, to be run again at once, after some seconds, or, with an
      error, by the rate limiter. */
  datatype Comeback = Done | AtOnce | Later(seconds: nat) | Retry

  function Next(f: Fleet, k: string, a: Answer): Comeback {
    if !a.readable then Retry
    else if k !in f.objects then Done
    else
      match Decide(f.objects[k])
      case Ignore => Done
      case Depart => if a.accepted then Done else Retry
      case Join => if a.accepted then AtOnce else Retry
      case RunNow => if a.accepted then Done else Retry
      case Rebuild => if a.build.Broken? then Retry else if a.accepted then Done else Later(10)
  }

  /** When a reconcile is run again: at once after our finalizer was added; ten seconds after the
      status of a running scheduler could not be written; with the error after a failed read, a
      failed build or any other failed write. */
  lemma ComesBack(f: Fleet, k: string, a: Answer)
    ensures var found := a.readable && k in f.objects;
            && (Next(f, k, a) == AtOnce <==> found && !f.objects[k].deleting && !Ours(f.objects[k]) && a.accepted)
            && (Next(f, k, a) == Later(10) <==>
                  found && !f.objects[k].deleting && Ours(f.objects[k]) && !Asked(f.objects[k]) && a.build.Built? && !a.accepted)
            && (Next(f, k, a) == Retry <==>
                  || !a.readable
                  || (found && var o := f.objects[k];
                        if o.deleting then Ours(o) && !a.accepted
                        else if Ours(o) && !Asked(o) then a.build.Broken?
                        else !a.accepted))
            && (Next(f, k, a).Later? ==> Next(f, k, a).seconds == 10)
  {
  }

  /** No reconcile of a live policy stalls: if it does not ask to be run again, then either it
      changed the object, which brings the next one about, or nothing is left to do and the
      policy's scheduler runs. */
  lemma NoStall(f: Fleet, k: string, a: Answer)
    requires k in f.objects && !f.objects[k].deleting && Next(f, k, a) == Done
    ensures var o, g := f.objects[k], Whole(f, k, a);
            g.objects != f.objects
            || (ToDo(o, a.build) == 0 && k in g.schedulers && g.schedulers[k] in g.live && g.live[g.schedulers[k]] == k)
  {
    var o := f.objects[k];
    WholeWritesTheDecision(f, k, a);
    WholeIs(f, k, a);
    StepDoesOne(o, a.build, a.first, a.second);
    if ToDo(o, a.build) > 0 {
      assert Whole(f, k, a).objects[k] != f.objects[k];
    }
  }
}
