/** What one reconcile decides and writes (operator/internal/controller/checklistpolicy_controller.go),
    on values, and why repeating it comes to rest. */
module Reconciling {
  import opened GoTypes
  import opened Conditions
  import E = Engine
  import Text

  const FINALIZER := "dtm.io/finalizer"
  const RUN_NOW := "dtm.io/run-now"

  /** A policy as the API server holds it. */
  datatype PolicyObject = PolicyObject(deleting: bool, finalizers: seq<string>, annotations: map<string, string>,
                                       summary: Option<E.Summary>, conditions: seq<Condition>)

  /** Building and starting a scheduler: it may fail on a secret, the provider, a notifier or a
      cron expression. */
  datatype Build = Built | Broken(notFound: bool, message: string)

  datatype Decision = Ignore | Depart | Join | RunNow | Rebuild

  function Decide(o: PolicyObject): Decision {
    if o.deleting then (if FINALIZER in o.finalizers then Depart else Ignore)
    else if FINALIZER !in o.finalizers then Join
    else if RUN_NOW in o.annotations && o.annotations[RUN_NOW] != "" then RunNow
    else Rebuild
  }

  function Without(finalizers: seq<string>, name: string): (left: seq<string>)
    ensures forall f :: f in left <==> f in finalizers && f != name
  {
    if finalizers == [] then []
    else (if finalizers[0] == name then [] else [finalizers[0]]) + Without(finalizers[1..], name)
  }

  function Left(o: PolicyObject): PolicyObject {
    o.(finalizers := Without(o.finalizers, FINALIZER))
  }

  function Joined(o: PolicyObject): PolicyObject {
    if FINALIZER in o.finalizers then o else o.(finalizers := o.finalizers + [FINALIZER])
  }

  function Cleared(o: PolicyObject): PolicyObject {
    o.(annotations := o.annotations - {RUN_NOW})
  }

  function HealthOf(o: PolicyObject, b: Build, first: Time, second: Time): Write {
    match b
    case Built => RunningWrite(o.summary, first, second)
    case Broken(notFound, message) => BrokenWrite(notFound, message, first, second)
  }

  function Judged(o: PolicyObject, b: Build, first: Time, second: Time): PolicyObject {
    o.(conditions := WriteTo(o.conditions, HealthOf(o, b, first, second)))
  }

  /** What one reconcile writes, if anything. */
  function Reconciled(o: PolicyObject, b: Build, first: Time, second: Time): PolicyObject {
    match Decide(o)
    case Ignore => o
    case Depart => Left(o)
    case Join => Joined(o)
    case RunNow => Cleared(o)
    case Rebuild => Judged(o, b, first, second)
  }

  /* ---- What it comes to ---- */

  /** What the health conditions have to say: why the build broke, else what the last full scan
      found wrong, else, with no failed check or no scan yet, that all is well. */
  ghost predicate SaysHealth(cs: seq<Condition>, b: Build, summary: Option<E.Summary>) {
    if b.Broken? then
      Says(cs, true, if b.notFound || Text.Occurs(b.message, "not found") then "SecretNotFound" else "SchedulerError", b.message)
    else if summary.Some? && summary.value.failed > 0 then
      Says(cs, true, "ChecksFailed", "Last scan: " + Decimal(summary.value.passed) + " pass, "
           + Decimal(summary.value.warned) + " warn, " + Decimal(summary.value.failed) + " fail")
    else Says(cs, false, "SchedulerRunning", "Scheduler is running")
  }

  predicate Ours(o: PolicyObject) {
    "dtm.io/finalizer" in o.finalizers
  }

  predicate Asked(o: PolicyObject) {
    "dtm.io/run-now" in o.annotations && o.annotations["dtm.io/run-now"] != ""
  }

  /** p is o apart from its finalizers. */
  predicate SameButFinalizers(o: PolicyObject, p: PolicyObject) {
    p.(finalizers := o.finalizers) == o
  }

  lemma HealthSays(o: PolicyObject, b: Build, cs: seq<Condition>, first: Time, second: Time)
    requires Says(cs, HealthOf(o, b, first, second).degraded, HealthOf(o, b, first, second).reason, HealthOf(o, b, first, second).message)
    ensures SaysHealth(cs, b, o.summary)
  {
  }

  /** What one reconcile makes of any policy, in terms of the policy alone. A policy being deleted
      loses our finalizer, nothing else. A live one first gains it; then loses a request for a
      scan; then has its health conditions say how the build and the last full scan went, whether
      or not there has been a scan. Each time all the rest stays. */
  lemma ReconcileDoes(o: PolicyObject, b: Build, first: Time, second: Time)
    ensures var p := Reconciled(o, b, first, second);
            if o.deleting then
              SameButFinalizers(o, p) && multiset(p.finalizers) == multiset(o.finalizers)["dtm.io/finalizer" := 0]
            else if !Ours(o) then p == o.(finalizers := o.finalizers + ["dtm.io/finalizer"])
            else if Asked(o) then p == o.(annotations := o.annotations - {"dtm.io/run-now"})
            else
              && p.(conditions := o.conditions) == o && SaysHealth(p.conditions, b, o.summary)
              && (forall kind | kind != "Degraded" && kind != "Available" ::
                    Find(p.conditions, kind) == Find(o.conditions, kind))
  {
    if o.deleting {
      WithoutCounts(o.finalizers, FINALIZER);
    } else if Ours(o) && !Asked(o) {
      var w := HealthOf(o, b, first, second);
      WriteSays(o.conditions, w);
      HealthSays(o, b, WriteTo(o.conditions, w), first, second);
      forall kind | kind != "Degraded" && kind != "Available"
        ensures Find(WriteTo(o.conditions, w), kind) == Find(o.conditions, kind)
      {
        WriteFinds(o.conditions, w, kind);
      }
    }
  }

  lemma {:induction false} WithoutCounts(finalizers: seq<string>, name: string)
    ensures multiset(Without(finalizers, name)) == multiset(finalizers)[name := 0]
  {
    if finalizers != [] {
      WithoutCounts(finalizers[1..], name);
      assert finalizers == [finalizers[0]] + finalizers[1..];
    }
  }

  /* ---- Repeated reconciles come to rest ---- */

  /** What is still to do on a live object: join, clear the annotation, settle the conditions. */
  function ToDo(o: PolicyObject, b: Build): nat {
    (if FINALIZER in o.finalizers then 0 else 1)
    + (if RUN_NOW in o.annotations && o.annotations[RUN_NOW] != "" then 1 else 0)
    + (if Settled(o.conditions, HealthOf(o, b, 0, 0)) then 0 else 1)
  }

  lemma StepDoesOne(o: PolicyObject, b: Build, first: Time, second: Time)
    requires !o.deleting
    ensures var p := Reconciled(o, b, first, second);
            && !p.deleting
            && (ToDo(o, b) == 0 <==> p == o)
            && (ToDo(o, b) > 0 ==> ToDo(p, b) == ToDo(o, b) - 1)
  {
    WriteSettles(o.conditions, HealthOf(o, b, first, second));
    var p := Reconciled(o, b, first, second);
    if Decide(o) == Join {
      assert p.finalizers[|o.finalizers|] == FINALIZER;
    } else if Decide(o) == RunNow {
      assert RUN_NOW !in p.annotations;
    }
  }

  /** The object after n reconciles, each with its own clock readings. */
  function Repeated(o: PolicyObject, b: Build, clock: nat -> Time, n: nat): PolicyObject {
    if n == 0 then o else Reconciled(Repeated(o, b, clock, n - 1), b, clock(2 * n), clock(2 * n + 1))
  }

  /** What is to do after i reconciles. */
  function ToDoAt(o: PolicyObject, b: Build, clock: nat -> Time, i: nat): nat {
    ToDo(Repeated(o, b, clock, i), b)
  }

  /** Whether the reconcile after i others changes the object. */
  predicate ChangesAt(o: PolicyObject, b: Build, clock: nat -> Time, i: nat) {
    Repeated(o, b, clock, i + 1) != Repeated(o, b, clock, i)
  }

  /** At how many of the first n places f holds. */
  function CountTrue(f: nat -> bool, n: nat): nat {
    if n == 0 then 0 else CountTrue(f, n - 1) + (if f(n - 1) then 1 else 0)
  }

  predicate DownAt(todo: nat -> nat, changes: nat -> bool, i: nat) {
    (changes(i) <==> todo(i) > 0) && todo(i + 1) == if todo(i) > 0 then todo(i) - 1 else 0
  }

  lemma {:induction false} CountDown(todo: nat -> nat, changes: nat -> bool, n: nat)
    requires forall i: nat :: DownAt(todo, changes, i)
    ensures todo(n) == todo(0) - E.Min(n, todo(0)) && CountTrue(changes, n) == E.Min(n, todo(0))
    ensures changes(n) <==> n < todo(0)
  {
    if n > 0 {
      CountDown(todo, changes, n - 1);
      assert DownAt(todo, changes, n - 1);
    }
    assert DownAt(todo, changes, n);
  }

  lemma {:induction false} StaysLive(o: PolicyObject, b: Build, clock: nat -> Time, n: nat)
    requires !o.deleting
    ensures !Repeated(o, b, clock, n).deleting
  {
    if n > 0 {
      StaysLive(o, b, clock, n - 1);
    }
  }

  lemma StepAt(o: PolicyObject, b: Build, clock: nat -> Time, i: nat)
    requires !o.deleting
    ensures && (ChangesAt(o, b, clock, i) <==> ToDoAt(o, b, clock, i) > 0)
            && ToDoAt(o, b, clock, i + 1) == if ToDoAt(o, b, clock, i) > 0 then ToDoAt(o, b, clock, i) - 1 else 0
  {
    StaysLive(o, b, clock, i);
    var now := Repeated(o, b, clock, i);
    var first, second := clock(2 * (i + 1)), clock(2 * (i + 1) + 1);
    assert Repeated(o, b, clock, i + 1) == Reconciled(now, b, first, second);
    StepDoesOne(now, b, first, second);
  }

  lemma CountedAs(todo: nat -> nat, changes: nat -> bool, i: nat, now: nat, next: nat, changed: bool)
    requires todo(i) == now && todo(i + 1) == next && changes(i) == changed
    requires (changed <==> now > 0) && next == if now > 0 then now - 1 else 0
    ensures DownAt(todo, changes, i)
  {
  }

  lemma StartsWithAll(o: PolicyObject, b: Build, clock: nat -> Time)
    ensures ToDoAt(o, b, clock, 0) == ToDo(o, b) <= 3
  {
  }

  /** With spec, secrets and summary fixed and all writes accepted, a live policy is changed once
      by each of the first ToDo reconciles (three at most), and by none after them. */
  lemma ReconcilingConverges(o: PolicyObject, b: Build, clock: nat -> Time, n: nat)
    requires !o.deleting
    ensures ToDo(o, b) <= 3
    ensures CountTrue((i: nat) => ChangesAt(o, b, clock, i), n) == E.Min(n, ToDo(o, b))
    ensures ChangesAt(o, b, clock, n) <==> n < ToDo(o, b)
    ensures ToDoAt(o, b, clock, n) == ToDo(o, b) - E.Min(n, ToDo(o, b))
  {
    var todo, changes := (i: nat) => ToDoAt(o, b, clock, i), (i: nat) => ChangesAt(o, b, clock, i);
    forall i: nat ensures DownAt(todo, changes, i) {
      StepAt(o, b, clock, i);
      CountedAs(todo, changes, i, ToDoAt(o, b, clock, i), ToDoAt(o, b, clock, i + 1), ChangesAt(o, b, clock, i));
    }
    CountDown(todo, changes, n);
    StartsWithAll(o, b, clock);
  }

  /** Where it comes to rest: our finalizer is held, no run-now is asked for, the conditions say
      how the build and the last full scan went, and nothing else differs from the start. */
  lemma {:induction false} RestingPlace(o: PolicyObject, b: Build, clock: nat -> Time, n: nat)
    requires !o.deleting && n >= 3
    ensures var p := Repeated(o, b, clock, n);
            && Decide(p) == Rebuild && Ours(p) && !Asked(p) && !p.deleting
            && Settled(p.conditions, HealthOf(o, b, 0, 0)) && SaysHealth(p.conditions, b, o.summary)
            && p.summary == o.summary
            && (forall f :: f in p.finalizers <==> f in o.finalizers || f == FINALIZER)
            && (forall a | a != RUN_NOW :: a in p.annotations <==> a in o.annotations)
            && (forall a <- p.annotations :: a in o.annotations && p.annotations[a] == o.annotations[a])
  {
    ReconcilingConverges(o, b, clock, n);
    OnlyOursChanges(o, b, clock, n);
    var p := Repeated(o, b, clock, n);
    assert ToDo(p, b) == ToDoAt(o, b, clock, n) == 0;
    SettledSays(p.conditions, HealthOf(o, b, 0, 0));
    HealthSays(o, b, p.conditions, 0, 0);
  }

  lemma {:induction false} OnlyOursChanges(o: PolicyObject, b: Build, clock: nat -> Time, n: nat)
    requires !o.deleting
    ensures var p := Repeated(o, b, clock, n);
            && !p.deleting && p.summary == o.summary
            && (forall f | f != FINALIZER :: f in p.finalizers <==> f in o.finalizers)
            && (FINALIZER in o.finalizers ==> FINALIZER in p.finalizers)
            && (forall a | a != RUN_NOW :: a in p.annotations <==> a in o.annotations)
            && (forall a <- p.annotations :: a in o.annotations && p.annotations[a] == o.annotations[a])
  {
    if n > 0 {
      OnlyOursChanges(o, b, clock, n - 1);
    }
  }

  /** A policy being deleted is written once if it holds our finalizer, which goes, and never
      again; everything else about it stays. */
  lemma {:induction false} DeletionIsWrittenOnce(o: PolicyObject, b: Build, clock: nat -> Time, n: nat)
    requires o.deleting && n > 0
    ensures var p := Repeated(o, b, clock, n);
            && p.(finalizers := o.finalizers) == o
            && (forall f :: f in p.finalizers <==> f in o.finalizers && f != FINALIZER)
            && (p == o <==> FINALIZER !in o.finalizers)
            && !ChangesAt(o, b, clock, n)
  {
    if n > 1 {
      DeletionIsWrittenOnce(o, b, clock, n - 1);
    } else {
      assert Repeated(o, b, clock, 0) == o;
    }
  }

  /** Status and date of a condition. */
  predicate StandsSince(cs: seq<Condition>, kind: string, status: Truth, since: Time) {
    Find(cs, kind).Some? && Find(cs, kind).value.status == status && Find(cs, kind).value.since == since
  }

  predicate SameStanding(a: seq<Condition>, b: seq<Condition>, kind: string) {
    && Find(a, kind).Some? && Find(b, kind).Some?
    && Find(a, kind).value.status == Find(b, kind).value.status
    && Find(a, kind).value.since == Find(b, kind).value.since
  }

  /** A rebuilding reconcile after a full scan, whatever came of the build. Both conditions keep
      status and date exactly if the build was good or the scan had found a failure; otherwise the
      failed build turns the healthy policy Degraded and not Available, dated now. */
  lemma ReconcileKeepsScanHealth(o: PolicyObject, b: Build, cs: seq<Condition>, s: E.Summary, first: Time, second: Time,
                                 later: Time, last: Time)
    requires o.summary == Some(s) && o.conditions == WriteTo(cs, ScanWrite(s, first, second))
    ensures var after := Judged(o, b, later, last).conditions;
            && (b.Built? || s.failed > 0 ==>
                  SameStanding(o.conditions, after, DEGRADED) && SameStanding(o.conditions, after, AVAILABLE))
            && (b.Broken? && s.failed <= 0 ==>
                  && Find(o.conditions, DEGRADED).Some? && Find(o.conditions, DEGRADED).value.status == False
                  && Find(o.conditions, AVAILABLE).Some? && Find(o.conditions, AVAILABLE).value.status == True
                  && StandsSince(after, DEGRADED, True, later) && StandsSince(after, AVAILABLE, False, last))
            && (SameStanding(o.conditions, after, DEGRADED) <==> b.Built? || s.failed > 0)
            && (SameStanding(o.conditions, after, AVAILABLE) <==> b.Built? || s.failed > 0)
  {
    var w, v := ScanWrite(s, first, second), HealthOf(o, b, later, last);
    WriteFinds(cs, w, DEGRADED);
    WriteFinds(cs, w, AVAILABLE);
    WriteFinds(o.conditions, v, DEGRADED);
    WriteFinds(o.conditions, v, AVAILABLE);
  }

  function SecretError(secret: string, namespace: string, cause: string): string {
    "LLM secret '" + secret + "' not found in namespace '" + namespace + "': " + cause
  }

  /** Whatever kept the model's secret from being read, a forbidden request as much as a missing
      object, the policy is reported as lacking the secret: the message itself says "not found". */
  lemma AnySecretErrorReadsNotFound(secret: string, namespace: string, cause: string, notFound: bool,
                                    first: Time, second: Time)
    ensures BrokenWrite(notFound, SecretError(secret, namespace, cause), first, second).reason == "SecretNotFound"
  {
    var m, i := SecretError(secret, namespace, cause), |"LLM secret '" + secret + "' "|;
    assert m == ("LLM secret '" + secret + "' ") + "not found" + (" in namespace '" + namespace + "': " + cause);
    assert m[i..i + 9] == "not found";
    assert Text.OccursAt(m, "not found", i);
  }
}
