/** The two health conditions of a policy's status, Available and Degraded, and everything that
    writes them: the scheduler after a full scan, the scheduler when a scan cannot run, and the
    reconciler (operator/internal/scheduler/scheduler.go,
    operator/internal/controller/checklistpolicy_controller.go). */
module Conditions {
  import opened GoTypes
  import opened Engine
  import opened LlmTypes
  import Text

  datatype Truth = True | False | Undecided

  datatype Condition = Condition(kind: string, status: Truth, reason: string, message: string, since: Time)

  const AVAILABLE := "Available"
  const DEGRADED := "Degraded"

  /** What Kubernetes does when a condition is set on a list: a condition of a new kind is
      appended; a known one is overwritten in place, but its date moves only if its status does. */
  function SetCondition(cs: seq<Condition>, c: Condition): seq<Condition> {
    if cs == [] then [c]
    else if cs[0].kind == c.kind then [c.(since := if cs[0].status == c.status then cs[0].since else c.since)] + cs[1..]
    else [cs[0]] + SetCondition(cs[1..], c)
  }

  function Find(cs: seq<Condition>, kind: string): (r: Option<Condition>)
    ensures r.Some? ==> r.value in cs && r.value.kind == kind
  {
    if cs == [] then None else if cs[0].kind == kind then Some(cs[0]) else Find(cs[1..], kind)
  }

  ghost predicate OneEach(cs: seq<Condition>) {
    forall i, j | 0 <= i < j < |cs| :: cs[i].kind != cs[j].kind
  }

  /** Setting a condition changes what is found of its kind, nothing else, and repeats no kind. */
  lemma {:induction false} SetFinds(cs: seq<Condition>, c: Condition, kind: string)
    ensures Find(SetCondition(cs, c), kind) ==
            if kind != c.kind then Find(cs, kind)
            else match Find(cs, kind)
              case None => Some(c)
              case Some(was) => Some(c.(since := if was.status == c.status then was.since else c.since))
  {
    if cs != [] && cs[0].kind != c.kind {
      SetFinds(cs[1..], c, kind);
    }
  }

  lemma {:induction false} SetKeepsOneEach(cs: seq<Condition>, c: Condition)
    requires OneEach(cs)
    ensures OneEach(SetCondition(cs, c))
    ensures forall d <- SetCondition(cs, c) :: d.kind == c.kind || d in cs
  {
    if cs != [] && cs[0].kind != c.kind {
      SetKeepsOneEach(cs[1..], c);
      assert forall d <- cs[1..] :: d in cs;
      var rest := SetCondition(cs[1..], c);
      forall d <- rest ensures d.kind != cs[0].kind {
        if d.kind != c.kind {
          var i :| 0 <= i < |cs[1..]| && cs[1..][i] == d;
        }
      }
    }
  }

  lemma {:induction false} SetAgain(cs: seq<Condition>, c: Condition)
    requires Find(cs, c.kind).Some? && c.(since := Find(cs, c.kind).value.since) == Find(cs, c.kind).value
    ensures SetCondition(cs, c) == cs
  {
    if cs[0].kind != c.kind {
      SetAgain(cs[1..], c);
    }
  }

  /* ---- Writing both conditions ---- */

  /** One write of the two conditions, always opposite, each dated by its own clock reading. */
  datatype Write = Write(degraded: bool, reason: string, message: string, first: Time, second: Time)

  function DegradedBy(w: Write, at: Time): Condition {
    Condition(DEGRADED, if w.degraded then True else False, w.reason, w.message, at)
  }

  function AvailableBy(w: Write, at: Time): Condition {
    Condition(AVAILABLE, if w.degraded then False else True, w.reason, w.message, at)
  }

  /** The condition that becomes true is set first. */
  function WriteTo(cs: seq<Condition>, w: Write): seq<Condition> {
    if w.degraded then SetCondition(SetCondition(cs, DegradedBy(w, w.first)), AvailableBy(w, w.second))
    else SetCondition(SetCondition(cs, AvailableBy(w, w.first)), DegradedBy(w, w.second))
  }

  function WriteAll(cs: seq<Condition>, ws: seq<Write>): seq<Condition> {
    if ws == [] then cs else WriteTo(WriteAll(cs, ws[..|ws| - 1]), ws[|ws| - 1])
  }

  lemma WriteFinds(cs: seq<Condition>, w: Write, kind: string)
    ensures var was, found := Find(cs, kind), Find(WriteTo(cs, w), kind);
            if kind == DEGRADED then
              found == Some(DegradedBy(w, SinceWhen(was, if w.degraded then True else False, if w.degraded then w.first else w.second)))
            else if kind == AVAILABLE then
              found == Some(AvailableBy(w, SinceWhen(was, if w.degraded then False else True, if w.degraded then w.second else w.first)))
            else found == was
  {
    var mid := if w.degraded then DegradedBy(w, w.first) else AvailableBy(w, w.first);
    var end := if w.degraded then AvailableBy(w, w.second) else DegradedBy(w, w.second);
    SetFinds(cs, mid, kind);
    SetFinds(SetCondition(cs, mid), end, kind);
  }

  function SinceWhen(was: Option<Condition>, status: Truth, now: Time): Time {
    if was.Some? && was.value.status == status then was.value.since else now
  }

  /** How many writes at the end of ws agree with the last of them. */
  function Streak(ws: seq<Write>): (k: nat)
    requires ws != []
    ensures 1 <= k <= |ws|
    ensures forall i | |ws| - k <= i < |ws| :: ws[i].degraded == ws[|ws| - 1].degraded
    ensures k < |ws| ==> ws[|ws| - k - 1].degraded != ws[|ws| - 1].degraded
  {
    var front := ws[..|ws| - 1];
    if front == [] || front[|front| - 1].degraded != ws[|ws| - 1].degraded then 1 else 1 + Streak(front)
  }

  /** After any nonempty sequence of writes by anyone, to any list that repeats no kind: both
      conditions are there, once each, with opposite status; they say what the last write said;
      all other conditions are as they were. */
  lemma {:induction false} HealthIsOpposed(cs: seq<Condition>, ws: seq<Write>, kind: string)
    requires OneEach(cs) && ws != []
    ensures var after, last := WriteAll(cs, ws), ws[|ws| - 1];
            && OneEach(after)
            && Find(after, DEGRADED).Some? && Find(after, AVAILABLE).Some?
            && var d, a := Find(after, DEGRADED).value, Find(after, AVAILABLE).value;
            && (d.status == True <==> last.degraded) && (a.status == True <==> !last.degraded)
            && d.status != Undecided && a.status != Undecided
            && d.reason == a.reason == last.reason && d.message == a.message == last.message
            && (kind != DEGRADED && kind != AVAILABLE ==> Find(after, kind) == Find(cs, kind))
  {
    var front, w := ws[..|ws| - 1], ws[|ws| - 1];
    var before := WriteAll(cs, front);
    if front != [] {
      HealthIsOpposed(cs, front, kind);
    }
    WriteFinds(before, w, DEGRADED);
    WriteFinds(before, w, AVAILABLE);
    WriteFinds(before, w, kind);
    SetKeepsOneEach(before, if w.degraded then DegradedBy(w, w.first) else AvailableBy(w, w.first));
    SetKeepsOneEach(SetCondition(before, if w.degraded then DegradedBy(w, w.first) else AvailableBy(w, w.first)),
                    if w.degraded then AvailableBy(w, w.second) else DegradedBy(w, w.second));
  }

  /** What a write gives one of the two conditions as status, and the clock reading it offers. */
  function StatusBy(w: Write, kind: string): Truth {
    if w.degraded == (kind == DEGRADED) then True else False
  }

  function ReadingBy(w: Write, kind: string): Time {
    if w.degraded == (kind == DEGRADED) then w.first else w.second
  }

  lemma WriteDates(cs: seq<Condition>, w: Write, kind: string)
    requires kind == DEGRADED || kind == AVAILABLE
    ensures var found := Find(WriteTo(cs, w), kind);
            && found.Some? && found.value.status == StatusBy(w, kind)
            && found.value.since == SinceWhen(Find(cs, kind), StatusBy(w, kind), ReadingBy(w, kind))
  {
    WriteFinds(cs, w, kind);
  }

  lemma StreakStep(front: seq<Write>, w: Write)
    requires front != []
    ensures Streak(front + [w]) == if front[|front| - 1].degraded == w.degraded then Streak(front) + 1 else 1
  {
    assert (front + [w])[..|front|] == front;
  }

  /** The condition found is as the last write says, and dated by the write that began the present
      unbroken streak, or as at the start if all writes agree with what was there. */
  predicate DatesItsStreak(start: Option<Condition>, ws: seq<Write>, kind: string, found: Option<Condition>)
    requires ws != []
  {
    var last, began := ws[|ws| - 1], ws[|ws| - Streak(ws)];
    && found.Some? && found.value.status == StatusBy(last, kind)
    && found.value.since == if Streak(ws) < |ws| then ReadingBy(began, kind)
                            else SinceWhen(start, StatusBy(last, kind), ReadingBy(began, kind))
  }

  lemma OneMoreWrite(start: Option<Condition>, front: seq<Write>, w: Write, kind: string,
                     was: Option<Condition>, found: Option<Condition>)
    requires front != [] && DatesItsStreak(start, front, kind, was)
    requires found.Some? && found.value.status == StatusBy(w, kind)
    requires found.value.since == SinceWhen(was, StatusBy(w, kind), ReadingBy(w, kind))
    ensures DatesItsStreak(start, front + [w], kind, found)
  {
    StreakStep(front, w);
  }

  /** After any writes to any list, the date on Degraded and that on Available tell when their
      present unbroken streak began. */
  lemma {:induction false} HealthDatesItsStreak(cs: seq<Condition>, ws: seq<Write>, kind: string)
    requires ws != [] && (kind == DEGRADED || kind == AVAILABLE)
    ensures DatesItsStreak(Find(cs, kind), ws, kind, Find(WriteAll(cs, ws), kind))
  {
    var front, w := ws[..|ws| - 1], ws[|ws| - 1];
    WriteDates(WriteAll(cs, front), w, kind);
    if front != [] {
      HealthDatesItsStreak(cs, front, kind);
      OneMoreWrite(Find(cs, kind), front, w, kind, Find(WriteAll(cs, front), kind), Find(WriteAll(cs, ws), kind));
      assert front + [w] == ws;
    }
  }

  /** Both conditions already say what w says; only their dates may differ. */
  predicate Settled(cs: seq<Condition>, w: Write) {
    && Find(cs, DEGRADED).Some? && Find(cs, DEGRADED).value == DegradedBy(w, Find(cs, DEGRADED).value.since)
    && Find(cs, AVAILABLE).Some? && Find(cs, AVAILABLE).value == AvailableBy(w, Find(cs, AVAILABLE).value.since)
  }

  /** A write settles the conditions, and writing the same once more, however much later,
      changes nothing; it changes nothing only then. */
  lemma WriteSettles(cs: seq<Condition>, w: Write)
    ensures Settled(WriteTo(cs, w), w)
    ensures WriteTo(cs, w) == cs <==> Settled(cs, w)
  {
    WriteFinds(cs, w, DEGRADED);
    WriteFinds(cs, w, AVAILABLE);
    if Settled(cs, w) {
      SetAgain(cs, if w.degraded then DegradedBy(w, w.first) else AvailableBy(w, w.first));
      SetAgain(cs, if w.degraded then AvailableBy(w, w.second) else DegradedBy(w, w.second));
    }
  }

  /** What stands in the condition of a kind, its date apart. */
  predicate Shows(cs: seq<Condition>, kind: string, status: Truth, reason: string, message: string) {
    && Find(cs, kind).Some?
    && Find(cs, kind).value.status == status
    && Find(cs, kind).value.reason == reason && Find(cs, kind).value.message == message
  }

  /** Both health conditions are there, are opposite, and give the same reason. */
  predicate Says(cs: seq<Condition>, degraded: bool, reason: string, message: string) {
    && Shows(cs, "Degraded", if degraded then True else False, reason, message)
    && Shows(cs, "Available", if degraded then False else True, reason, message)
  }

  lemma SettledSays(cs: seq<Condition>, w: Write)
    ensures Settled(cs, w) ==> Says(cs, w.degraded, w.reason, w.message)
  {
  }

  lemma WriteSays(cs: seq<Condition>, w: Write)
    ensures Says(WriteTo(cs, w), w.degraded, w.reason, w.message)
  {
    WriteFinds(cs, w, "Degraded");
    WriteFinds(cs, w, "Available");
  }

  /* ---- The writers ---- */

  function Digits(n: nat): string {
    if n < 10 then [('0' as int + n) as char] else Digits(n / 10) + Digits(n % 10)
  }

  function Decimal(n: int): string {
    if n < 0 then "-" + Digits(-n) else Digits(n)
  }

  /** The number a row of decimal digits stands for, and the one a text with a sign does. */
  function NumberOf(digits: string): int {
    if digits == [] then 0 else 10 * NumberOf(digits[..|digits| - 1]) + (digits[|digits| - 1] as int - '0' as int)
  }

  function Parsed(text: string): int {
    if text != [] && text[0] == '-' then -NumberOf(text[1..]) else NumberOf(text)
  }

  lemma {:induction false} DigitsRead(n: nat)
    ensures var t := Digits(n);
            && t != [] && (forall c <- t :: '0' <= c <= '9') && (n > 0 ==> t[0] != '0')
            && NumberOf(t) == n
  {
    var t, d := Digits(n), ('0' as int + n % 10) as char;
    if n < 10 {
      assert t == [d] && t[..0] == [];
    } else {
      DigitsRead(n / 10);
      assert Digits(n % 10) == [d];
      assert t == Digits(n / 10) + [d];
      assert t[..|t| - 1] == Digits(n / 10) && t[|t| - 1] == d;
    }
  }

  /** A number is written so that it reads back, without leading zeros. */
  lemma DecimalReads(n: int)
    ensures Parsed(Decimal(n)) == n
    ensures n > 0 ==> !Text.HasPrefix(Decimal(n), "0")
  {
    DigitsRead(if n < 0 then -n else n);
    if n < 0 {
      assert Decimal(n)[1..] == Digits(-n);
    } else {
      assert Digits(n)[0] in Digits(n);
      assert n > 0 && |Digits(n)| >= 1 ==> Digits(n)[..1][0] == Digits(n)[0];
    }
  }

  function LastScan(s: Summary): string {
    "Last scan: " + Decimal(s.passed) + " pass, " + Decimal(s.warned) + " warn, " + Decimal(s.failed) + " fail"
  }

  /** After a full scan. */
  function ScanWrite(s: Summary, first: Time, second: Time): Write {
    if s.failed > 0 then Write(true, "ChecksFailed", LastScan(s), first, second)
    else Write(false, "ScanCompleted", LastScan(s), first, second)
  }

  /** A reconcile that got its scheduler running, by the summary of the last full scan, if any. */
  function RunningWrite(s: Option<Summary>, first: Time, second: Time): Write {
    if s.Some? && s.value.failed > 0 then Write(true, "ChecksFailed", LastScan(s.value), first, second)
    else Write(false, "SchedulerRunning", "Scheduler is running", first, second)
  }

  /** A reconcile that could not start a scheduler. */
  function BrokenWrite(notFound: bool, message: string, first: Time, second: Time): Write {
    Write(true, if notFound || Text.Index(message, "not found") >= 0 then "SecretNotFound" else "SchedulerError",
          message, first, second)
  }

  /** A full scan leaves Degraded true exactly when one of its checks failed, and Available true
      exactly when none did, whatever stood there before; the message counts the verdicts. */
  lemma FullScanStatusIsFaithful(cs: seq<Condition>, rs: seq<CheckResult>, first: Time, second: Time)
    requires |rs| < 0x8000_0000
    ensures var after := WriteTo(cs, ScanWrite(Summarize(rs), first, second));
            && Find(after, DEGRADED).Some? && Find(after, AVAILABLE).Some?
            && (Find(after, DEGRADED).value.status == True <==> exists r :: r in rs && r.verdict.FAIL?)
            && (Find(after, AVAILABLE).value.status == True <==> forall r <- rs :: !r.verdict.FAIL?)
            && Says(after, exists r :: r in rs && r.verdict.FAIL?,
                    if exists r :: r in rs && r.verdict.FAIL? then "ChecksFailed" else "ScanCompleted",
                    "Last scan: " + Decimal(multiset(Verdicts(rs))[PASS]) + " pass, "
                    + Decimal(multiset(Verdicts(rs))[WARN]) + " warn, " + Decimal(multiset(Verdicts(rs))[FAIL]) + " fail")
  {
    SummaryIsFaithful(rs);
    var w := ScanWrite(Summarize(rs), first, second);
    WriteFinds(cs, w, DEGRADED);
    WriteFinds(cs, w, AVAILABLE);
    WriteSays(cs, w);
  }

  /** A reconcile that got its scheduler running keeps the health a full scan left: rewriting from
      the stored summary never flips a condition nor moves its date; only reason and message of a
      healthy policy change. */
  lemma RunningKeepsScanHealth(cs: seq<Condition>, s: Summary, first: Time, second: Time, later: Time, last: Time)
    ensures var scanned := WriteTo(cs, ScanWrite(s, first, second));
            var after := WriteTo(scanned, RunningWrite(Some(s), later, last));
            && (s.failed > 0 ==> after == scanned)
            && Find(after, DEGRADED).Some? && Find(scanned, DEGRADED).Some?
            && Find(after, AVAILABLE).Some? && Find(scanned, AVAILABLE).Some?
            && Find(after, DEGRADED).value.status == Find(scanned, DEGRADED).value.status
            && Find(after, DEGRADED).value.since == Find(scanned, DEGRADED).value.since
            && Find(after, AVAILABLE).value.status == Find(scanned, AVAILABLE).value.status
            && Find(after, AVAILABLE).value.since == Find(scanned, AVAILABLE).value.since
  {
    var w, v := ScanWrite(s, first, second), RunningWrite(Some(s), later, last);
    var scanned := WriteTo(cs, w);
    WriteFinds(cs, w, DEGRADED);
    WriteFinds(cs, w, AVAILABLE);
    WriteFinds(scanned, v, DEGRADED);
    WriteFinds(scanned, v, AVAILABLE);
    if s.failed > 0 {
      WriteSettles(cs, w);
      assert Settled(scanned, v);
      WriteSettles(scanned, v);
    }
  }
}
