/** The engine running on the Claude adapter and the cached tools: what holds of a whole scan,
    whatever the remote model replies and however the cluster changes meanwhile. */
module ScanStack {
  import opened GoTypes
  import opened LlmTypes
  import opened ToolCache
  import opened ClaudeChat
  import opened ClaudeAdapter
  import opened Engine
  import Text

  /** The tools, the remote model, and how requests are worded for it. */
  datatype Stack = Stack(box: ToolBox, model: Model, prompt: VerifyRequest -> string,
                         batchPrompt: BatchRequest -> string)

  function CallTool(k: Stack, s: Session, name: string, params: string): (Session, Result<string>) {
    (s.(desk := Serve(k.box, s.desk, ToolCall(name, params))),
     Answer(k.box, s.desk, ToolCall(name, params)).outcome)
  }

  function AskOne(k: Stack, s: Session, req: VerifyRequest): (Session, Result<VerifyResponse>) {
    var (t, ending) := Chat(k.box, k.model, s, k.prompt(req));
    (t, VerifyAnswer(ending))
  }

  function AskMany(k: Stack, s: Session, req: BatchRequest): (Session, Result<seq<VerifyResponse>>) {
    var (t, ending) := Chat(k.box, k.model, s, k.batchPrompt(req));
    (t, BatchAnswer(ending, req.checks))
  }

  function Claude(k: Stack): Backend<Session> {
    Backend((s, name, params) => CallTool(k, s, name, params),
            (s, req) => AskOne(k, s, req),
            (s, req) => AskMany(k, s, req))
  }

  /* ---- One batch ---- */

  /** A stretch of the log of tool calls. */
  datatype Span = Span(lo: nat, hi: nat)

  /** The evidence of these results is, record for record, the calls of this stretch of the log. */
  ghost predicate Shows(rs: seq<CheckResult>, log: seq<Served>, span: Span) {
    span.lo <= span.hi <= |log| && forall r <- rs :: r.evidence == AsRecords(log[span.lo..span.hi])
  }

  ghost predicate ThreeVerdicts(rs: seq<CheckResult>) {
    forall r <- rs :: !r.verdict.Other?
  }

  /** From s to t at most budget requests were sent, and the tool cache was only used. */
  ghost predicate Moves(k: Stack, s: Session, t: Session, budget: nat) {
    s.requests <= t.requests && |t.requests| - |s.requests| <= budget && Continues(k.box, s.desk, t.desk)
  }

  function PromptFor(k: Stack, batch: seq<CheckItem>, ns: seq<string>, snapshot: string): string {
    if |batch| == 1 then k.prompt(VerifyRequest(batch[0].id, batch[0].description, ns, snapshot))
    else k.batchPrompt(BatchRequest(Requests(batch), ns, snapshot))
  }

  /** A batch is one conversation, whose records all its results show. */
  lemma BatchIsAChat(k: Stack, s: Session, batch: seq<CheckItem>, ns: seq<string>, snapshot: string)
    ensures var (t, rs) := RunBatch(Claude(k), s, batch, ns, snapshot);
            var (u, ending) := Chat(k.box, k.model, s, PromptFor(k, batch, ns, snapshot));
            && t == u && ThreeVerdicts(rs)
            && (forall r <- rs :: r.evidence == if ending.Finished? then ending.records else [])
  {
    var ending := Chat(k.box, k.model, s, PromptFor(k, batch, ns, snapshot)).1;
    if |batch| == 1 {
      VerifyAnswers(ending);
    } else {
      BatchAnswersEveryCheck(ending, Requests(batch));
    }
  }

  /** One conversation answers a batch: every result shows all calls it made, or, if it ended in
      an error, none. */
  lemma BatchOnClaude(k: Stack, s: Session, batch: seq<CheckItem>, ns: seq<string>, snapshot: string)
    returns (span: Span)
    ensures var (t, rs) := RunBatch(Claude(k), s, batch, ns, snapshot);
            && Moves(k, s, t, MAX_ITERATIONS) && ThreeVerdicts(rs)
            && Shows(rs, t.desk.log, span) && span.lo == |s.desk.log|
  {
    var prompt := PromptFor(k, batch, ns, snapshot);
    var (t, ending) := Chat(k.box, k.model, s, prompt);
    BatchIsAChat(k, s, batch, ns, snapshot);
    ChatInvariant(k.box, k.model, s, prompt);
    ConverseRecordsTheLog(k.box, k.model, s, Opening(prompt), [], MAX_ITERATIONS);
    var log, from := t.desk.log, |s.desk.log|;
    span := Span(from, if ending.Finished? then |log| else from);
    if ending.Finished? {
      assert log[from..|log|] == log[from..];
    } else {
      assert log[from..from] == [];
    }
  }

  /* ---- A whole scan ---- */

  /** Each result shows its own stretch of the log, none begins before from; checks of one batch
      show the same stretch, those of a later batch a later one. */
  ghost predicate Placed(rs: seq<CheckResult>, log: seq<Served>, spans: seq<Span>, from: nat) {
    && |spans| == |rs|
    && (forall p | 0 <= p < |rs| :: from <= spans[p].lo && Shows([rs[p]], log, spans[p]))
    && (forall p, q | 0 <= p < |rs| && 0 <= q < |rs| :: InOrder(p, spans[p], q, spans[q]))
  }

  predicate InOrder(p: nat, a: Span, q: nat, b: Span) {
    && (p / BATCH_SIZE == q / BATCH_SIZE ==> a == b)
    && (p / BATCH_SIZE < q / BATCH_SIZE ==> a.hi <= b.lo)
  }

  lemma ShowsInLonger(rs: seq<CheckResult>, log: seq<Served>, longer: seq<Served>, span: Span)
    requires Shows(rs, log, span) && log <= longer
    ensures Shows(rs, longer, span)
  {
    assert longer[span.lo..span.hi] == log[span.lo..span.hi];
  }

  lemma BatchesShift(n: nat, p: nat, q: nat, a: Span, b: Span)
    requires n == BATCH_SIZE && InOrder(p, a, q, b)
    ensures InOrder(n + p, a, n + q, b)
  {
  }

  lemma SpansInOrder(span: Span, spans: seq<Span>, n: nat, p: nat, q: nat)
    requires n <= BATCH_SIZE && (spans != [] ==> n == BATCH_SIZE) && p < n + |spans| && q < n + |spans|
    requires forall r | 0 <= r < |spans| :: span.hi <= spans[r].lo
    requires forall r, s | 0 <= r < |spans| && 0 <= s < |spans| :: InOrder(r, spans[r], s, spans[s])
    ensures InOrder(p, if p < n then span else spans[p - n], q, if q < n then span else spans[q - n])
  {
    if p >= n && q >= n {
      assert InOrder(p - n, spans[p - n], q - n, spans[q - n]);
      BatchesShift(n, p - n, q - n, spans[p - n], spans[q - n]);
    }
  }

  /** A first batch in front of placed results; unless these are none, it is full. */
  lemma Together(rs: seq<CheckResult>, log: seq<Served>, span: Span,
                 more: seq<CheckResult>, longer: seq<Served>, spans: seq<Span>, n: nat)
    requires |rs| == n <= BATCH_SIZE && (more != [] ==> n == BATCH_SIZE)
    requires Shows(rs, log, span) && log <= longer && Placed(more, longer, spans, |log|)
    ensures Placed(rs + more, longer, seq(n, _ => span) + spans, span.lo)
  {
    var all, places := rs + more, seq(n, _ => span) + spans;
    ShowsInLonger(rs, log, longer, span);
    forall p | 0 <= p < |all| ensures span.lo <= places[p].lo && Shows([all[p]], longer, places[p]) {
      if p >= n {
        assert Shows([more[p - n]], longer, spans[p - n]);
      } else {
        assert all[p] in rs;
      }
    }
    forall p, q | 0 <= p < |all| && 0 <= q < |all| ensures InOrder(p, places[p], q, places[q]) {
      SpansInOrder(span, spans, n, p, q);
    }
  }

  function Budget(n: nat): nat {
    MAX_ITERATIONS * ((n + 4) / 5)
  }

  lemma BudgetStep(n: nat)
    requires n > 0
    ensures Budget(n) == MAX_ITERATIONS + Budget(n - Min(BATCH_SIZE, n))
  {
    if n > 5 {
      CeilingStep(n);
    }
  }

  lemma OneMoreBatch(k: Stack, s: Session, t: Session, u: Session, rs: seq<CheckResult>, more: seq<CheckResult>,
                     span: Span, spans: seq<Span>, total: nat)
    requires 0 < total && |rs| == Min(BATCH_SIZE, total) && |more| == total - |rs|
    requires Moves(k, s, t, MAX_ITERATIONS) && ThreeVerdicts(rs)
    requires Shows(rs, t.desk.log, span) && span.lo == |s.desk.log|
    requires Moves(k, t, u, Budget(total - |rs|)) && ThreeVerdicts(more)
    requires Placed(more, u.desk.log, spans, |t.desk.log|)
    ensures Moves(k, s, u, Budget(total)) && ThreeVerdicts(rs + more)
    ensures Placed(rs + more, u.desk.log, seq(|rs|, _ => span) + spans, |s.desk.log|)
  {
    BudgetStep(total);
    Together(rs, t.desk.log, span, more, u.desk.log, spans, |rs|);
  }

  lemma {:induction false} BatchesOnClaude(k: Stack, s: Session, checks: seq<CheckItem>, ns: seq<string>, snapshot: string)
    returns (spans: seq<Span>)
    ensures var (t, rs) := RunBatches(Claude(k), s, checks, ns, snapshot);
            Moves(k, s, t, Budget(|checks|)) && ThreeVerdicts(rs) && Placed(rs, t.desk.log, spans, |s.desk.log|)
    decreases |checks|
  {
    if checks == [] {
      spans := [];
    } else {
      var n := Min(BATCH_SIZE, |checks|);
      var front, back := checks[..n], checks[n..];
      var (t, rs) := RunBatch(Claude(k), s, front, ns, snapshot);
      var span := BatchOnClaude(k, s, front, ns, snapshot);
      spans := BatchesOnClaude(k, t, back, ns, snapshot);
      var (u, more) := RunBatches(Claude(k), t, back, ns, snapshot);
      OneResultPerCheck(Claude(k), t, back, ns, snapshot);
      OneMoreBatch(k, s, t, u, rs, more, span, spans, |checks|);
      spans := seq(n, _ => span) + spans;
    }
  }

  ghost predicate CallsInOrder(calls: seq<Served>, tools: seq<string>) {
    |calls| == |tools| && forall i | 0 <= i < |tools| :: calls[i].call == ToolCall(tools[i], "{}")
  }

  lemma {:induction false} CollectOnClaude(k: Stack, s: Session, tools: seq<string>)
    ensures var t := Collect(Claude(k), s, tools).0;
            && t.requests == s.requests
            && Continues(k.box, s.desk, t.desk)
            && CallsInOrder(t.desk.log[|s.desk.log|..], tools)
  {
    if tools == [] {
      assert Collect(Claude(k), s, tools).0 == s;
    } else {
      var front, call := tools[..|tools| - 1], ToolCall(tools[|tools| - 1], "{}");
      CollectOnClaude(k, s, front);
      var t := Collect(Claude(k), s, front).0;
      var u := Collect(Claude(k), s, tools).0;
      assert u == t.(desk := Serve(k.box, t.desk, call));
      assert u.desk.log[|s.desk.log|..] == t.desk.log[|s.desk.log|..] + [Answer(k.box, t.desk, call)];
      if Consistent(k.box, s.desk) {
        ServeKeepsConsistent(k.box, t.desk, call);
      }
    }
  }

  /** A scan of n checks sends at most 10 * ceil(n / 5) requests to the remote model, whatever it
      replies, and none when the snapshot is unchanged. */
  lemma ScanCost(digest: string -> string, m: Memory, k: Stack, s: Session, p: Policy, checks: seq<CheckItem>)
    ensures var scanned := Scan(digest, m, Claude(k), s, p, checks);
            && s.requests <= scanned.state.requests
            && |scanned.state.requests| - |s.requests| <= 10 * ((|checks| + 4) / 5)
            && (scanned.reused ==> scanned.state.requests == s.requests)
  {
    var (t, snapshot) := Collect(Claude(k), s, SNAPSHOT_TOOLS);
    CollectOnClaude(k, s, SNAPSHOT_TOOLS);
    var _ := BatchesOnClaude(k, t, checks, p.targetNamespaces, snapshot);
  }

  /** Record i of result p was made before record j of result q. */
  predicate Earlier(p: nat, i: nat, q: nat, j: nat) {
    p / BATCH_SIZE < q / BATCH_SIZE || (p / BATCH_SIZE == q / BATCH_SIZE && i < j)
  }

  predicate SameCall(a: ToolCallRecord, b: ToolCallRecord) {
    a.toolName == b.toolName && a.input == b.input
  }

  /** If record i of result p succeeded, a later record j of result q for the same call equals it.
      That it succeeded the log tells, and also its text unless that reads as an error. */
  predicate Agree(rs: seq<CheckResult>, log: seq<Served>, spans: seq<Span>, p: nat, i: nat, q: nat, j: nat)
    requires |spans| == |rs| && p < |rs| && q < |rs| && i < |rs[p].evidence| && j < |rs[q].evidence|
    requires spans[p].lo + i < |log|
  {
    var a, b := rs[p].evidence[i], rs[q].evidence[j];
    Earlier(p, i, q, j) && SameCall(a, b) && (log[spans[p].lo + i].outcome.Ok? || !Text.HasPrefix(a.output, "Error: "))
    ==> a == b
  }

  lemma PlacedAgree(box: ToolBox, d: Desk, rs: seq<CheckResult>, spans: seq<Span>, from: nat,
                    p: nat, i: nat, q: nat, j: nat)
    requires Consistent(box, d) && Placed(rs, d.log, spans, from)
    requires p < |rs| && q < |rs| && i < |rs[p].evidence| && j < |rs[q].evidence|
    ensures spans[p].lo + i < |d.log| && Agree(rs, d.log, spans, p, i, q, j)
  {
    var x, y := spans[p].lo + i, spans[q].lo + j;
    assert Shows([rs[p]], d.log, spans[p]) && rs[p] in [rs[p]];
    assert Shows([rs[q]], d.log, spans[q]) && rs[q] in [rs[q]];
    assert rs[p].evidence[i] == AsRecord(d.log[x]) && rs[q].evidence[j] == AsRecord(d.log[y]);
    assert InOrder(p, spans[p], q, spans[q]);
    if d.log[x].outcome.Err? {
      assert ("Error: " + d.log[x].outcome.error)[..7] == "Error: ";
    } else if Earlier(p, i, q, j) && SameCall(rs[p].evidence[i], rs[q].evidence[j]) {
      assert x < y && SameKey(box, d.log[x], d.log[y]);
    }
  }

  ghost predicate AllAgree(rs: seq<CheckResult>, log: seq<Served>, spans: seq<Span>) {
    && |spans| == |rs|
    && forall p, i, q, j | 0 <= p < |rs| && 0 <= q < |rs| && 0 <= i < |rs[p].evidence| && 0 <= j < |rs[q].evidence| ::
         spans[p].lo + i < |log| && Agree(rs, log, spans, p, i, q, j)
  }

  lemma NothingShown(rs: seq<CheckResult>, log: seq<Served>) returns (spans: seq<Span>)
    requires forall r <- rs :: r.evidence == []
    ensures Placed(rs, log, spans, |log|)
  {
    spans := seq(|rs|, _ => Span(|log|, |log|));
    assert log[|log|..|log|] == [];
  }

  /** Within one scan, which starts with an empty cache: the first three tool calls are those of
      the snapshot, and each result shows as evidence a stretch of the calls after them, in the
      order of the checks. Once a call has succeeded, every later record of that tool and input, in
      whatever check's evidence, is identical, however the cluster changed in between; a call of
      the snapshot counts as earlier than all evidence. */
  lemma EvidenceIsConsistent(digest: string -> string, m: Memory, k: Stack, moment: nat, sent: seq<seq<Message>>,
                             p: Policy, checks: seq<CheckItem>) returns (spans: seq<Span>)
    ensures var scanned := Scan(digest, m, Claude(k), Session(NewDesk(moment), sent), p, checks);
            var log := scanned.state.desk.log;
            && |log| >= 3 && CallsInOrder(log[..3], SNAPSHOT_TOOLS)
            && Placed(scanned.results, log, spans, 3)
            && AllAgree(scanned.results, log, spans)
            && (forall i, j | 0 <= i < j < |log| && log[i].call == log[j].call && log[i].outcome.Ok? ::
                  AsRecord(log[j]) == AsRecord(log[i]))
  {
    var s := Session(NewDesk(moment), sent);
    var (t, snapshot) := Collect(Claude(k), s, SNAPSHOT_TOOLS);
    CollectOnClaude(k, s, SNAPSHOT_TOOLS);
    spans := BatchesOnClaude(k, t, checks, p.targetNamespaces, snapshot);
    var scanned := Scan(digest, m, Claude(k), s, p, checks);
    var rs, desk := scanned.results, scanned.state.desk;
    assert Consistent(k.box, s.desk);
    assert t.desk.log[0..] == t.desk.log <= desk.log && Consistent(k.box, desk);
    assert desk.log[..3] == t.desk.log;
    if scanned.reused {
      spans := NothingShown(rs, desk.log);
    }
    ConsistentAgrees(k.box, desk, rs, spans);
  }

  lemma ConsistentAgrees(box: ToolBox, d: Desk, rs: seq<CheckResult>, spans: seq<Span>)
    requires Consistent(box, d) && Placed(rs, d.log, spans, 3)
    ensures AllAgree(rs, d.log, spans)
    ensures forall i, j | 0 <= i < j < |d.log| && d.log[i].call == d.log[j].call && d.log[i].outcome.Ok? ::
              AsRecord(d.log[j]) == AsRecord(d.log[i])
  {
    forall p, i, q, j | 0 <= p < |rs| && 0 <= q < |rs| && 0 <= i < |rs[p].evidence| && 0 <= j < |rs[q].evidence|
      ensures spans[p].lo + i < |d.log| && Agree(rs, d.log, spans, p, i, q, j)
    {
      PlacedAgree(box, d, rs, spans, 3, p, i, q, j);
    }
    forall i, j | 0 <= i < j < |d.log| && d.log[i].call == d.log[j].call && d.log[i].outcome.Ok?
      ensures AsRecord(d.log[j]) == AsRecord(d.log[i])
    {
      assert SameKey(box, d.log[i], d.log[j]);
    }
  }

  /* ---- Runs of scans ---- */

  ghost predicate RemembersThree(m: Memory) {
    forall key <- m.verdicts :: forall id <- m.verdicts[key] :: !m.verdicts[key][id].Other?
  }

  lemma {:induction false} VerdictMapOfThree(rs: seq<CheckResult>)
    requires ThreeVerdicts(rs)
    ensures forall id <- VerdictMap(rs) :: !VerdictMap(rs)[id].Other?
  {
    if rs != [] {
      VerdictMapOfThree(rs[..|rs| - 1]);
      assert rs[|rs| - 1] in rs;
    }
  }

  lemma ScanOfThree(digest: string -> string, m: Memory, k: Stack, s: Session, p: Policy, checks: seq<CheckItem>)
    requires RemembersThree(m)
    ensures var scanned := Scan(digest, m, Claude(k), s, p, checks);
            ThreeVerdicts(scanned.results) && RemembersThree(scanned.memory)
  {
    var (t, snapshot) := Collect(Claude(k), s, SNAPSHOT_TOOLS);
    var _ := BatchesOnClaude(k, t, checks, p.targetNamespaces, snapshot);
    var scanned := Scan(digest, m, Claude(k), s, p, checks);
    if !scanned.reused {
      VerdictMapOfThree(scanned.results);
    }
  }

  ghost predicate AddsUp(rs: seq<CheckResult>, checks: seq<CheckItem>) {
    |checks| < 0x8000_0000 ==> var s := Summarize(rs); s.passed + s.warned + s.failed == s.total == |checks|
  }

  lemma ThreeAddUp(rs: seq<CheckResult>, checks: seq<CheckItem>)
    requires ThreeVerdicts(rs) && ReportsOnAll(rs, checks)
    ensures AddsUp(rs, checks)
  {
    if |checks| < 0x8000_0000 {
      SummaryIsFaithful(rs);
    }
  }

  ghost predicate AllAddUp<S>(done: seq<seq<CheckResult>>, calls: seq<ScanCall<S>>) {
    |done| == |calls| && forall i | 0 <= i < |calls| :: ThreeVerdicts(done[i]) && AddsUp(done[i], calls[i].checks)
  }

  /** Scans with this backend give and remember verdicts of the three if only such are remembered. */
  ghost predicate KeepsThree<S(!new)>(digest: string -> string, b: Backend<S>) {
    forall m, s, p, checks :: KeepsThreeAt(digest, m, b, s, p, checks)
  }

  ghost predicate KeepsThreeAt<S>(digest: string -> string, m: Memory, b: Backend<S>, s: S, p: Policy, checks: seq<CheckItem>) {
    RemembersThree(m) ==> var scanned := Scan(digest, m, b, s, p, checks);
                          ThreeVerdicts(scanned.results) && RemembersThree(scanned.memory)
  }

  lemma OneMoreAddsUp<S>(done: seq<seq<CheckResult>>, calls: seq<ScanCall<S>>, rs: seq<CheckResult>, c: ScanCall<S>)
    requires AllAddUp(done, calls) && ThreeVerdicts(rs) && AddsUp(rs, c.checks)
    ensures AllAddUp(done + [rs], calls + [c])
  {
  }

  lemma {:induction false} ThreesAddUp<S(!new)>(digest: string -> string, b: Backend<S>, calls: seq<ScanCall<S>>)
    requires KeepsThree(digest, b)
    ensures RemembersThree(RunScans(digest, b, calls).0) && AllAddUp(RunScans(digest, b, calls).1, calls)
  {
    if calls != [] {
      var earlier, c := calls[..|calls| - 1], calls[|calls| - 1];
      ThreesAddUp(digest, b, earlier);
      var (m, done) := RunScans(digest, b, earlier);
      RunScansOneMore(digest, b, earlier, c);
      assert earlier + [c] == calls;
      var rs := Scan(digest, m, b, c.start, c.policy, c.checks).results;
      assert KeepsThreeAt(digest, m, b, c.start, c.policy, c.checks);
      ScanReportsOnAll(digest, m, b, c.start, c.policy, c.checks);
      ThreeAddUp(rs, c.checks);
      OneMoreAddsUp(done, earlier, rs, c);
    }
  }

  /** Over any run of scans, reused verdicts included, every verdict is PASS, WARN or FAIL, so each
      summary's parts add up to its total, which is the number of checks. */
  lemma SummariesAddUp(digest: string -> string, k: Stack, calls: seq<ScanCall<Session>>)
    ensures var (m, done) := RunScans(digest, Claude(k), calls);
            RemembersThree(m) && AllAddUp(done, calls)
  {
    forall m, s, p, checks ensures KeepsThreeAt(digest, m, Claude(k), s, p, checks) {
      if RemembersThree(m) {
        ScanOfThree(digest, m, k, s, p, checks);
      }
    }
    ThreesAddUp(digest, Claude(k), calls);
  }
}
