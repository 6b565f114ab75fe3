/** The verification engine of operator/internal/engine/engine.go: snapshot collection, the
    skip of unchanged snapshots, batching in fives, and the summary. The adapter and the tools
    are any functions that thread a state of any type, so they may err, answer too much or too
    little, and change from call to call. */
module Engine {
  import opened GoTypes
  import opened LlmTypes

  const BATCH_SIZE: nat := 5

  const SNAPSHOT_TOOLS: seq<string> := ["list_pods", "list_nodes", "get_events"]

  datatype CheckItem = CheckItem(id: string, description: string, severity: string)

  datatype Policy = Policy(namespace: string, name: string, targetNamespaces: seq<string>)

  datatype CheckResult = CheckResult(id: string, description: string, severity: string, verdict: Verdict,
                                     reasoning: string, evidence: seq<ToolCallRecord>, failedSince: Option<Time>)

  datatype Backend<!S> = Backend(
    call: (S, string, string) -> (S, Result<string>),
    verify: (S, VerifyRequest) -> (S, Result<VerifyResponse>),
    batch: (S, BatchRequest) -> (S, Result<seq<VerifyResponse>>))

  /* ---- Snapshot ---- */

  function Collect<S>(b: Backend<S>, s: S, tools: seq<string>): (S, string) {
    if tools == [] then (s, "")
    else
      var (t, text) := Collect(b, s, tools[..|tools| - 1]);
      var name := tools[|tools| - 1];
      match b.call(t, name, "{}")
      case (u, Ok(output)) => (u, text + "### " + name + "\n" + output + "\n\n")
      case (u, Err(_)) => (u, text)
  }

  function Snapshot<S>(b: Backend<S>, s: S): string {
    Collect(b, s, SNAPSHOT_TOOLS).1
  }

  /** What one tool's answer adds to a snapshot: a headed section, or nothing for an error. */
  function Section(name: string, answer: Result<string>): string {
    if answer.Ok? then "### " + name + "\n" + answer.value + "\n\n" else ""
  }

  /** The answers to pods, nodes and events, as a snapshot shows them. */
  function Shown(a: seq<Result<string>>): string
    requires |a| == 3
  {
    Section("list_pods", a[0]) + Section("list_nodes", a[1]) + Section("get_events", a[2])
  }

  /** From state s on, the three calls are answered by a, one after the other, and end in state t. */
  ghost predicate Answers<S>(b: Backend<S>, s: S, a: seq<Result<string>>, t: S) {
    && |a| == 3
    && var first := b.call(s, "list_pods", "{}");
    && var second := b.call(first.0, "list_nodes", "{}");
    && var third := b.call(second.0, "get_events", "{}");
    && a[0] == first.1 && a[1] == second.1 && a[2] == third.1 && t == third.0
  }

  lemma CollectOneMore<S>(b: Backend<S>, s: S, tools: seq<string>, name: string)
    ensures var (t, text) := Collect(b, s, tools);
            var (u, r) := b.call(t, name, "{}");
            Collect(b, s, tools + [name]) == (u, text + Section(name, r))
  {
    assert (tools + [name])[..|tools|] == tools;
    var (t, text) := Collect(b, s, tools);
    assert text + "" == text;
    var r := b.call(t, name, "{}").1;
    if r.Ok? {
      assert text + ("### " + name + "\n" + r.value + "\n\n") == text + "### " + name + "\n" + r.value + "\n\n";
    }
  }

  /** A snapshot is made of the outputs of the three tools, in this order, each called once on what
      the one before it left. */
  lemma SnapshotShows<S>(b: Backend<S>, s: S, a: seq<Result<string>>, t: S)
    requires Answers(b, s, a, t)
    ensures Collect(b, s, SNAPSHOT_TOOLS) == (t, Shown(a)) && Snapshot(b, s) == Shown(a)
  {
    CollectOneMore(b, s, [], "list_pods");
    CollectOneMore(b, s, ["list_pods"], "list_nodes");
    CollectOneMore(b, s, ["list_pods", "list_nodes"], "get_events");
    assert [] + ["list_pods"] == ["list_pods"];
    assert ["list_pods"] + ["list_nodes"] == ["list_pods", "list_nodes"];
    assert ["list_pods", "list_nodes"] + ["get_events"] == SNAPSHOT_TOOLS;
    assert "" + Section("list_pods", a[0]) == Section("list_pods", a[0]);
  }

  /** Two answers a snapshot tells apart: all but two errors. */
  predicate SeenApart(a: Result<string>, c: Result<string>) {
    a != c && (a.Ok? || c.Ok?)
  }

  lemma SectionTells(name: string, a: Result<string>, c: Result<string>)
    ensures Section(name, a) != Section(name, c) <==> SeenApart(a, c)
  {
    if a.Ok? && c.Ok? {
      var n := |"### " + name + "\n"|;
      var x, y := Section(name, a), Section(name, c);
      assert x[n..|x| - 2] == a.value && y[n..|y| - 2] == c.value;
    }
  }

  lemma Between(x: string, y: string, z: string, w: string)
    requires x + y + w == x + z + w
    ensures y == z
  {
    assert |x + y + w| == |x| + |y| + |w| && |x + z + w| == |x| + |z| + |w|;
    assert (x + y + w)[|x|..|x| + |y|] == y && (x + z + w)[|x|..|x| + |z|] == z;
  }

  /** Change one tool's answer, and the snapshot changes, unless it was an error and is one still. */
  lemma SnapshotTells(a: seq<Result<string>>, c: seq<Result<string>>, i: nat)
    requires |a| == 3 && |c| == 3 && i < 3 && forall j | 0 <= j < 3 && j != i :: !SeenApart(a[j], c[j])
    ensures Shown(a) != Shown(c) <==> SeenApart(a[i], c[i])
  {
    SectionTells("list_pods", a[0], c[0]);
    SectionTells("list_nodes", a[1], c[1]);
    SectionTells("get_events", a[2], c[2]);
    OnlyOneDiffers(Section("list_pods", a[0]), Section("list_nodes", a[1]), Section("get_events", a[2]),
                   Section("list_pods", c[0]), Section("list_nodes", c[1]), Section("get_events", c[2]));
  }

  lemma OnlyOneDiffers(p: string, n: string, e: string, q: string, m: string, f: string)
    requires (p == q && n == m) || (p == q && e == f) || (n == m && e == f)
    ensures p + n + e == q + m + f <==> p == q && n == m && e == f
  {
    if p + n + e == q + m + f {
      if n == m && e == f {
        assert "" + p + (n + e) == p + n + e && "" + q + (n + e) == q + n + e;
        Between("", p, q, n + e);
      } else if p == q && e == f {
        Between(p, n, m, e);
      } else {
        assert p + n + e + "" == p + n + e && p + n + f + "" == p + n + f;
        Between(p + n, e, f, "");
      }
    }
  }

  /* ---- Running checks in batches ---- */

  function ResultFor(c: CheckItem, verdict: Verdict, reasoning: string, evidence: seq<ToolCallRecord>): CheckResult {
    CheckResult(c.id, c.description, c.severity, verdict, reasoning, evidence, None)
  }

  function RunOne<S>(b: Backend<S>, s: S, c: CheckItem, ns: seq<string>, snapshot: string): (S, CheckResult) {
    match b.verify(s, VerifyRequest(c.id, c.description, ns, snapshot))
    case (t, Ok(r)) => (t, ResultFor(c, r.verdict, r.reasoning, r.toolCalls))
    case (t, Err(e)) => (t, ResultFor(c, FAIL, "LLM API error: " + e, []))
  }

  function Requests(batch: seq<CheckItem>): (rs: seq<VerifyRequest>)
    ensures |rs| == |batch|
    ensures forall i | 0 <= i < |rs| :: rs[i] == VerifyRequest(batch[i].id, batch[i].description, [], "")
  {
    seq(|batch|, i requires 0 <= i < |batch| => VerifyRequest(batch[i].id, batch[i].description, [], ""))
  }

  function FromBatch(c: CheckItem, j: nat, answer: Result<seq<VerifyResponse>>): CheckResult {
    match answer
    case Err(e) => ResultFor(c, FAIL, "LLM batch API error: " + e, [])
    case Ok(rs) =>
      if j < |rs| then ResultFor(c, rs[j].verdict, rs[j].reasoning, rs[j].toolCalls)
      else ResultFor(c, FAIL, "No response from batch for this check.", [])
  }

  function RunMany<S>(b: Backend<S>, s: S, batch: seq<CheckItem>, ns: seq<string>, snapshot: string)
    : (S, seq<CheckResult>)
  {
    var (t, answer) := b.batch(s, BatchRequest(Requests(batch), ns, snapshot));
    (t, Filed(batch, answer))
  }

  function Filed(batch: seq<CheckItem>, answer: Result<seq<VerifyResponse>>): (rs: seq<CheckResult>)
    ensures |rs| == |batch| && forall j | 0 <= j < |rs| :: rs[j] == FromBatch(batch[j], j, answer)
  {
    seq(|batch|, j requires 0 <= j < |batch| => FromBatch(batch[j], j, answer))
  }

  /** A lone check is verified singly, any other batch in one call. */
  function RunBatch<S>(b: Backend<S>, s: S, batch: seq<CheckItem>, ns: seq<string>, snapshot: string)
    : (r: (S, seq<CheckResult>))
    ensures |r.1| == |batch|
  {
    if |batch| == 1 then
      var (t, r) := RunOne(b, s, batch[0], ns, snapshot);
      (t, [r])
    else RunMany(b, s, batch, ns, snapshot)
  }

  function Min(a: nat, b: nat): nat {
    if a <= b then a else b
  }

  function RunBatches<S>(b: Backend<S>, s: S, checks: seq<CheckItem>, ns: seq<string>, snapshot: string)
    : (S, seq<CheckResult>)
    decreases |checks|
  {
    if checks == [] then (s, [])
    else
      var n := Min(BATCH_SIZE, |checks|);
      var (t, rs) := RunBatch(b, s, checks[..n], ns, snapshot);
      var (u, more) := RunBatches(b, t, checks[n..], ns, snapshot);
      (u, rs + more)
  }

  lemma NextBatch<S>(b: Backend<S>, s: S, checks: seq<CheckItem>, i: nat, ns: seq<string>, snapshot: string)
    requires i < |checks|
    ensures var end := Min(i + BATCH_SIZE, |checks|);
            var (t, rs) := RunBatch(b, s, checks[i..end], ns, snapshot);
            var (u, more) := RunBatches(b, t, checks[end..], ns, snapshot);
            RunBatches(b, s, checks[i..], ns, snapshot) == (u, rs + more)
  {
    var end, rest := Min(i + BATCH_SIZE, |checks|), checks[i..];
    assert rest[..end - i] == checks[i..end] && rest[end - i..] == checks[end..];
  }

  /** r reports on c. */
  predicate ReportsOn(r: CheckResult, c: CheckItem) {
    r.id == c.id && r.description == c.description && r.severity == c.severity && r.failedSince == None
  }

  predicate ReportsOnAll(rs: seq<CheckResult>, checks: seq<CheckItem>) {
    |rs| == |checks| && forall i | 0 <= i < |rs| :: ReportsOn(rs[i], checks[i])
  }

  /** Whatever the adapter does, a scan yields one result per check, in order. */
  lemma {:induction false} OneResultPerCheck<S>(b: Backend<S>, s: S, checks: seq<CheckItem>, ns: seq<string>,
                                               snapshot: string)
    ensures ReportsOnAll(RunBatches(b, s, checks, ns, snapshot).1, checks)
    decreases |checks|
  {
    if checks != [] {
      var n := Min(BATCH_SIZE, |checks|);
      var (t, rs) := RunBatch(b, s, checks[..n], ns, snapshot);
      OneResultPerCheck(b, t, checks[n..], ns, snapshot);
    }
  }

  /** What the adapter's answer for one check makes its result: verdict, reasoning and evidence as
      answered, or a failure that tells the error. */
  predicate FiledAs(r: CheckResult, c: CheckItem, answer: Result<VerifyResponse>, trouble: string) {
    && ReportsOn(r, c)
    && (answer.Ok? ==> r.verdict == answer.value.verdict && r.reasoning == answer.value.reasoning
                       && r.evidence == answer.value.toolCalls)
    && (answer.Err? ==> r.verdict == FAIL && r.reasoning == trouble + answer.error && r.evidence == [])
  }

  /** One batch: a lone check goes to verify with its description, namespaces and snapshot; several
      go to one batch call in their order, and are given its answers by position. */
  ghost predicate Answered<S>(b: Backend<S>, s: S, t: S, batch: seq<CheckItem>, rs: seq<CheckResult>,
                              ns: seq<string>, snapshot: string)
  {
    && |rs| == |batch|
    && if |batch| == 1 then
         var called := b.verify(s, VerifyRequest(batch[0].id, batch[0].description, ns, snapshot));
         t == called.0 && FiledAs(rs[0], batch[0], called.1, "LLM API error: ")
       else
         exists asked ::
           && |asked| == |batch|
           && (forall j | 0 <= j < |batch| :: asked[j] == VerifyRequest(batch[j].id, batch[j].description, [], ""))
           && var called := b.batch(s, BatchRequest(asked, ns, snapshot));
           && t == called.0
           && forall j | 0 <= j < |batch| ::
                FiledAs(rs[j], batch[j], AnswerAt(called.1, j),
                        if called.1.Err? then "LLM batch API error: " else "")
  }

  /** The answer for the check at place j, if the batch call brought one. */
  function AnswerAt(answer: Result<seq<VerifyResponse>>, j: nat): Result<VerifyResponse> {
    match answer
    case Err(e) => Err(e)
    case Ok(rs) => if j < |rs| then Ok(rs[j]) else Err("No response from batch for this check.")
  }

  lemma BatchIsAnswered<S>(b: Backend<S>, s: S, batch: seq<CheckItem>, ns: seq<string>, snapshot: string)
    ensures var (t, rs) := RunBatch(b, s, batch, ns, snapshot);
            Answered(b, s, t, batch, rs, ns, snapshot)
  {
    if |batch| != 1 {
      var asked := Requests(batch);
      var (t, answer) := b.batch(s, BatchRequest(asked, ns, snapshot));
      assert RunBatch(b, s, batch, ns, snapshot) == (t, Filed(batch, answer));
      assert forall e: string :: "" + e == e;
    }
  }

  /** The k-th five of a sequence. */
  function Five<T>(xs: seq<T>, k: nat): seq<T>
    requires 5 * k <= |xs|
  {
    xs[5 * k..if 5 * k + 5 <= |xs| then 5 * k + 5 else |xs|]
  }

  lemma FiveLater<T>(front: seq<T>, back: seq<T>, k: nat)
    requires |front| == 5 && 5 * k <= |back|
    ensures Five(front + back, k + 1) == Five(back, k)
  {
  }

  ghost predicate AnsweredFive<S>(b: Backend<S>, ss: seq<S>, checks: seq<CheckItem>, rs: seq<CheckResult>,
                                  ns: seq<string>, snapshot: string, k: nat)
    requires k + 1 < |ss| && 5 * k <= |checks| == |rs|
  {
    Answered(b, ss[k], ss[k + 1], Five(checks, k), Five(rs, k), ns, snapshot)
  }

  ghost predicate AnsweredInFives<S>(b: Backend<S>, ss: seq<S>, checks: seq<CheckItem>, rs: seq<CheckResult>,
                                     ns: seq<string>, snapshot: string)
  {
    && |rs| == |checks| && |ss| == (|checks| + 4) / 5 + 1
    && forall k | 0 <= k < |ss| - 1 :: AnsweredFive(b, ss, checks, rs, ns, snapshot, k)
  }

  lemma AnsweredLater<S>(b: Backend<S>, s: S, ss: seq<S>, front: seq<CheckItem>, back: seq<CheckItem>,
                         rs: seq<CheckResult>, more: seq<CheckResult>, ns: seq<string>, snapshot: string, k: nat)
    requires |front| == |rs| == 5 && |back| == |more| && k + 1 < |ss| && 5 * k <= |back|
    requires AnsweredFive(b, ss, back, more, ns, snapshot, k)
    ensures AnsweredFive(b, [s] + ss, front + back, rs + more, ns, snapshot, k + 1)
  {
    FiveLater(front, back, k);
    FiveLater(rs, more, k);
    assert ([s] + ss)[k + 1] == ss[k] && ([s] + ss)[k + 2] == ss[k + 1];
  }

  lemma AnsweredFirst<S>(b: Backend<S>, s: S, ss: seq<S>, front: seq<CheckItem>, back: seq<CheckItem>,
                         rs: seq<CheckResult>, more: seq<CheckResult>, ns: seq<string>, snapshot: string)
    requires |front| == |rs| == 5 && |back| == |more| && ss != [] && Answered(b, s, ss[0], front, rs, ns, snapshot)
    ensures AnsweredFive(b, [s] + ss, front + back, rs + more, ns, snapshot, 0)
  {
    assert Five(front + back, 0) == front && Five(rs + more, 0) == rs;
  }

  lemma OneMoreInFront<S>(b: Backend<S>, s: S, ss: seq<S>, front: seq<CheckItem>, back: seq<CheckItem>,
                          rs: seq<CheckResult>, more: seq<CheckResult>, ns: seq<string>, snapshot: string)
    requires |front| == |rs| == 5 && AnsweredInFives(b, ss, back, more, ns, snapshot)
    requires AnsweredFive(b, [s] + ss, front + back, rs + more, ns, snapshot, 0)
    ensures AnsweredInFives(b, [s] + ss, front + back, rs + more, ns, snapshot)
  {
    CeilingStep(|back| + 5);
    forall k | 0 < k < |ss| ensures AnsweredFive(b, [s] + ss, front + back, rs + more, ns, snapshot, k) {
      assert AnsweredFive(b, ss, back, more, ns, snapshot, k - 1);
      AnsweredLater(b, s, ss, front, back, rs, more, ns, snapshot, k - 1);
    }
  }

  /** Five by five, each batch is sent on from the state the one before it left, and its results
      are the adapter's answers to its own checks. */
  lemma {:induction false} ResultsFollowAnswers<S>(b: Backend<S>, s: S, checks: seq<CheckItem>, ns: seq<string>,
                                                  snapshot: string) returns (ss: seq<S>)
    ensures var (t, rs) := RunBatches(b, s, checks, ns, snapshot);
            AnsweredInFives(b, ss, checks, rs, ns, snapshot) && ss[0] == s && ss[|ss| - 1] == t
    decreases |checks|
  {
    if checks == [] {
      ss := [s];
    } else {
      var n := Min(BATCH_SIZE, |checks|);
      var front, back := checks[..n], checks[n..];
      var (t, rs) := RunBatch(b, s, front, ns, snapshot);
      var rest := ResultsFollowAnswers(b, t, back, ns, snapshot);
      BatchIsAnswered(b, s, front, ns, snapshot);
      var (u, more) := RunBatches(b, t, back, ns, snapshot);
      assert RunBatches(b, s, checks, ns, snapshot) == (u, rs + more);
      ss := [s] + rest;
      assert AnsweredInFives(b, ss, checks, rs + more, ns, snapshot) by {
        if n == 5 {
          AnsweredFirst(b, s, rest, front, back, rs, more, ns, snapshot);
          OneMoreInFront(b, s, rest, front, back, rs, more, ns, snapshot);
          assert front + back == checks;
        } else {
          LoneBatch(b, s, rest, checks, rs, ns, snapshot);
          assert rs + more == rs;
        }
      }
    }
  }

  lemma LoneBatch<S>(b: Backend<S>, s: S, ss: seq<S>, checks: seq<CheckItem>, rs: seq<CheckResult>,
                     ns: seq<string>, snapshot: string)
    requires 0 < |checks| < 5 && |ss| == 1 && Answered(b, s, ss[0], checks, rs, ns, snapshot)
    ensures AnsweredInFives(b, [s] + ss, checks, rs, ns, snapshot)
  {
    assert Five(checks, 0) == checks && Five(rs, 0) == rs;
  }

  /* ---- Batches against single checks ---- */

  /** Verifying each check by itself, one after the other. */
  function OneByOne<S>(b: Backend<S>, s: S, checks: seq<CheckItem>, ns: seq<string>, snapshot: string)
    : (r: (S, seq<Verdict>))
    ensures |r.1| == |checks|
  {
    if checks == [] then (s, [])
    else
      var (t, r) := RunOne(b, s, checks[0], ns, snapshot);
      var (u, verdicts) := OneByOne(b, t, checks[1..], ns, snapshot);
      (u, [r.verdict] + verdicts)
  }

  lemma {:induction false} OneByOneInTwo<S>(b: Backend<S>, s: S, front: seq<CheckItem>, back: seq<CheckItem>,
                                           ns: seq<string>, snapshot: string)
    ensures var (t, vs) := OneByOne(b, s, front, ns, snapshot);
            var (u, ws) := OneByOne(b, t, back, ns, snapshot);
            OneByOne(b, s, front + back, ns, snapshot) == (u, vs + ws)
  {
    if front == [] {
      assert front + back == back;
      assert forall ws: seq<Verdict> :: [] + ws == ws;
    } else {
      assert (front + back)[1..] == front[1..] + back;
      var (t, r) := RunOne(b, s, front[0], ns, snapshot);
      OneByOneInTwo(b, t, front[1..], back, ns, snapshot);
      var (u, vs) := OneByOne(b, t, front[1..], ns, snapshot);
      var ws := OneByOne(b, u, back, ns, snapshot).1;
      assert [r.verdict] + (vs + ws) == ([r.verdict] + vs) + ws;
    }
  }

  function Verdicts(rs: seq<CheckResult>): (vs: seq<Verdict>)
    ensures |vs| == |rs| && forall i | 0 <= i < |vs| :: vs[i] == rs[i].verdict
  {
    seq(|rs|, i requires 0 <= i < |rs| => rs[i].verdict)
  }

  /** From states that are alike for the adapter, whatever that means for it, a single call does
      alike from both, and one batch call does like single calls; errors and missing answers count
      as the failures they are filed as. */
  ghost predicate BatchesLikeSingles<S(!new)>(b: Backend<S>, alike: (S, S) -> bool) {
    && (forall s, t, c, ns, snapshot | alike(s, t) ::
          var (u, r) := RunOne(b, s, c, ns, snapshot);
          var (v, q) := RunOne(b, t, c, ns, snapshot);
          alike(u, v) && r.verdict == q.verdict)
    && (forall s, t, batch, ns, snapshot | alike(s, t) ::
          var (u, rs) := RunMany(b, s, batch, ns, snapshot);
          var (v, vs) := OneByOne(b, t, batch, ns, snapshot);
          alike(u, v) && Verdicts(rs) == vs)
  }

  lemma BatchIsPointwise<S(!new)>(b: Backend<S>, alike: (S, S) -> bool, s: S, t: S, batch: seq<CheckItem>,
                                  ns: seq<string>, snapshot: string)
    requires BatchesLikeSingles(b, alike) && alike(s, t)
    ensures var (u, rs) := RunBatch(b, s, batch, ns, snapshot);
            var (v, vs) := OneByOne(b, t, batch, ns, snapshot);
            alike(u, v) && Verdicts(rs) == vs
  {
    if |batch| == 1 {
      var (u, r) := RunOne(b, s, batch[0], ns, snapshot);
      var (v, q) := RunOne(b, t, batch[0], ns, snapshot);
      assert alike(u, v) && r.verdict == q.verdict;
      assert OneByOne(b, v, batch[1..], ns, snapshot) == (v, []);
      assert [q.verdict] + [] == [q.verdict];
      assert OneByOne(b, t, batch, ns, snapshot) == (v, [q.verdict]);
    } else {
      var (u, rs) := RunMany(b, s, batch, ns, snapshot);
      var (v, vs) := OneByOne(b, t, batch, ns, snapshot);
      assert alike(u, v) && Verdicts(rs) == vs;
    }
  }

  /** If a batch is answered as its checks would be one by one, batching is invisible: the verdicts
      of a scan are those of verifying each check by itself. */
  lemma {:induction false} BatchingIsPointwise<S(!new)>(b: Backend<S>, alike: (S, S) -> bool, s: S, t: S,
                                                       checks: seq<CheckItem>, ns: seq<string>, snapshot: string)
    requires BatchesLikeSingles(b, alike) && alike(s, t)
    ensures var (u, rs) := RunBatches(b, s, checks, ns, snapshot);
            var (v, vs) := OneByOne(b, t, checks, ns, snapshot);
            alike(u, v) && Verdicts(rs) == vs
    decreases |checks|
  {
    if checks != [] {
      var n := Min(BATCH_SIZE, |checks|);
      var front, back := checks[..n], checks[n..];
      BatchIsPointwise(b, alike, s, t, front, ns, snapshot);
      var (u, rs) := RunBatch(b, s, front, ns, snapshot);
      var (v, vs) := OneByOne(b, t, front, ns, snapshot);
      BatchingIsPointwise(b, alike, u, v, back, ns, snapshot);
      assert front + back == checks;
      OneByOneInTwo(b, t, front, back, ns, snapshot);
      var (w, more) := RunBatches(b, u, back, ns, snapshot);
      assert RunBatches(b, s, checks, ns, snapshot) == (w, rs + more);
      VerdictsConcat(rs, more);
    }
  }

  lemma VerdictsConcat(rs: seq<CheckResult>, more: seq<CheckResult>)
    ensures Verdicts(rs + more) == Verdicts(rs) + Verdicts(more)
  {
  }

  /* ---- An adapter that answers as a function ---- */

  /** The verdict an adapter would give: namespaces, snapshot, check ID, description. */
  type Oracle = (seq<string>, string, string, string) -> Verdict

  ghost predicate AnswersOne<S(!new)>(b: Backend<S>, v: Oracle) {
    forall s, req :: var r := b.verify(s, req).1;
      r.Ok? && r.value.verdict == v(req.namespaces, req.snapshot, req.checkID, req.description)
  }

  ghost predicate AnswersMany<S(!new)>(b: Backend<S>, v: Oracle) {
    forall s, req :: var r := b.batch(s, req).1;
      && r.Ok? && |r.value| == |req.checks|
      && forall i | 0 <= i < |req.checks| ::
           r.value[i].verdict == v(req.namespaces, req.snapshot, req.checks[i].checkID, req.checks[i].description)
  }

  function Judge(v: Oracle, ns: seq<string>, snapshot: string, c: CheckItem): Verdict {
    v(ns, snapshot, c.id, c.description)
  }

  ghost predicate Judged(rs: seq<CheckResult>, v: Oracle, ns: seq<string>, snapshot: string, checks: seq<CheckItem>) {
    |rs| == |checks| && forall i | 0 <= i < |rs| :: rs[i].verdict == Judge(v, ns, snapshot, checks[i])
  }

  /** With such an adapter each check gets its own verdict, in a batch or not. */
  lemma {:induction false} OracleVerdicts<S(!new)>(b: Backend<S>, v: Oracle, s: S, checks: seq<CheckItem>,
                                                       ns: seq<string>, snapshot: string)
    requires AnswersOne(b, v) && AnswersMany(b, v)
    ensures Judged(RunBatches(b, s, checks, ns, snapshot).1, v, ns, snapshot, checks)
    decreases |checks|
  {
    if checks != [] {
      var n := Min(BATCH_SIZE, |checks|);
      var (t, rs) := RunBatch(b, s, checks[..n], ns, snapshot);
      OracleVerdicts(b, v, t, checks[n..], ns, snapshot);
    }
  }

  /* ---- How often the adapter is called ---- */

  datatype Tally<S> = Tally(state: S, singles: nat, batches: nat)

  function CountSingle<S>(b: Backend<S>, s: Tally<S>, req: VerifyRequest): (Tally<S>, Result<VerifyResponse>) {
    var (t, r) := b.verify(s.state, req);
    (Tally(t, s.singles + 1, s.batches), r)
  }

  function CountBatch<S>(b: Backend<S>, s: Tally<S>, req: BatchRequest): (Tally<S>, Result<seq<VerifyResponse>>) {
    var (t, r) := b.batch(s.state, req);
    (Tally(t, s.singles, s.batches + 1), r)
  }

  function CountNone<S>(b: Backend<S>, s: Tally<S>, name: string, params: string): (Tally<S>, Result<string>) {
    var (t, r) := b.call(s.state, name, params);
    (s.(state := t), r)
  }

  /** The same backend, counting single and batch calls of the adapter. */
  function Counting<S>(b: Backend<S>): Backend<Tally<S>> {
    Backend((s, name, params) => CountNone(b, s, name, params),
            (s, req) => CountSingle(b, s, req),
            (s, req) => CountBatch(b, s, req))
  }

  lemma CountedBatch<S>(b: Backend<S>, s: Tally<S>, batch: seq<CheckItem>, ns: seq<string>, snapshot: string)
    ensures var (t, rs) := RunBatch(b, s.state, batch, ns, snapshot);
            RunBatch(Counting(b), s, batch, ns, snapshot)
            == (if |batch| == 1 then Tally(t, s.singles + 1, s.batches) else Tally(t, s.singles, s.batches + 1), rs)
  {
  }

  lemma CeilingStep(k: nat)
    requires k >= 5
    ensures (k + 4) / 5 == 1 + (k - 5 + 4) / 5 && k % 5 == (k - 5) % 5
  {
  }

  /** A scan that is not skipped calls the adapter once per five checks or part of five, and
      singly only for a lone last check. */
  lemma {:induction false} AdapterCalls<S>(b: Backend<S>, s: Tally<S>, checks: seq<CheckItem>,
                                          ns: seq<string>, snapshot: string)
    ensures var (t, rs) := RunBatches(b, s.state, checks, ns, snapshot);
            var (u, ss) := RunBatches(Counting(b), s, checks, ns, snapshot);
            && u.state == t && ss == rs
            && (u.singles - s.singles) + (u.batches - s.batches) == (|checks| + 4) / 5
            && u.singles - s.singles == if |checks| % 5 == 1 then 1 else 0
    decreases |checks|
  {
    if checks != [] {
      var n := Min(BATCH_SIZE, |checks|);
      CountedBatch(b, s, checks[..n], ns, snapshot);
      var (t, _) := RunBatch(Counting(b), s, checks[..n], ns, snapshot);
      AdapterCalls(b, t, checks[n..], ns, snapshot);
      if |checks| > 5 {
        CeilingStep(|checks|);
      }
    }
  }

  /* ---- Scans with memory ---- */

  /** What the engine remembers per policy: the hash of the last snapshot and its verdicts. */
  datatype Memory = Memory(hashes: map<string, string>, verdicts: map<string, map<string, Verdict>>)

  const EMPTY_MEMORY := Memory(map[], map[])

  const REUSED := "Snapshot unchanged \U{2014} previous verdict reused."

  function Key(p: Policy): string {
    p.namespace + "/" + p.name
  }

  function Reusable(m: Memory, key: string, hash: string, checks: seq<CheckItem>): bool {
    && key in m.hashes && m.hashes[key] == hash && key in m.verdicts
    && |checks| > 0 && (forall c <- checks :: c.id in m.verdicts[key])
  }

  function Reuse(known: map<string, Verdict>, checks: seq<CheckItem>): (rs: seq<CheckResult>)
    requires forall c <- checks :: c.id in known
    ensures |rs| == |checks|
    ensures forall i | 0 <= i < |rs| :: rs[i] == ResultFor(checks[i], known[checks[i].id], REUSED, [])
  {
    if checks == [] then []
    else Reuse(known, checks[..|checks| - 1])
           + [ResultFor(checks[|checks| - 1], known[checks[|checks| - 1].id], REUSED, [])]
  }

  /** The verdict map a scan leaves; of two results with one ID the later counts. */
  function VerdictMap(rs: seq<CheckResult>): map<string, Verdict> {
    if rs == [] then map[] else VerdictMap(rs[..|rs| - 1])[rs[|rs| - 1].id := rs[|rs| - 1].verdict]
  }

  datatype Scanned<S> = Scanned(memory: Memory, state: S, results: seq<CheckResult>, reused: bool)

  function Scan<S>(digest: string -> string, m: Memory, b: Backend<S>, s: S, p: Policy, checks: seq<CheckItem>)
    : Scanned<S>
  {
    var (t, snapshot) := Collect(b, s, SNAPSHOT_TOOLS);
    var key, hash := Key(p), digest(snapshot);
    if Reusable(m, key, hash, checks) then Scanned(m, t, Reuse(m.verdicts[key], checks), true)
    else
      var (u, rs) := RunBatches(b, t, checks, p.targetNamespaces, snapshot);
      Scanned(Memory(m.hashes[key := hash], m.verdicts[key := VerdictMap(rs)]), u, rs, false)
  }

  lemma ScanReportsOnAll<S>(digest: string -> string, m: Memory, b: Backend<S>, s: S, p: Policy, checks: seq<CheckItem>)
    ensures ReportsOnAll(Scan(digest, m, b, s, p, checks).results, checks)
  {
    var (t, snapshot) := Collect(b, s, SNAPSHOT_TOOLS);
    OneResultPerCheck(b, t, checks, p.targetNamespaces, snapshot);
  }

  /** Skipped or not: a skipped scan calls the adapter not at all, any other ceil(n / 5) times. */
  lemma AdapterCallsPerScan<S>(digest: string -> string, m: Memory, b: Backend<S>, s: S, p: Policy, checks: seq<CheckItem>)
    ensures var c := Scan(digest, m, Counting(b), Tally(s, 0, 0), p, checks);
            && c.results == Scan(digest, m, b, s, p, checks).results
            && c.reused == Scan(digest, m, b, s, p, checks).reused
            && c.state.singles + c.state.batches == (if c.reused then 0 else (|checks| + 4) / 5)
            && (c.state.singles != 0 <==> !c.reused && |checks| % 5 == 1)
  {
    CollectCounted(b, s, SNAPSHOT_TOOLS);
    var (t, snapshot) := Collect(b, s, SNAPSHOT_TOOLS);
    AdapterCalls(b, Tally(t, 0, 0), checks, p.targetNamespaces, snapshot);
  }

  lemma {:induction false} CollectCounted<S>(b: Backend<S>, s: S, tools: seq<string>)
    ensures var (t, text) := Collect(b, s, tools);
            Collect(Counting(b), Tally(s, 0, 0), tools) == (Tally(t, 0, 0), text)
  {
    if tools != [] {
      CollectCounted(b, s, tools[..|tools| - 1]);
    }
  }

  /** A policy's next scan after one that saw answers a: if an output has changed and the hashes of
      the two snapshots do not collide, it is not skipped, and the checks are verified anew under
      the new outputs. */
  lemma ChangedOutputIsVerified<S>(digest: string -> string, m: Memory, b: Backend<S>, s: S, earlier: seq<CheckItem>,
                                   t: S, p: Policy, checks: seq<CheckItem>,
                                   a: seq<Result<string>>, c: seq<Result<string>>, left: S, u: S, i: nat)
    requires Answers(b, s, a, left) && Answers(b, t, c, u)
    requires i < 3 && SeenApart(a[i], c[i]) && forall j | 0 <= j < 3 && j != i :: a[j] == c[j]
    requires digest(Shown(a)) == digest(Shown(c)) ==> Shown(a) == Shown(c)
    ensures var first := Scan(digest, m, b, s, p, earlier);
            var second := Scan(digest, first.memory, b, t, p, checks);
            && !second.reused
            && (second.state, second.results) == RunBatches(b, u, checks, p.targetNamespaces, Shown(c))
  {
    SnapshotShows(b, s, a, left);
    SnapshotShows(b, t, c, u);
    SnapshotTells(a, c, i);
  }

  /* ---- The skip is transparent ---- */

  datatype ScanCall<S> = ScanCall(policy: Policy, checks: seq<CheckItem>, start: S)

  /** The scans of a run, one after the other; each starts from a state of its own. */
  function RunScans<S>(digest: string -> string, b: Backend<S>, calls: seq<ScanCall<S>>)
    : (Memory, seq<seq<CheckResult>>)
  {
    if calls == [] then (EMPTY_MEMORY, [])
    else
      var (m, done) := RunScans(digest, b, calls[..|calls| - 1]);
      var c := calls[|calls| - 1];
      var scanned := Scan(digest, m, b, c.start, c.policy, c.checks);
      (scanned.memory, done + [scanned.results])
  }

  lemma RunScansOneMore<S>(digest: string -> string, b: Backend<S>, earlier: seq<ScanCall<S>>, c: ScanCall<S>)
    ensures var (m, done) := RunScans(digest, b, earlier);
            var scanned := Scan(digest, m, b, c.start, c.policy, c.checks);
            RunScans(digest, b, earlier + [c]) == (scanned.memory, done + [scanned.results])
  {
    assert (earlier + [c])[..|earlier|] == earlier;
  }

  /** What stays fixed of a policy while it is scanned: its namespaces, and one description per
      check ID. */
  datatype Page = Page(namespaces: seq<string>, descriptions: map<string, string>)

  predicate OnPage<S>(book: map<string, Page>, c: ScanCall<S>) {
    && Key(c.policy) in book
    && c.policy.targetNamespaces == book[Key(c.policy)].namespaces
    && (forall k <- c.checks :: k.id in book[Key(c.policy)].descriptions
                                && book[Key(c.policy)].descriptions[k.id] == k.description)
  }

  ghost predicate DistinctHashes<S>(digest: string -> string, b: Backend<S>, calls: seq<ScanCall<S>>) {
    forall i, j | 0 <= i < |calls| && 0 <= j < |calls| ::
      var s, t := Snapshot(b, calls[i].start), Snapshot(b, calls[j].start);
      digest(s) == digest(t) ==> s == t
  }

  /** The memory of one policy holds verdicts given under a snapshot that was seen and whose hash
      stands beside them. */
  ghost predicate Truthful<S>(digest: string -> string, b: Backend<S>, v: Oracle, book: map<string, Page>,
                              calls: seq<ScanCall<S>>, m: Memory, key: string)
  {
    key in m.verdicts ==>
      && key in m.hashes && key in book
      && (forall id <- m.verdicts[key] :: id in book[key].descriptions)
      && exists i :: 0 <= i < |calls| && digest(Snapshot(b, calls[i].start)) == m.hashes[key]
                     && AllGiven(v, book[key], Snapshot(b, calls[i].start), m.verdicts[key])
  }

  ghost predicate AllGiven(v: Oracle, page: Page, snapshot: string, known: map<string, Verdict>) {
    forall id <- known :: id in page.descriptions && known[id] == v(page.namespaces, snapshot, id, page.descriptions[id])
  }

  lemma {:induction false} VerdictMapIsGiven(v: Oracle, page: Page, snapshot: string, checks: seq<CheckItem>, rs: seq<CheckResult>)
    requires ReportsOnAll(rs, checks) && Judged(rs, v, page.namespaces, snapshot, checks)
    requires forall k <- checks :: k.id in page.descriptions && page.descriptions[k.id] == k.description
    ensures AllGiven(v, page, snapshot, VerdictMap(rs))
  {
    if rs != [] {
      VerdictMapIsGiven(v, page, snapshot, checks[..|rs| - 1], rs[..|rs| - 1]);
      assert ReportsOn(rs[|rs| - 1], checks[|rs| - 1]);
    }
  }

  lemma TruthfulGrows<S>(digest: string -> string, b: Backend<S>, v: Oracle, book: map<string, Page>,
                         calls: seq<ScanCall<S>>, c: ScanCall<S>, m: Memory, key: string)
    requires Truthful(digest, b, v, book, calls, m, key)
    ensures Truthful(digest, b, v, book, calls + [c], m, key)
  {
    if key in m.verdicts {
      var i :| 0 <= i < |calls| && digest(Snapshot(b, calls[i].start)) == m.hashes[key]
               && AllGiven(v, book[key], Snapshot(b, calls[i].start), m.verdicts[key]);
      assert (calls + [c])[i] == calls[i];
    }
  }

  lemma ReuseIsJudged<S(!new)>(digest: string -> string, b: Backend<S>, v: Oracle, book: map<string, Page>,
                               calls: seq<ScanCall<S>>, c: ScanCall<S>, m: Memory)
    requires DistinctHashes(digest, b, calls) && c in calls && OnPage(book, c)
    requires Truthful(digest, b, v, book, calls, m, Key(c.policy))
    requires Reusable(m, Key(c.policy), digest(Snapshot(b, c.start)), c.checks)
    ensures Judged(Reuse(m.verdicts[Key(c.policy)], c.checks), v, c.policy.targetNamespaces, Snapshot(b, c.start), c.checks)
  {
    var key := Key(c.policy);
    var i :| 0 <= i < |calls| && digest(Snapshot(b, calls[i].start)) == m.hashes[key]
             && AllGiven(v, book[key], Snapshot(b, calls[i].start), m.verdicts[key]);
    var j :| 0 <= j < |calls| && calls[j] == c;
    assert Snapshot(b, calls[i].start) == Snapshot(b, calls[j].start);
  }

  /** One more scan: it gives the verdicts a scan without memory would, and its memory is truthful. */
  lemma ScanIsTransparent<S(!new)>(digest: string -> string, b: Backend<S>, v: Oracle, book: map<string, Page>,
                                   earlier: seq<ScanCall<S>>, c: ScanCall<S>, m: Memory)
    requires AnswersOne(b, v) && AnswersMany(b, v) && DistinctHashes(digest, b, earlier + [c]) && OnPage(book, c)
    requires forall key :: Truthful(digest, b, v, book, earlier, m, key)
    ensures var scanned := Scan(digest, m, b, c.start, c.policy, c.checks);
            && Judged(scanned.results, v, c.policy.targetNamespaces, Snapshot(b, c.start), c.checks)
            && (forall key :: Truthful(digest, b, v, book, earlier + [c], scanned.memory, key))
  {
    var calls, key := earlier + [c], Key(c.policy);
    forall k ensures Truthful(digest, b, v, book, calls, m, k) {
      TruthfulGrows(digest, b, v, book, earlier, c, m, k);
    }
    assert calls[|earlier|] == c;
    var (t, snapshot) := Collect(b, c.start, SNAPSHOT_TOOLS);
    var scanned := Scan(digest, m, b, c.start, c.policy, c.checks);
    if scanned.reused {
      ReuseIsJudged(digest, b, v, book, calls, c, m);
    } else {
      OracleVerdicts(b, v, t, c.checks, c.policy.targetNamespaces, snapshot);
      OneResultPerCheck(b, t, c.checks, c.policy.targetNamespaces, snapshot);
      VerdictMapIsGiven(v, book[key], snapshot, c.checks, scanned.results);
      assert Truthful(digest, b, v, book, calls, scanned.memory, key);
      forall k ensures Truthful(digest, b, v, book, calls, scanned.memory, k) {
        assert Truthful(digest, b, v, book, calls, m, k);
      }
    }
  }

  /** Over any run of scans on any parts of any policies, every scan gives exactly the verdicts it
      would have given without the skip. */
  lemma {:induction false} SkipIsTransparent<S(!new)>(digest: string -> string, b: Backend<S>, v: Oracle,
                                                      book: map<string, Page>, calls: seq<ScanCall<S>>)
    requires AnswersOne(b, v) && AnswersMany(b, v) && DistinctHashes(digest, b, calls)
    requires forall c <- calls :: OnPage(book, c)
    ensures var (m, done) := RunScans(digest, b, calls);
            && |done| == |calls|
            && (forall key :: Truthful(digest, b, v, book, calls, m, key))
            && (forall i | 0 <= i < |calls| ::
                  Judged(done[i], v, calls[i].policy.targetNamespaces, Snapshot(b, calls[i].start), calls[i].checks))
  {
    if calls != [] {
      var earlier := calls[..|calls| - 1];
      SkipIsTransparent(digest, b, v, book, earlier);
      var c := calls[|earlier|];
      var (m, done) := RunScans(digest, b, earlier);
      assert calls == earlier + [c];
      ScanIsTransparent(digest, b, v, book, earlier, c, m);
      assert RunScans(digest, b, calls).1 == done + [Scan(digest, m, b, c.start, c.policy, c.checks).results];
    }
  }

  /** Where an ID stands last among the results. */
  function LastOf(rs: seq<CheckResult>, id: string): (k: nat)
    requires exists r :: r in rs && r.id == id
    ensures k < |rs| && rs[k].id == id
    ensures forall j | k < j < |rs| :: rs[j].id != id
  {
    if rs[|rs| - 1].id == id then |rs| - 1 else LastOf(rs[..|rs| - 1], id)
  }

  lemma {:induction false} VerdictMapHolds(rs: seq<CheckResult>, id: string)
    requires exists r :: r in rs && r.id == id
    ensures id in VerdictMap(rs) && VerdictMap(rs)[id] == rs[LastOf(rs, id)].verdict
  {
    if rs[|rs| - 1].id != id {
      VerdictMapHolds(rs[..|rs| - 1], id);
    }
  }

  /** The memory of a policy has this hash, and for this check the last verdict among rs. */
  ghost predicate RemembersLast(m: Memory, key: string, hash: string, rs: seq<CheckResult>, id: string) {
    && key in m.hashes && m.hashes[key] == hash
    && (exists r :: r in rs && r.id == id)
    && key in m.verdicts && id in m.verdicts[key] && m.verdicts[key][id] == rs[LastOf(rs, id)].verdict
  }

  lemma ScanIsRemembered<S>(digest: string -> string, m: Memory, b: Backend<S>, s: S, p: Policy,
                            checks: seq<CheckItem>, i: nat)
    requires i < |checks|
    ensures var first := Scan(digest, m, b, s, p, checks);
            RemembersLast(first.memory, Key(p), digest(Snapshot(b, s)), first.results, checks[i].id)
  {
    var first := Scan(digest, m, b, s, p, checks);
    ScanReportsOnAll(digest, m, b, s, p, checks);
    assert ReportsOn(first.results[i], checks[i]) && first.results[i] in first.results;
    if first.reused {
      var k := LastOf(first.results, checks[i].id);
      assert ReportsOn(first.results[k], checks[k]);
    } else {
      VerdictMapHolds(first.results, checks[i].id);
    }
  }

  lemma RememberedIsReused<S>(digest: string -> string, m: Memory, b: Backend<S>, t: S, p: Policy,
                              checks: seq<CheckItem>, rs: seq<CheckResult>)
    requires forall c <- checks :: RemembersLast(m, Key(p), digest(Snapshot(b, t)), rs, c.id)
    ensures var second := Scan(digest, m, b, t, p, checks);
            && (second.reused <==> checks != []) && second.state == Collect(b, t, SNAPSHOT_TOOLS).0
            && |second.results| == |checks|
            && forall i | 0 <= i < |checks| ::
                 && RemembersLast(m, Key(p), digest(Snapshot(b, t)), rs, checks[i].id)
                 && second.results[i] == ResultFor(checks[i], rs[LastOf(rs, checks[i].id)].verdict,
                                                   "Snapshot unchanged \U{2014} previous verdict reused.", [])
  {
    if checks != [] {
      assert checks[0] in checks;
      assert Reusable(m, Key(p), digest(Snapshot(b, t)), checks);
    }
  }

  /** Whatever the adapter did, failing verdicts that stand for its errors included: a second scan
      of the same checks under a snapshot of the same hash repeats the verdicts of the first
      without calling it; of a check named more than once it repeats the last. */
  lemma UnchangedSnapshotRepeats<S>(digest: string -> string, m: Memory, b: Backend<S>, s: S, t: S,
                                    p: Policy, checks: seq<CheckItem>)
    requires digest(Snapshot(b, s)) == digest(Snapshot(b, t))
    ensures var first := Scan(digest, m, b, s, p, checks);
            var second := Scan(digest, first.memory, b, t, p, checks);
            && (second.reused <==> checks != []) && second.state == Collect(b, t, SNAPSHOT_TOOLS).0
            && |first.results| == |second.results| == |checks|
            && forall i | 0 <= i < |checks| ::
                 && (exists r :: r in first.results && r.id == checks[i].id)
                 && second.results[i].verdict == first.results[LastOf(first.results, checks[i].id)].verdict
                 && second.results[i].reasoning == "Snapshot unchanged \U{2014} previous verdict reused."
                 && second.results[i].evidence == []
  {
    var first := Scan(digest, m, b, s, p, checks);
    ScanReportsOnAll(digest, m, b, s, p, checks);
    forall c <- checks
      ensures RemembersLast(first.memory, Key(p), digest(Snapshot(b, t)), first.results, c.id)
    {
      var i :| 0 <= i < |checks| && checks[i] == c;
      ScanIsRemembered(digest, m, b, s, p, checks, i);
    }
    RememberedIsReused(digest, first.memory, b, t, p, checks, first.results);
  }

  lemma {:induction false} VerdictMapKeys(rs: seq<CheckResult>)
    ensures forall id :: id in VerdictMap(rs) <==> exists r :: r in rs && r.id == id
  {
    if rs != [] {
      var front, last := rs[..|rs| - 1], rs[|rs| - 1];
      VerdictMapKeys(front);
      assert forall r :: r in rs <==> r in front || r == last;
    }
  }

  ghost predicate Names(checks: seq<CheckItem>, id: string) {
    exists c :: c in checks && c.id == id
  }

  /** After a scan that was not skipped, the policy's next scan, of whatever checks, is skipped exactly
      if there are any, each of their IDs was in that scan, and the hash of the snapshot is the same. */
  lemma SkippedExactlyWhenCovered<S>(digest: string -> string, m: Memory, b: Backend<S>, s: S, t: S, p: Policy,
                                     checks: seq<CheckItem>, next: seq<CheckItem>)
    requires !Scan(digest, m, b, s, p, checks).reused
    ensures var first := Scan(digest, m, b, s, p, checks);
            Scan(digest, first.memory, b, t, p, next).reused <==>
              next != [] && digest(Snapshot(b, s)) == digest(Snapshot(b, t)) && forall c <- next :: Names(checks, c.id)
  {
    var first := Scan(digest, m, b, s, p, checks);
    var known := VerdictMap(first.results);
    assert first.memory.verdicts[Key(p)] == known && first.memory.hashes[Key(p)] == digest(Snapshot(b, s));
    assert ReportsOnAll(first.results, checks) by {
      ScanReportsOnAll(digest, m, b, s, p, checks);
    }
    forall id ensures id in known <==> Names(checks, id) {
      KnownAreNamed(first.results, checks, id);
    }
  }

  lemma KnownAreNamed(rs: seq<CheckResult>, checks: seq<CheckItem>, id: string)
    requires ReportsOnAll(rs, checks)
    ensures id in VerdictMap(rs) <==> Names(checks, id)
  {
    VerdictMapKeys(rs);
    if id in VerdictMap(rs) {
      var r :| r in rs && r.id == id;
      var i :| 0 <= i < |rs| && rs[i] == r;
      assert ReportsOn(rs[i], checks[i]) && checks[i] in checks;
    }
    if Names(checks, id) {
      var c :| c in checks && c.id == id;
      var i :| 0 <= i < |checks| && checks[i] == c;
      assert ReportsOn(rs[i], checks[i]) && rs[i] in rs;
    }
  }

  /* ---- Summary ---- */

  datatype Summary = Summary(total: Int32, passed: Int32, warned: Int32, failed: Int32)

  function Count(rs: seq<CheckResult>, v: Verdict): nat {
    if rs == [] then 0 else Count(rs[..|rs| - 1], v) + (if rs[|rs| - 1].verdict == v then 1 else 0)
  }

  function Summarize(rs: seq<CheckResult>): Summary {
    Summary(Wrap32(|rs|), Wrap32(Count(rs, PASS)), Wrap32(Count(rs, WARN)), Wrap32(Count(rs, FAIL)))
  }

  lemma {:induction false} CountsAddUp(rs: seq<CheckResult>)
    ensures Count(rs, PASS) + Count(rs, WARN) + Count(rs, FAIL) <= |rs|
    ensures Count(rs, PASS) + Count(rs, WARN) + Count(rs, FAIL) == |rs| <==> forall r <- rs :: !r.verdict.Other?
    ensures Count(rs, FAIL) > 0 <==> exists r :: r in rs && r.verdict == FAIL
  {
    if rs != [] {
      var front, last := rs[..|rs| - 1], rs[|rs| - 1];
      CountsAddUp(front);
      assert forall r :: r in rs <==> r in front || r == last;
    }
  }

  lemma {:induction false} CountIs(rs: seq<CheckResult>, v: Verdict)
    ensures Count(rs, v) == multiset(Verdicts(rs))[v]
  {
    if rs != [] {
      var front, last := rs[..|rs| - 1], rs[|rs| - 1];
      CountIs(front, v);
      assert Verdicts(rs) == Verdicts(front) + [last.verdict];
    }
  }

  /** Below 2^31 results each of the three verdicts is counted as often as it was given; the counts
      add up exactly when no other was. */
  lemma SummaryIsFaithful(rs: seq<CheckResult>)
    requires |rs| < 0x8000_0000
    ensures var s := Summarize(rs);
            && s.total == |rs| && s.passed == multiset(Verdicts(rs))[PASS]
            && s.warned == multiset(Verdicts(rs))[WARN] && s.failed == multiset(Verdicts(rs))[FAIL]
            && (s.passed + s.warned + s.failed == s.total <==> forall r <- rs :: !r.verdict.Other?)
            && (s.failed > 0 <==> exists r :: r in rs && r.verdict == FAIL)
  {
    CountsAddUp(rs);
    CountIs(rs, PASS);
    CountIs(rs, WARN);
    CountIs(rs, FAIL);
  }

  function AddVerdict(s: Summary, v: Verdict): Summary {
    match v
    case PASS => s.(passed := Wrap32(s.passed + 1))
    case WARN => s.(warned := Wrap32(s.warned + 1))
    case FAIL => s.(failed := Wrap32(s.failed + 1))
    case Other(_) => s
  }

  lemma SummaryGrows(rs: seq<CheckResult>, r: CheckResult)
    ensures Summarize(rs + [r]) == AddVerdict(Summarize(rs), r.verdict).(total := Wrap32(|rs| + 1))
  {
    assert (rs + [r])[..|rs|] == rs;
    WrapStep(Count(rs, PASS));
    WrapStep(Count(rs, WARN));
    WrapStep(Count(rs, FAIL));
  }

  method ComputeSummary(rs: seq<CheckResult>) returns (s: Summary)
    ensures s == Summarize(rs)
  {
    s := Summary(Wrap32(|rs|), 0, 0, 0);
    for i := 0 to |rs|
      invariant s == Summarize(rs[..i]).(total := Wrap32(|rs|))
    {
      assert rs[..i + 1] == rs[..i] + [rs[i]];
      SummaryGrows(rs[..i], rs[i]);
      s := AddVerdict(s, rs[i].verdict);
    }
    assert rs[..|rs|] == rs;
  }

  /* ---- The engine ---- */

  class Engine {
    const digest: string -> string
    var snapshotHashes: map<string, string>
    var lastResults: map<string, map<string, Verdict>>

    function Remembered(): Memory
      reads this
    {
      Memory(snapshotHashes, lastResults)
    }

    constructor (digest: string -> string)
      ensures this.digest == digest && Remembered() == EMPTY_MEMORY
    {
      this.digest := digest;
      snapshotHashes, lastResults := map[], map[];
    }

    method CollectSnapshot<S>(b: Backend<S>, start: S) returns (s: S, snapshot: string)
      ensures (s, snapshot) == Collect(b, start, SNAPSHOT_TOOLS)
    {
      s, snapshot := start, "";
      for i := 0 to |SNAPSHOT_TOOLS|
        invariant (s, snapshot) == Collect(b, start, SNAPSHOT_TOOLS[..i])
      {
        assert SNAPSHOT_TOOLS[..i + 1][..i] == SNAPSHOT_TOOLS[..i];
        var (t, r) := b.call(s, SNAPSHOT_TOOLS[i], "{}");
        s := t;
        if r.Ok? {
          snapshot := snapshot + "### " + SNAPSHOT_TOOLS[i] + "\n" + r.value + "\n\n";
        }
      }
      assert SNAPSHOT_TOOLS[..|SNAPSHOT_TOOLS|] == SNAPSHOT_TOOLS;
    }

    method ReuseVerdicts(known: map<string, Verdict>, checks: seq<CheckItem>) returns (rs: seq<CheckResult>)
      requires forall c <- checks :: c.id in known
      ensures rs == Reuse(known, checks)
    {
      rs := [];
      for i := 0 to |checks|
        invariant rs == Reuse(known, checks[..i])
      {
        assert checks[..i + 1][..i] == checks[..i];
        rs := rs + [ResultFor(checks[i], known[checks[i].id], REUSED, [])];
      }
      assert checks[..|checks|] == checks;
    }

    method FileBatch(batch: seq<CheckItem>, answer: Result<seq<VerifyResponse>>) returns (rs: seq<CheckResult>)
      ensures rs == Filed(batch, answer)
    {
      rs := [];
      for j := 0 to |batch|
        invariant rs == Filed(batch, answer)[..j]
      {
        rs := rs + [FromBatch(batch[j], j, answer)];
      }
      assert rs == Filed(batch, answer);
    }

    method ExecuteBatch<S>(b: Backend<S>, start: S, batch: seq<CheckItem>, ns: seq<string>, snapshot: string)
      returns (s: S, rs: seq<CheckResult>)
      ensures s == RunBatch(b, start, batch, ns, snapshot).0 && rs == RunBatch(b, start, batch, ns, snapshot).1
    {
      if |batch| == 1 {
        var check := batch[0];
        var (t, answer) := b.verify(start, VerifyRequest(check.id, check.description, ns, snapshot));
        s := t;
        if answer.Err? {
          rs := [ResultFor(check, FAIL, "LLM API error: " + answer.error, [])];
        } else {
          rs := [ResultFor(check, answer.value.verdict, answer.value.reasoning, answer.value.toolCalls)];
        }
      } else {
        var (t, answer) := b.batch(start, BatchRequest(Requests(batch), ns, snapshot));
        s := t;
        rs := FileBatch(batch, answer);
      }
    }

    method RunInBatches<S>(b: Backend<S>, start: S, checks: seq<CheckItem>, ns: seq<string>, snapshot: string)
      returns (s: S, results: seq<CheckResult>)
      ensures s == RunBatches(b, start, checks, ns, snapshot).0
      ensures results == RunBatches(b, start, checks, ns, snapshot).1
    {
      s, results := start, [];
      var i := 0;
      ghost var whole := RunBatches(b, start, checks, ns, snapshot);
      assert checks[0..] == checks;
      while i < |checks|
        invariant 0 <= i <= |checks|
        invariant whole.0 == RunBatches(b, s, checks[i..], ns, snapshot).0
        invariant whole.1 == results + RunBatches(b, s, checks[i..], ns, snapshot).1
      {
        var end := Min(i + BATCH_SIZE, |checks|);
        NextBatch(b, s, checks, i, ns, snapshot);
        var filed;
        s, filed := ExecuteBatch(b, s, checks[i..end], ns, snapshot);
        ghost var more := RunBatches(b, s, checks[end..], ns, snapshot).1;
        assert results + (filed + more) == results + filed + more;
        results := results + filed;
        i := end;
      }
    }

    method AllKnown(known: map<string, Verdict>, checks: seq<CheckItem>) returns (allCached: bool)
      ensures allCached <==> forall c <- checks :: c.id in known
    {
      allCached := true;
      for i := 0 to |checks|
        invariant allCached && forall c <- checks[..i] :: c.id in known
      {
        if checks[i].id !in known {
          return false;
        }
      }
    }

    method Remember(results: seq<CheckResult>) returns (verdictMap: map<string, Verdict>)
      ensures verdictMap == VerdictMap(results)
    {
      verdictMap := map[];
      for i := 0 to |results|
        invariant verdictMap == VerdictMap(results[..i])
      {
        assert results[..i + 1][..i] == results[..i];
        verdictMap := verdictMap[results[i].id := results[i].verdict];
      }
      assert results[..|results|] == results;
    }

    method RunChecks<S>(b: Backend<S>, start: S, policy: Policy, checks: seq<CheckItem>)
      returns (s: S, results: seq<CheckResult>, summary: Summary)
      modifies this
      ensures var done := Scan(digest, old(Remembered()), b, start, policy, checks);
              Remembered() == done.memory && s == done.state && results == done.results
      ensures summary == Summarize(results)
    {
      var snapshot;
      s, snapshot := CollectSnapshot(b, start);
      var key, currentHash := Key(policy), digest(snapshot);
      if key in snapshotHashes && snapshotHashes[key] == currentHash && key in lastResults && |checks| > 0 {
        var known := lastResults[key];
        var allCached := AllKnown(known, checks);
        if allCached {
          results := ReuseVerdicts(known, checks);
          summary := ComputeSummary(results);
          return;
        }
      }
      s, results := RunInBatches(b, s, checks, policy.targetNamespaces, snapshot);
      summary := ComputeSummary(results);
      var verdictMap := Remember(results);
      snapshotHashes := snapshotHashes[key := currentHash];
      lastResults := lastResults[key := verdictMap];
    }
  }
}
