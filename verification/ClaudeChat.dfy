/** The bounded tool-use conversation of Verify, BatchVerify and processToolUse in
    operator/internal/engine/llm/claude.go. The remote model may answer anything at all. */
module ClaudeChat {
  import opened GoTypes
  import opened LlmTypes
  import opened ToolCache

  const MAX_ITERATIONS: nat := 10

  /** A content block of a reply. Blocks that cannot be read are skipped wherever they stand. */
  datatype Block = Text(text: string) | ToolUse(id: string, name: string, input: string) | Unreadable

  datatype Reply = Reply(content: seq<Block>, stopReason: string)

  datatype Item = TextItem(text: string)
                | ToolUseItem(id: string, name: string, input: string)
                | ToolResultItem(toolUseID: string, content: string)

  datatype Role = User | Assistant

  datatype Message = Message(role: Role, content: seq<Item>)

  /** The remote model: any answer, or none, to the n-th request ever sent and its messages. */
  type Model = (nat, seq<Message>) -> Result<Reply>

  /** What a conversation changes: the scan's tool cache and the requests sent so far. */
  datatype Session = Session(desk: Desk, requests: seq<seq<Message>>)

  datatype Ending = Finished(reply: Reply, records: seq<ToolCallRecord>) | ApiFailed(error: string) | OutOfTurns

  /* ---- One round of tool use ---- */

  datatype Round = Round(desk: Desk, said: seq<Item>, results: seq<Item>, records: seq<ToolCallRecord>)

  function ResultText(outcome: Result<string>): string {
    match outcome
    case Ok(output) => output
    case Err(e) => "Error: " + e
  }

  function UseTools(box: ToolBox, d: Desk, content: seq<Block>): Round {
    if content == [] then Round(d, [], [], [])
    else
      var r := UseTools(box, d, content[..|content| - 1]);
      match content[|content| - 1]
      case Text(text) => r.(said := r.said + [TextItem(text)])
      case Unreadable => r
      case ToolUse(id, name, input) =>
        var output := ResultText(Answer(box, r.desk, ToolCall(name, input)).outcome);
        Round(Serve(box, r.desk, ToolCall(name, input)),
              r.said + [ToolUseItem(id, name, input)],
              r.results + [ToolResultItem(id, output)],
              r.records + [ToolCallRecord(name, input, output)])
  }

  /* ---- The whole conversation ---- */

  function Converse(box: ToolBox, model: Model, s: Session, messages: seq<Message>,
                    records: seq<ToolCallRecord>, turns: nat): (Session, Ending)
    decreases turns
  {
    if turns == 0 then (s, OutOfTurns)
    else
      var asked := s.(requests := s.requests + [messages]);
      match model(|s.requests|, messages)
      case Err(e) => (asked, ApiFailed(e))
      case Ok(reply) =>
        if reply.stopReason != "tool_use" then (asked, Finished(reply, records))
        else
          var r := UseTools(box, s.desk, reply.content);
          Converse(box, model, asked.(desk := r.desk),
                   messages + [Message(Assistant, r.said), Message(User, r.results)],
                   records + r.records, turns - 1)
  }

  function Opening(prompt: string): seq<Message> {
    [Message(User, [TextItem(prompt)])]
  }

  function Chat(box: ToolBox, model: Model, s: Session, prompt: string): (Session, Ending) {
    Converse(box, model, s, Opening(prompt), [], MAX_ITERATIONS)
  }

  /* ---- What the remote model is shown ---- */

  function UseIDs(items: seq<Item>): seq<string> {
    if items == [] then []
    else
      UseIDs(items[..|items| - 1])
        + (match items[|items| - 1] case ToolUseItem(id, _, _) => [id] case _ => [])
  }

  function ResultIDs(items: seq<Item>): seq<string> {
    if items == [] then []
    else
      ResultIDs(items[..|items| - 1])
        + (match items[|items| - 1] case ToolResultItem(id, _) => [id] case _ => [])
  }

  /** The calls of an assistant turn paired in order with the contents the next turn returns. */
  function Paired(said: seq<Item>, results: seq<Item>): seq<ToolCallRecord>
    decreases |said| + |results|
  {
    if said == [] || results == [] then []
    else
      match (said[|said| - 1], results[|results| - 1])
      case (ToolUseItem(_, name, input), ToolResultItem(_, content)) =>
        Paired(said[..|said| - 1], results[..|results| - 1]) + [ToolCallRecord(name, input, content)]
      case (ToolUseItem(_, _, _), _) => Paired(said, results[..|results| - 1])
      case _ => Paired(said[..|said| - 1], results)
  }

  /** All calls a conversation shows, with the contents returned for them. */
  function Shown(messages: seq<Message>): seq<ToolCallRecord> {
    if |messages| < 3 then []
    else
      var n := |messages|;
      Shown(messages[..n - 2]) + Paired(messages[n - 2].content, messages[n - 1].content)
  }

  /** Round j is an assistant turn and the user turn that answers all its tool uses, in order
      and under their IDs. */
  predicate AnsweredRound(messages: seq<Message>, j: nat) {
    && 2 * j + 2 < |messages|
    && messages[2 * j + 1].role == Assistant && messages[2 * j + 2].role == User
    && UseIDs(messages[2 * j + 1].content) == ResultIDs(messages[2 * j + 2].content)
  }

  /** A conversation of k rounds: the user opens it, and k answered rounds follow. */
  ghost predicate Proper(messages: seq<Message>, k: nat) {
    && |messages| == 1 + 2 * k
    && messages[0].role == User
    && (forall j: nat | j < k :: AnsweredRound(messages, j))
  }

  lemma UseIDsGrow(items: seq<Item>, item: Item)
    ensures UseIDs(items + [item]) == UseIDs(items) + (match item case ToolUseItem(id, _, _) => [id] case _ => [])
  {
    assert (items + [item])[..|items|] == items;
  }

  lemma ResultIDsGrow(items: seq<Item>, item: Item)
    ensures ResultIDs(items + [item])
         == ResultIDs(items) + (match item case ToolResultItem(id, _) => [id] case _ => [])
  {
    assert (items + [item])[..|items|] == items;
  }

  lemma PairedSkipsText(said: seq<Item>, results: seq<Item>, text: string)
    ensures Paired(said + [TextItem(text)], results) == Paired(said, results)
  {
    assert (said + [TextItem(text)])[..|said|] == said;
  }

  lemma PairedTakesCall(said: seq<Item>, results: seq<Item>, id: string, name: string, input: string, content: string)
    ensures Paired(said + [ToolUseItem(id, name, input)], results + [ToolResultItem(id, content)])
         == Paired(said, results) + [ToolCallRecord(name, input, content)]
  {
    assert (said + [ToolUseItem(id, name, input)])[..|said|] == said;
    assert (results + [ToolResultItem(id, content)])[..|results|] == results;
  }

  /** One round answers every tool use under its ID, and its records pair uses with contents. */
  lemma {:induction false} RoundIsAnswered(box: ToolBox, d: Desk, content: seq<Block>)
    ensures var r := UseTools(box, d, content);
            UseIDs(r.said) == ResultIDs(r.results) && Paired(r.said, r.results) == r.records
  {
    if content != [] {
      var front := content[..|content| - 1];
      RoundIsAnswered(box, d, front);
      var r := UseTools(box, d, front);
      match content[|content| - 1]
      case Text(text) =>
        UseIDsGrow(r.said, TextItem(text));
        PairedSkipsText(r.said, r.results, text);
      case Unreadable =>
      case ToolUse(id, name, input) =>
        var output := ResultText(Answer(box, r.desk, ToolCall(name, input)).outcome);
        UseIDsGrow(r.said, ToolUseItem(id, name, input));
        ResultIDsGrow(r.results, ToolResultItem(id, output));
        PairedTakesCall(r.said, r.results, id, name, input, output);
    }
  }

  lemma ProperGrows(messages: seq<Message>, k: nat, said: seq<Item>, results: seq<Item>)
    requires Proper(messages, k) && UseIDs(said) == ResultIDs(results)
    ensures var longer := messages + [Message(Assistant, said), Message(User, results)];
            Proper(longer, k + 1) && Shown(longer) == Shown(messages) + Paired(said, results)
  {
    var longer := messages + [Message(Assistant, said), Message(User, results)];
    assert longer[..|longer| - 2] == messages;
    forall j: nat | j < k + 1 ensures AnsweredRound(longer, j) {
      assert j < k ==> AnsweredRound(messages, j);
    }
  }

  /** From number n on, the requests show proper conversations of k, k + 1, ... rounds. */
  ghost predicate ProperFrom(requests: seq<seq<Message>>, n: nat, k: nat) {
    forall i | n <= i < |requests| :: Proper(requests[i], k + i - n)
  }

  lemma ProperFromHere(requests: seq<seq<Message>>, n: nat, k: nat)
    requires n < |requests| && Proper(requests[n], k) && ProperFrom(requests, n + 1, k + 1)
    ensures ProperFrom(requests, n, k)
  {
    forall i | n <= i < |requests| ensures Proper(requests[i], k + i - n) {
      assert i > n ==> Proper(requests[i], k + 1 + i - (n + 1));
    }
  }

  /** From any point of a conversation on: every request continues it properly, at most turns
      requests follow, and the records handed back are those the last request shows. */
  lemma {:induction false} ConverseShows(box: ToolBox, model: Model, s: Session, messages: seq<Message>,
                                         records: seq<ToolCallRecord>, turns: nat, k: nat)
    requires Proper(messages, k) && records == Shown(messages)
    ensures var (t, ending) := Converse(box, model, s, messages, records, turns);
            && s.requests <= t.requests && |t.requests| - |s.requests| <= turns
            && ProperFrom(t.requests, |s.requests|, k)
            && (ending.Finished? ==>
                  |t.requests| > |s.requests| && ending.records == Shown(t.requests[|t.requests| - 1]))
    decreases turns
  {
    if turns > 0 {
      var answer := model(|s.requests|, messages);
      if answer.Ok? && answer.value.stopReason == "tool_use" {
        var r := UseTools(box, s.desk, answer.value.content);
        RoundIsAnswered(box, s.desk, answer.value.content);
        ProperGrows(messages, k, r.said, r.results);
        var asked := Session(r.desk, s.requests + [messages]);
        ConverseShows(box, model, asked, messages + [Message(Assistant, r.said), Message(User, r.results)],
                      records + r.records, turns - 1, k + 1);
        var (t, _) := Converse(box, model, s, messages, records, turns);
        assert t.requests[|s.requests|] == asked.requests[|s.requests|] == messages;
        ProperFromHere(t.requests, |s.requests|, k);
      }
    }
  }

  lemma OpeningIsProper(prompt: string)
    ensures Proper(Opening(prompt), 0) && Shown(Opening(prompt)) == []
  {
  }

  /** Whatever the model replies, a chat sends at most ten requests; the i-th shows a proper
      conversation of i rounds; and the recorded tool calls are exactly the calls of the last
      request shown, each with the content it was answered with. */
  lemma ChatInvariant(box: ToolBox, model: Model, s: Session, prompt: string)
    ensures var (t, ending) := Chat(box, model, s, prompt);
            && s.requests <= t.requests && |t.requests| - |s.requests| <= MAX_ITERATIONS
            && ProperFrom(t.requests, |s.requests|, 0)
            && (ending.Finished? ==>
                  |t.requests| > |s.requests| && ending.records == Shown(t.requests[|t.requests| - 1]))
  {
    OpeningIsProper(prompt);
    ConverseShows(box, model, s, Opening(prompt), [], MAX_ITERATIONS, 0);
  }

  /* ---- Records against the tool cache ---- */

  function AsRecord(s: Served): ToolCallRecord {
    ToolCallRecord(s.call.name, s.call.params, ResultText(s.outcome))
  }

  function AsRecords(log: seq<Served>): (rs: seq<ToolCallRecord>)
    ensures |rs| == |log| && forall i | 0 <= i < |log| :: rs[i] == AsRecord(log[i])
  {
    seq(|log|, i requires 0 <= i < |log| => AsRecord(log[i]))
  }

  /** The desk e continues d: its log only grew, and it is as consistent as d was. */
  ghost predicate Continues(box: ToolBox, d: Desk, e: Desk) {
    d.log <= e.log && (Consistent(box, d) ==> Consistent(box, e))
  }

  lemma {:induction false} RoundRecordsTheLog(box: ToolBox, d: Desk, content: seq<Block>)
    ensures var r := UseTools(box, d, content);
            Continues(box, d, r.desk) && r.records == AsRecords(r.desk.log[|d.log|..])
  {
    if content != [] {
      var front := content[..|content| - 1];
      RoundRecordsTheLog(box, d, front);
      var r, last := UseTools(box, d, front), content[|content| - 1];
      if last.ToolUse? {
        var call := ToolCall(last.name, last.input);
        var e := Serve(box, r.desk, call);
        if Consistent(box, d) {
          ServeKeepsConsistent(box, r.desk, call);
        }
        assert e.log[|d.log|..] == r.desk.log[|d.log|..] + [Answer(box, r.desk, call)];
      }
    } else {
      assert d.log[|d.log|..] == [];
    }
  }

  lemma {:induction false} ConverseRecordsTheLog(box: ToolBox, model: Model, s: Session, messages: seq<Message>,
                                                 records: seq<ToolCallRecord>, turns: nat)
    ensures var (t, ending) := Converse(box, model, s, messages, records, turns);
            && Continues(box, s.desk, t.desk)
            && (ending.Finished? ==> ending.records == records + AsRecords(t.desk.log[|s.desk.log|..]))
    decreases turns
  {
    if turns > 0 {
      var answer := model(|s.requests|, messages);
      if answer.Ok? && answer.value.stopReason == "tool_use" {
        var r := UseTools(box, s.desk, answer.value.content);
        RoundRecordsTheLog(box, s.desk, answer.value.content);
        ConverseRecordsTheLog(box, model, Session(r.desk, s.requests + [messages]),
                              messages + [Message(Assistant, r.said), Message(User, r.results)],
                              records + r.records, turns - 1);
        var (t, _) := Converse(box, model, s, messages, records, turns);
        assert t.desk.log[|s.desk.log|..] == r.desk.log[|s.desk.log|..] + t.desk.log[|r.desk.log|..];
      }
    }
    assert s.desk.log[|s.desk.log|..] == [];
  }

  /* ---- What a chat does with each reply ---- */

  /** The blocks of a reply that can be read, and among them the tool uses. */
  function ReadableOf(content: seq<Block>): (blocks: seq<Block>)
    ensures forall b <- blocks :: !b.Unreadable?
  {
    if content == [] then []
    else ReadableOf(content[..|content| - 1]) + (if content[|content| - 1].Unreadable? then [] else [content[|content| - 1]])
  }

  function UsesOf(content: seq<Block>): (blocks: seq<Block>)
    ensures forall b <- blocks :: b.ToolUse?
  {
    if content == [] then []
    else UsesOf(content[..|content| - 1]) + (if content[|content| - 1].ToolUse? then [content[|content| - 1]] else [])
  }

  /** The assistant turn repeats the readable blocks, in order. */
  ghost predicate Restates(said: seq<Item>, content: seq<Block>) {
    var blocks := ReadableOf(content);
    |said| == |blocks| && forall j | 0 <= j < |said| ::
      said[j] == if blocks[j].ToolUse? then ToolUseItem(blocks[j].id, blocks[j].name, blocks[j].input)
                 else TextItem(if blocks[j].Text? then blocks[j].text else "")
  }

  /** These answered calls are the tool uses of a reply, in order. */
  ghost predicate AsksFor(content: seq<Block>, calls: seq<Served>) {
    var uses := UsesOf(content);
    |calls| == |uses| && forall j | 0 <= j < |uses| :: calls[j].call == ToolCall(uses[j].name, uses[j].input)
  }

  /** The user turn has one result per tool use: its tool's output, or its error as a text. */
  ghost predicate Returns(results: seq<Item>, content: seq<Block>, calls: seq<Served>) {
    var uses := UsesOf(content);
    |results| == |uses| == |calls| && forall j | 0 <= j < |uses| ::
      results[j] == ToolResultItem(uses[j].id, if calls[j].outcome.Ok? then calls[j].outcome.value
                                               else "Error: " + calls[j].outcome.error)
  }

  lemma {:induction false} RoundRestates(box: ToolBox, d: Desk, content: seq<Block>)
    ensures Restates(UseTools(box, d, content).said, content)
  {
    if content != [] {
      RoundRestates(box, d, content[..|content| - 1]);
    }
  }

  /** Desk e is d after just the calls that e's log adds, one after the other. */
  ghost predicate ServedFrom(box: ToolBox, d: Desk, e: Desk) {
    d.log <= e.log && e == ServeOn(box, d, CallsOf(e.log[|d.log|..]))
  }

  lemma ServedNone(box: ToolBox, d: Desk)
    ensures ServedFrom(box, d, d)
  {
    assert d.log[|d.log|..] == [];
  }

  lemma CallsInTwo(a: seq<Served>, b: seq<Served>)
    ensures CallsOf(a + b) == CallsOf(a) + CallsOf(b)
  {
  }

  lemma ServedOneMore(box: ToolBox, d: Desk, e: Desk, call: ToolCall)
    requires ServedFrom(box, d, e)
    ensures ServedFrom(box, d, Serve(box, e, call))
    ensures Serve(box, e, call).log[|d.log|..] == e.log[|d.log|..] + [Answer(box, e, call)]
  {
    var before, s := e.log[|d.log|..], Answer(box, e, call);
    var after := Serve(box, e, call).log[|d.log|..];
    assert after == before + [s];
    CallsInTwo(before, [s]);
    assert CallsOf([s]) == [call];
    ServeOnOneMore(box, d, CallsOf(before), call);
  }

  lemma ServedInTwo(box: ToolBox, d: Desk, e: Desk, f: Desk)
    requires ServedFrom(box, d, e) && ServedFrom(box, e, f)
    ensures ServedFrom(box, d, f)
  {
    var early, late := e.log[|d.log|..], f.log[|e.log|..];
    assert f.log[|d.log|..] == early + late;
    CallsInTwo(early, late);
    ServeOnInTwo(box, d, CallsOf(early), CallsOf(late));
  }

  lemma {:induction false} RoundServes(box: ToolBox, d: Desk, content: seq<Block>)
    ensures var e := UseTools(box, d, content).desk;
            ServedFrom(box, d, e) && AsksFor(content, e.log[|d.log|..])
  {
    if content == [] {
      ServedNone(box, d);
    } else {
      var front, last := content[..|content| - 1], content[|content| - 1];
      RoundServes(box, d, front);
      if last.ToolUse? {
        ServedOneMore(box, d, UseTools(box, d, front).desk, ToolCall(last.name, last.input));
      }
    }
  }

  lemma {:induction false} ConverseServes(box: ToolBox, model: Model, s: Session, messages: seq<Message>,
                                          records: seq<ToolCallRecord>, turns: nat)
    ensures ServedFrom(box, s.desk, Converse(box, model, s, messages, records, turns).0.desk)
    decreases turns
  {
    ServedNone(box, s.desk);
    if turns > 0 {
      var answer := model(|s.requests|, messages);
      if WantsTools(answer) {
        var r := UseTools(box, s.desk, answer.value.content);
        RoundServes(box, s.desk, answer.value.content);
        var asked := Session(r.desk, s.requests + [messages]);
        var longer := messages + [Message(Assistant, r.said), Message(User, r.results)];
        ConverseServes(box, model, asked, longer, records + r.records, turns - 1);
        ServedInTwo(box, s.desk, r.desk, Converse(box, model, asked, longer, records + r.records, turns - 1).0.desk);
      }
    }
  }

  lemma {:induction false} RoundReturns(box: ToolBox, d: Desk, content: seq<Block>)
    ensures var r := UseTools(box, d, content);
            d.log <= r.desk.log && Returns(r.results, content, r.desk.log[|d.log|..])
  {
    if content == [] {
      assert d.log[|d.log|..] == [];
    } else {
      var front, last := content[..|content| - 1], content[|content| - 1];
      RoundReturns(box, d, front);
      var e := UseTools(box, d, front).desk;
      if last.ToolUse? {
        var call := ToolCall(last.name, last.input);
        assert Serve(box, e, call).log[|d.log|..] == e.log[|d.log|..] + [Answer(box, e, call)];
      }
    }
  }

  predicate WantsTools(answer: Result<Reply>) {
    answer.Ok? && answer.value.stopReason == "tool_use"
  }

  /** Request i was answered with "tool_use": the calls it asks for are these of the log, and
      request i + 1 shows the same conversation with the reply and the results added. */
  ghost predicate ToolTurn(model: Model, requests: seq<seq<Message>>, i: nat, calls: seq<Served>) {
    && i + 1 < |requests| && WantsTools(model(i, requests[i]))
    && var content, n := model(i, requests[i]).value.content, |requests[i]|;
    && |requests[i + 1]| == n + 2 && requests[i + 1][..n] == requests[i]
    && requests[i + 1][n].role == Assistant && Restates(requests[i + 1][n].content, content)
    && AsksFor(content, calls)
    && requests[i + 1][n + 1].role == User && Returns(requests[i + 1][n + 1].content, content, calls)
  }

  /** The last request was answered with something else, or its tools were run in vain. */
  ghost predicate LastTurn(model: Model, requests: seq<seq<Message>>, calls: seq<Served>, ending: Ending) {
    && requests != []
    && var answer := model(|requests| - 1, requests[|requests| - 1]);
    match ending
    case Finished(reply, _) => answer == Ok(reply) && reply.stopReason != "tool_use" && calls == []
    case ApiFailed(e) => answer == Err(e) && calls == []
    case OutOfTurns => WantsTools(answer) && AsksFor(answer.value.content, calls)
  }

  /** From request number base on, turn by turn; turn k made the calls from marks[k] on. */
  ghost predicate Trace(model: Model, base: nat, requests: seq<seq<Message>>, log: seq<Served>, marks: seq<nat>,
                        ending: Ending, turns: nat) {
    && 1 <= |marks| <= turns && |requests| == base + |marks|
    && (forall k | 0 <= k < |marks| :: marks[k] <= |log|)
    && (forall k | 0 <= k < |marks| - 1 ::
          marks[k] <= marks[k + 1] && ToolTurn(model, requests, base + k, log[marks[k]..marks[k + 1]]))
    && LastTurn(model, requests, log[marks[|marks| - 1]..], ending)
    && (ending.OutOfTurns? ==> |marks| == turns)
  }

  lemma TraceFromHere(model: Model, base: nat, requests: seq<seq<Message>>, log: seq<Served>, from: nat,
                      marks: seq<nat>, ending: Ending, turns: nat)
    requires Trace(model, base + 1, requests, log, marks, ending, turns) && from <= marks[0]
    requires ToolTurn(model, requests, base, log[from..marks[0]])
    ensures Trace(model, base, requests, log, [from] + marks, ending, turns + 1)
  {
    var all := [from] + marks;
    assert all[|all| - 1] == marks[|marks| - 1];
    forall k | 0 <= k < |all| - 1
      ensures all[k] <= all[k + 1] && ToolTurn(model, requests, base + k, log[all[k]..all[k + 1]])
    {
      if k > 0 {
        assert ToolTurn(model, requests, base + 1 + (k - 1), log[marks[k - 1]..marks[k]]);
      }
    }
  }

  /** A conversation went from s to t, starting with these messages. */
  ghost predicate Traced(model: Model, s: Session, messages: seq<Message>, t: Session, marks: seq<nat>, ending: Ending,
                         turns: nat) {
    && s.requests <= t.requests && |t.requests| > |s.requests| && t.requests[|s.requests|] == messages
    && s.desk.log <= t.desk.log
    && Trace(model, |s.requests|, t.requests, t.desk.log, marks, ending, turns) && marks[0] == |s.desk.log|
  }

  /** The messages longer add to these a reply and the results of its tool uses. */
  ghost predicate AddsTurn(messages: seq<Message>, longer: seq<Message>, content: seq<Block>, calls: seq<Served>) {
    && |longer| == |messages| + 2 && longer[..|messages|] == messages
    && longer[|messages|].role == Assistant && Restates(longer[|messages|].content, content)
    && AsksFor(content, calls)
    && longer[|messages| + 1].role == User && Returns(longer[|messages| + 1].content, content, calls)
  }

  lemma OneMoreTurn(model: Model, s: Session, messages: seq<Message>, longer: seq<Message>, content: seq<Block>,
                    desk: Desk, t: Session, marks: seq<nat>, ending: Ending, turns: nat)
    requires WantsTools(model(|s.requests|, messages)) && content == model(|s.requests|, messages).value.content
    requires s.desk.log <= desk.log && AddsTurn(messages, longer, content, desk.log[|s.desk.log|..])
    requires Traced(model, Session(desk, s.requests + [messages]), longer, t, marks, ending, turns)
    ensures Traced(model, s, messages, t, [|s.desk.log|] + marks, ending, turns + 1)
  {
    var base, from, mid := |s.requests|, |s.desk.log|, |desk.log|;
    var asked := s.requests + [messages];
    assert t.requests[base] == asked[base] == messages && t.requests[base + 1] == longer;
    assert t.desk.log[from..mid] == desk.log[from..];
    assert ToolTurn(model, t.requests, base, desk.log[from..]);
    TraceFromHere(model, base, t.requests, t.desk.log, from, marks, ending, turns);
  }

  lemma LastReply(box: ToolBox, model: Model, s: Session, messages: seq<Message>, records: seq<ToolCallRecord>, turns: nat)
    requires turns > 0 && !WantsTools(model(|s.requests|, messages))
    ensures var (t, ending) := Converse(box, model, s, messages, records, turns);
            Traced(model, s, messages, t, [|s.desk.log|], ending, turns)
  {
    assert s.desk.log[|s.desk.log|..] == [];
  }

  lemma LastChance(box: ToolBox, model: Model, s: Session, messages: seq<Message>, records: seq<ToolCallRecord>)
    requires WantsTools(model(|s.requests|, messages))
    ensures var (t, ending) := Converse(box, model, s, messages, records, 1);
            Traced(model, s, messages, t, [|s.desk.log|], ending, 1)
  {
    var r := UseTools(box, s.desk, model(|s.requests|, messages).value.content);
    RoundServes(box, s.desk, model(|s.requests|, messages).value.content);
    assert Converse(box, model, s, messages, records, 1) == (Session(r.desk, s.requests + [messages]), OutOfTurns);
  }

  lemma RoundAddsTurn(box: ToolBox, d: Desk, messages: seq<Message>, content: seq<Block>)
    ensures var r := UseTools(box, d, content);
            && d.log <= r.desk.log
            && AddsTurn(messages, messages + [Message(Assistant, r.said), Message(User, r.results)], content,
                        r.desk.log[|d.log|..])
  {
    RoundRestates(box, d, content);
    RoundServes(box, d, content);
    RoundReturns(box, d, content);
    var r := UseTools(box, d, content);
    assert (messages + [Message(Assistant, r.said), Message(User, r.results)])[..|messages|] == messages;
  }

  /** A conversation after a round of tool use. */
  function AfterRound(box: ToolBox, s: Session, messages: seq<Message>, content: seq<Block>): (Session, seq<Message>, seq<ToolCallRecord>) {
    var r := UseTools(box, s.desk, content);
    (Session(r.desk, s.requests + [messages]), messages + [Message(Assistant, r.said), Message(User, r.results)], r.records)
  }

  lemma ConverseGoesOn(box: ToolBox, model: Model, s: Session, messages: seq<Message>, records: seq<ToolCallRecord>, turns: nat)
    requires turns > 0 && WantsTools(model(|s.requests|, messages))
    ensures var (asked, longer, more) := AfterRound(box, s, messages, model(|s.requests|, messages).value.content);
            Converse(box, model, s, messages, records, turns) == Converse(box, model, asked, longer, records + more, turns - 1)
  {
  }

  lemma {:induction false} ConverseTrace(box: ToolBox, model: Model, s: Session, messages: seq<Message>,
                                         records: seq<ToolCallRecord>, turns: nat) returns (marks: seq<nat>)
    requires turns > 0
    ensures Traced(model, s, messages, Converse(box, model, s, messages, records, turns).0, marks,
                   Converse(box, model, s, messages, records, turns).1, turns)
    decreases turns
  {
    marks := [|s.desk.log|];
    if !WantsTools(model(|s.requests|, messages)) {
      LastReply(box, model, s, messages, records, turns);
    } else if turns == 1 {
      LastChance(box, model, s, messages, records);
    } else {
      var content := model(|s.requests|, messages).value.content;
      var (asked, longer, more) := AfterRound(box, s, messages, content);
      RoundAddsTurn(box, s.desk, messages, content);
      ConverseGoesOn(box, model, s, messages, records, turns);
      var rest := ConverseTrace(box, model, asked, longer, records + more, turns - 1);
      var (t, ending) := Converse(box, model, s, messages, records, turns);
      OneMoreTurn(model, s, messages, longer, content, asked.desk, t, rest, ending, turns - 1);
      marks := marks + rest;
    }
  }

  /** What a chat does with the replies it gets. It opens with the prompt. Each reply that stops
      for "tool_use" has its tools called, in order, at the scan's cache, and is followed, unless it
      is the tenth, by a request that adds the reply and the results to the conversation. The first
      reply that stops for anything else is handed back; an error of the API is handed on; and ten
      replies that all ask for tools end the chat without an answer. */
  lemma ChatUsesTools(box: ToolBox, model: Model, s: Session, prompt: string) returns (marks: seq<nat>)
    ensures var (t, ending) := Chat(box, model, s, prompt);
            && Traced(model, s, [Message(User, [TextItem(prompt)])], t, marks, ending, 10)
            && ServedFrom(box, s.desk, t.desk)
            && (ending.OutOfTurns? <==> |marks| == 10 && WantsTools(model(|t.requests| - 1, t.requests[|t.requests| - 1])))
  {
    ConverseServes(box, model, s, Opening(prompt), [], MAX_ITERATIONS);
    marks := ConverseTrace(box, model, s, Opening(prompt), [], MAX_ITERATIONS);
  }
}
