/** The Claude adapter of operator/internal/engine/llm/claude.go as an object: the loops of its
    conversation and of its parsers, each tied to the function that specifies it. */
module ClaudeAdapter {
  import opened GoTypes
  import opened LlmTypes
  import opened ToolCache
  import opened ClaudeChat
  import opened Verdicts
  import Text

  function TextOf(content: seq<Block>): string {
    if content == [] then ""
    else
      TextOf(content[..|content| - 1])
        + OwnText(content[|content| - 1])
  }

  function OwnText(block: Block): string {
    match block case Text(text) => text case _ => ""
  }

  lemma TextOneMore(front: seq<Block>, last: Block)
    ensures TextOf(front + [last]) == TextOf(front) + OwnText(last)
  {
    assert (front + [last])[..|front|] == front;
  }

  lemma TextOfOne(block: Block)
    ensures TextOf([block]) == if block.Text? then block.text else ""
  {
    TextOneMore([], block);
    assert [] + [block] == [block];
  }

  lemma JoinedInTwo(front: seq<Block>, some: seq<Block>, last: Block)
    requires TextOf(front + some) == TextOf(front) + TextOf(some)
    ensures TextOf(front + (some + [last])) == TextOf(front) + TextOf(some + [last])
  {
    var more, whole, own := TextOf(some + [last]), TextOf(front + (some + [last])), OwnText(last);
    assert more == TextOf(some) + own by {
      TextOneMore(some, last);
    }
    assert whole == TextOf(front + some) + own by {
      TextOneMore(front + some, last);
      assert front + some + [last] == front + (some + [last]);
    }
    EndsAlike(TextOf(front), TextOf(some), own, more, whole);
  }

  lemma EndsAlike(x: string, y: string, own: string, more: string, whole: string)
    requires more == y + own && whole == x + y + own
    ensures whole == x + more
  {
  }

  /** The texts of a reply's blocks, one after the other; blocks of other kinds add nothing. */
  lemma {:induction false} TextsAreJoined(front: seq<Block>, back: seq<Block>, block: Block)
    ensures TextOf(front + back) == TextOf(front) + TextOf(back)
    ensures TextOf([block]) == if block.Text? then block.text else ""
    decreases |back|
  {
    TextOfOne(block);
    if back == [] {
      JoinedWithNone(front);
    } else {
      var some, last := back[..|back| - 1], back[|back| - 1];
      assert TextOf(front + some) == TextOf(front) + TextOf(some) by {
        TextsAreJoined(front, some, block);
      }
      assert some + [last] == back;
      JoinedInTwo(front, some, last);
    }
  }

  lemma JoinedWithNone(front: seq<Block>)
    ensures TextOf(front + []) == TextOf(front) + TextOf([])
  {
    assert front + [] == front;
  }

  /* ---- What the two entry points answer ---- */

  function VerifyAnswer(ending: Ending): Result<VerifyResponse> {
    match ending
    case Finished(reply, records) =>
      var text := TextOf(reply.content);
      Ok(VerifyResponse(SingleVerdict(text), text, records))
    case ApiFailed(e) => Err("claude API call: " + e)
    case OutOfTurns => Err("exceeded maximum tool call iterations")
  }

  function Responses(text: string, checks: seq<VerifyRequest>, records: seq<ToolCallRecord>): (rs: seq<VerifyResponse>)
    ensures |rs| == |checks|
    ensures forall i | 0 <= i < |rs| ::
              rs[i] == ResponseTo(text, checks[i].checkID, records)
  {
    seq(|checks|, i requires 0 <= i < |checks| => ResponseTo(text, checks[i].checkID, records))
  }

  function ResponseTo(text: string, checkID: string, records: seq<ToolCallRecord>): VerifyResponse {
    VerifyResponse(BatchVerdict(Text.ToUpper(text), checkID), text, records)
  }

  function BatchAnswer(ending: Ending, checks: seq<VerifyRequest>): Result<seq<VerifyResponse>> {
    match ending
    case Finished(reply, records) =>
      Ok(Responses(TextOf(reply.content), checks, records))
    case ApiFailed(e) => Err("claude batch API call: " + e)
    case OutOfTurns => Err("exceeded maximum tool call iterations in batch")
  }

  /** The verdict a whole reply gives one check. */
  predicate ReadsAs(v: Verdict, text: string) {
    var upper := Text.ToUpper(text);
    v == if Text.Index(upper, "VERDICT: PASS") != -1 then PASS
         else if Text.Index(upper, "VERDICT: WARN") != -1 then WARN
         else FAIL
  }

  /** A single check is answered by the last reply's text as its reasoning, the verdict that text
      gives, and all records of tool calls; or by the API's error; or by a complaint about too many
      turns. */
  lemma VerifyAnswers(ending: Ending)
    ensures match ending
            case Finished(reply, records) =>
              && VerifyAnswer(ending).Ok?
              && var r := VerifyAnswer(ending).value;
                 r.reasoning == TextOf(reply.content) && r.toolCalls == records && ReadsAs(r.verdict, r.reasoning)
            case ApiFailed(e) => VerifyAnswer(ending) == Err("claude API call: " + e)
            case OutOfTurns => VerifyAnswer(ending) == Err("exceeded maximum tool call iterations")
  {
  }

  /** A batch is answered for every check or not at all: each with its own verdict out of the one
      text, which is the reasoning of all, as are the records of tool calls. */
  lemma BatchAnswersEveryCheck(ending: Ending, checks: seq<VerifyRequest>)
    ensures match ending
            case Finished(reply, records) =>
              && BatchAnswer(ending, checks).Ok?
              && var rs, text := BatchAnswer(ending, checks).value, TextOf(reply.content);
                 && |rs| == |checks|
                 && (forall r <- rs :: !r.verdict.Other? && r.reasoning == text && r.toolCalls == records)
                 && (forall i | 0 <= i < |rs| :: rs[i].verdict == BatchVerdict(Text.ToUpper(text), checks[i].checkID))
            case ApiFailed(e) => BatchAnswer(ending, checks) == Err("claude batch API call: " + e)
            case OutOfTurns => BatchAnswer(ending, checks) == Err("exceeded maximum tool call iterations in batch")
  {
  }

  /* ---- The adapter ---- */

  class Adapter {
    const model: Model
    const prompt: VerifyRequest -> string
    const batchPrompt: BatchRequest -> string
    /** Every message list sent to the remote model so far. */
    var requests: seq<seq<Message>>

    constructor (model: Model, prompt: VerifyRequest -> string, batchPrompt: BatchRequest -> string)
      ensures this.model == model && this.prompt == prompt && this.batchPrompt == batchPrompt
      ensures requests == []
    {
      this.model, this.prompt, this.batchPrompt := model, prompt, batchPrompt;
      requests := [];
    }

    method CallAPI(messages: seq<Message>) returns (r: Result<Reply>)
      modifies this
      ensures requests == old(requests) + [messages]
      ensures r == model(|old(requests)|, messages)
    {
      r := model(|requests|, messages);
      requests := requests + [messages];
    }

    method ProcessToolUse(content: seq<Block>, tools: CachingRegistry)
      returns (said: seq<Item>, results: seq<Item>, records: seq<ToolCallRecord>)
      requires tools as object != tools.inner
      modifies tools, tools.cluster
      ensures UseTools(tools.Box(), old(tools.State()), content) == Round(tools.State(), said, results, records)
      ensures tools.Box() == old(tools.Box())
    {
      said, results, records := [], [], [];
      for i := 0 to |content|
        invariant tools.Box() == old(tools.Box())
        invariant UseTools(tools.Box(), old(tools.State()), content[..i]) == Round(tools.State(), said, results, records)
      {
        assert content[..i + 1][..i] == content[..i];
        match content[i]
        case Text(text) =>
          said := said + [TextItem(text)];
        case ToolUse(id, name, input) =>
          said := said + [ToolUseItem(id, name, input)];
          var outcome := tools.Call(name, input);
          var content := ResultText(outcome);
          results := results + [ToolResultItem(id, content)];
          records := records + [ToolCallRecord(name, input, content)];
        case Unreadable =>
      }
      assert content[..|content|] == content;
    }

    ghost function Now(tools: CachingRegistry): Session
      reads this, tools, tools.cluster
    {
      Session(tools.State(), requests)
    }

    method Ask(text: string, tools: CachingRegistry) returns (ending: Ending)
      requires tools as object != tools.inner
      modifies this, tools, tools.cluster
      ensures (Now(tools), ending) == Chat(tools.Box(), model, old(Now(tools)), text)
      ensures tools.Box() == old(tools.Box())
    {
      var messages, records := Opening(text), [];
      for turn := 0 to MAX_ITERATIONS
        invariant tools.Box() == old(tools.Box())
        invariant Chat(tools.Box(), model, old(Now(tools)), text)
               == Converse(tools.Box(), model, Now(tools), messages, records, MAX_ITERATIONS - turn)
      {
        var r := CallAPI(messages);
        match r
        case Err(e) =>
          return ApiFailed(e);
        case Ok(reply) =>
          if reply.stopReason != "tool_use" {
            return Finished(reply, records);
          }
          var said, results, more := ProcessToolUse(reply.content, tools);
          records := records + more;
          messages := messages + [Message(Assistant, said), Message(User, results)];
      }
      return OutOfTurns;
    }

    method JoinText(content: seq<Block>) returns (text: string)
      ensures text == TextOf(content)
    {
      text := "";
      for i := 0 to |content|
        invariant text == TextOf(content[..i])
      {
        assert content[..i + 1][..i] == content[..i];
        if content[i].Text? {
          text := text + content[i].text;
        }
      }
      assert content[..|content|] == content;
    }

    method ParseVerdict(reply: Reply, records: seq<ToolCallRecord>) returns (r: VerifyResponse)
      ensures Ok(r) == VerifyAnswer(Finished(reply, records))
    {
      var text := JoinText(reply.content);
      var upper := Text.ToUpper(text);
      var verdict := FAIL;
      if Text.Index(upper, "VERDICT: PASS") >= 0 {
        verdict := PASS;
      } else if Text.Index(upper, "VERDICT: WARN") >= 0 {
        verdict := WARN;
      }
      r := VerifyResponse(verdict, text, records);
    }

    method ParseBatchVerdicts(reply: Reply, checks: seq<VerifyRequest>, records: seq<ToolCallRecord>)
      returns (rs: seq<VerifyResponse>)
      ensures Ok(rs) == BatchAnswer(Finished(reply, records), checks)
    {
      var text := JoinText(reply.content);
      var upper := Text.ToUpper(text);
      ghost var all := Responses(text, checks, records);
      rs := [];
      for i := 0 to |checks|
        invariant rs == all[..i]
      {
        var r := Respond(upper, text, checks[i].checkID, records);
        assert r == all[i];
        rs := rs + [r];
      }
      assert all[..|checks|] == all;
    }

    method Respond(upper: string, text: string, checkID: string, records: seq<ToolCallRecord>) returns (r: VerifyResponse)
      requires upper == Text.ToUpper(text)
      ensures r == ResponseTo(text, checkID, records)
    {
      var verdict := ParseOne(upper, checkID);
      r := VerifyResponse(verdict, text, records);
    }

    method ParseOne(upper: string, checkID: string) returns (verdict: Verdict)
      ensures verdict == BatchVerdict(upper, checkID)
    {
      var marker := Text.ToUpper("CHECK " + checkID + ": VERDICT:");
      var at := Text.Index(upper, marker);
      if at >= 0 {
        assert Rest(upper, checkID) == upper[at + |marker|..];
        verdict := VerdictAfter(upper[at + |marker|..]);
      } else {
        verdict := ParseMention(upper, checkID);
      }
    }

    method ParseMention(upper: string, checkID: string) returns (verdict: Verdict)
      ensures verdict == MentionVerdict(upper, checkID)
    {
      verdict := FAIL;
      var named := Text.Index(upper, Text.ToUpper(checkID));
      if named >= 0 {
        var remaining := upper[named..];
        var v := Text.Index(remaining, "VERDICT:");
        if v >= 0 {
          verdict := VerdictAfter(remaining[v + 8..]);
        }
      }
    }

    method Verify(req: VerifyRequest, tools: CachingRegistry) returns (r: Result<VerifyResponse>)
      requires tools as object != tools.inner
      modifies this, tools, tools.cluster
      ensures var (t, ending) := Chat(tools.Box(), model, old(Now(tools)), prompt(req));
              Now(tools) == t && r == VerifyAnswer(ending)
      ensures tools.Box() == old(tools.Box())
    {
      var ending := Ask(prompt(req), tools);
      match ending
      case Finished(reply, records) =>
        var response := ParseVerdict(reply, records);
        r := Ok(response);
      case ApiFailed(e) =>
        r := Err("claude API call: " + e);
      case OutOfTurns =>
        r := Err("exceeded maximum tool call iterations");
    }

    method BatchVerify(req: BatchRequest, tools: CachingRegistry) returns (r: Result<seq<VerifyResponse>>)
      requires tools as object != tools.inner
      modifies this, tools, tools.cluster
      ensures var (t, ending) := Chat(tools.Box(), model, old(Now(tools)), batchPrompt(req));
              Now(tools) == t && r == BatchAnswer(ending, req.checks)
      ensures tools.Box() == old(tools.Box())
    {
      var ending := Ask(batchPrompt(req), tools);
      match ending
      case Finished(reply, records) =>
        var responses := ParseBatchVerdicts(reply, req.checks, records);
        r := Ok(responses);
      case ApiFailed(e) =>
        r := Err("claude batch API call: " + e);
      case OutOfTurns =>
        r := Err("exceeded maximum tool call iterations in batch");
    }
  }
}
