/** Requests to and answers from a language-model adapter (operator/internal/engine/llm/adapter.go). */
module LlmTypes {
  /** The three verdicts, and whatever other text an adapter might put in their place. */
  datatype Verdict = PASS | WARN | FAIL | Other(text: string)

  datatype VerifyRequest = VerifyRequest(checkID: string, description: string,
                                         namespaces: seq<string>, snapshot: string)

  datatype BatchRequest = BatchRequest(checks: seq<VerifyRequest>, namespaces: seq<string>, snapshot: string)

  datatype ToolCallRecord = ToolCallRecord(toolName: string, input: string, output: string)

  datatype VerifyResponse = VerifyResponse(verdict: Verdict, reasoning: string, toolCalls: seq<ToolCallRecord>)
}
