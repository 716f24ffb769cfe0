/** Values exchanged by the Ollama-to-Anthropic layer: response chunks on one
    side, content blocks and streaming events on the other. */
module AnthropicTypes {

  /** Tool arguments. Encoding them as JSON can fail; when it succeeds the
      JSON text determines them. */
  datatype Arguments = Encodable(json: string) | Unencodable(description: string)

  datatype ToolCall = ToolCall(id: string, name: string, args: Arguments)

  /** One chat response: a chunk of a stream, or the whole answer. */
  datatype Chunk = Chunk(
    thinking: string,
    content: string,
    toolCalls: seq<ToolCall>,
    done: bool,
    doneReason: string,
    promptTokens: int,
    evalTokens: int)

  /** Content blocks of an assistant answer. */
  datatype Block =
    | ThinkingBlock(thinking: string)
    | TextBlock(text: string)
    | ToolUseBlock(id: string, name: string, args: Arguments)

  /** What a content_block_start event announces. */
  datatype Start = StartThinking | StartText | StartToolUse(id: string, name: string)

  datatype Delta = ThinkingDelta(thinking: string) | TextDelta(text: string) | InputJsonDelta(partialJson: string)

  datatype Event =
    | MessageStart(id: string, model: string, inputTokens: int)
    | ContentBlockStart(index: int, start: Start)
    | ContentBlockDelta(index: int, delta: Delta)
    | ContentBlockStop(index: int)
    | MessageDelta(stopReason: string, inputTokens: int, outputTokens: int)
    | MessageStop

  /** The part of an Anthropic message that depends on the model's answer. */
  datatype Answer = Answer(blocks: seq<Block>, stopReason: string, inputTokens: int, outputTokens: int)

  /** Ollama's done_reason as an Anthropic stop_reason. */
  function MapStopReason(reason: string, hasToolCalls: bool): string {
    if hasToolCalls then "tool_use"
    else if reason == "stop" then "end_turn"
    else if reason == "length" then "max_tokens"
    else if reason != "" then "stop_sequence"
    else ""
  }

  /** Which answers get which stop_reason: each value and all that leads to it. */
  lemma StopReasonsApart(reason: string, hasToolCalls: bool)
    ensures var r := MapStopReason(reason, hasToolCalls);
            && (r == "tool_use" <==> hasToolCalls)
            && (r == "end_turn" <==> !hasToolCalls && reason == "stop")
            && (r == "max_tokens" <==> !hasToolCalls && reason == "length")
            && (r == "stop_sequence" <==> !hasToolCalls && reason !in {"", "stop", "length"})
            && (r == "" <==> !hasToolCalls && reason == "")
  {
    var letters := ["tool_use"[0], "end_turn"[0], "max_tokens"[0], "stop_sequence"[0]];
    assert letters == ['t', 'e', 'm', 's'];
  }
}
