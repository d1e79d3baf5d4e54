/** Anthropic responses converted to OpenAI ones (internal/converter/anthropic/response.go). JSON text is opaque:
    what parsing a tool's input and writing it again makes of it is a parameter. */
module AnthropicResponse {
  import opened Collections
  import opened Strings

  datatype Usage = Usage(input: int, output: int, cacheCreation: int, cacheRead: int)

  /** A content block; blocks of any other type carry nothing that is converted. */
  datatype Block =
    | Text(text: string)
    | Thinking(thinking: string)
    | ToolUse(id: string, name: string, input: Option<string>)
    | OtherBlock

  datatype Response = Response(id: string, content: seq<Block>, stopReason: string, usage: Usage)

  datatype ToolCall = ToolCall(id: string, name: string, arguments: string)

  datatype TokenDetails = TokenDetails(cached: int, creation: int)

  datatype OpenAIUsage = OpenAIUsage(prompt: int, completion: int, total: int, details: Option<TokenDetails>)

  datatype OpenAIResponse = OpenAIResponse(
    id: string, content: string, reasoning: string, toolCalls: seq<ToolCall>, finishReason: string, usage: OpenAIUsage)

  /** Writes a parsed input back as JSON. */
  type Marshal = string -> string

  /** Only three reasons are distinguished; every other one is a plain stop. */
  function MapStopReason(reason: string): (r: string)
    ensures r in {"stop", "length", "tool_calls", "content_filter"}
  {
    match reason
    case "end_turn" => "stop"
    case "max_tokens" => "length"
    case "tool_use" => "tool_calls"
    case "stop_sequence" => "stop"
    case "content_filter" => "content_filter"
    case _ => "stop"
  }

  /** Anthropic does not count cached tokens as input; OpenAI does. */
  function ConvertUsage(u: Usage): (r: OpenAIUsage)
    ensures r.prompt + r.completion == r.total
    ensures r.details.Some? && u.input >= 0 ==> r.details.value.cached + r.details.value.creation <= r.prompt
  {
    var total := u.input + u.cacheCreation + u.cacheRead;
    OpenAIUsage(total, u.output, total + u.output,
                if u.cacheRead > 0 || u.cacheCreation > 0 then Some(TokenDetails(u.cacheRead, u.cacheCreation)) else None)
  }

  // ----- the parts of a message -----

  function TextPart(b: Block): seq<string> {
    if b.Text? && b.text != "" then [b.text] else []
  }

  function ThinkingPart(b: Block): string {
    if b.Thinking? then b.thinking else ""
  }

  function CallPart(b: Block, marshal: Marshal): seq<ToolCall> {
    if b.ToolUse? then [ToolCall(b.id, b.name, if b.input.None? then "{}" else marshal(b.input.value))] else []
  }

  function TextParts(blocks: seq<Block>): seq<string> {
    if blocks == [] then [] else TextParts(blocks[..|blocks| - 1]) + TextPart(blocks[|blocks| - 1])
  }

  function ThinkingParts(blocks: seq<Block>): string {
    if blocks == [] then "" else ThinkingParts(blocks[..|blocks| - 1]) + ThinkingPart(blocks[|blocks| - 1])
  }

  function CallParts(blocks: seq<Block>, marshal: Marshal): seq<ToolCall> {
    if blocks == [] then [] else CallParts(blocks[..|blocks| - 1], marshal) + CallPart(blocks[|blocks| - 1], marshal)
  }

  function Converted(r: Response, marshal: Marshal): OpenAIResponse {
    OpenAIResponse(r.id, Join(TextParts(r.content), "\n\n"), ThinkingParts(r.content), CallParts(r.content, marshal),
                   MapStopReason(r.stopReason), ConvertUsage(r.usage))
  }

  /** A message without content: its finish reason and its counts. */
  lemma NothingConverted(r: Response, marshal: Marshal)
    requires r.content == []
    ensures var c := Converted(r, marshal);
      && c.id == r.id && c.content == "" && c.reasoning == "" && c.toolCalls == []
      && (r.stopReason == "max_tokens" ==> c.finishReason == "length")
      && (r.stopReason == "tool_use" ==> c.finishReason == "tool_calls")
      && (r.stopReason == "content_filter" ==> c.finishReason == "content_filter")
      && (r.stopReason !in {"max_tokens", "tool_use", "content_filter"} ==> c.finishReason == "stop")
      && c.usage.prompt == r.usage.input + r.usage.cacheCreation + r.usage.cacheRead && c.usage.completion == r.usage.output
  {
  }

  /** One block more: text behind a blank line, unless it is empty or the first, thoughts joined on, a call of its own, or
      nothing at all; finish reason and counts do not depend on the content. */
  lemma OneMoreBlock(r: Response, b: Block, marshal: Marshal)
    ensures var before, after := Converted(r, marshal), Converted(r.(content := r.content + [b]), marshal);
      && after.id == before.id && after.finishReason == before.finishReason && after.usage == before.usage
      && after.content == before.content +
           (if b.Text? && b.text != "" then (if before.content == "" then b.text else "\n\n" + b.text) else "")
      && after.reasoning == before.reasoning + (if b.Thinking? then b.thinking else "")
      && after.toolCalls == before.toolCalls +
           (if b.ToolUse? then [ToolCall(b.id, b.name, if b.input == None then "{}" else marshal(b.input.value))] else [])
  {
    var blocks := r.content + [b];
    assert blocks[..|blocks| - 1] == r.content;
    NoEmptyText(r.content);
    if b.Text? && b.text != "" {
      JoinSnoc(TextParts(r.content), b.text);
    } else {
      assert TextParts(r.content) + [] == TextParts(r.content);
    }
  }

  lemma {:induction false} NoEmptyText(blocks: seq<Block>)
    ensures forall i :: 0 <= i < |TextParts(blocks)| ==> TextParts(blocks)[i] != ""
  {
    if blocks != [] { NoEmptyText(blocks[..|blocks| - 1]); }
  }

  lemma {:induction false} JoinSnoc(parts: seq<string>, last: string)
    requires forall i :: 0 <= i < |parts| ==> parts[i] != ""
    ensures Join(parts + [last], "\n\n") == Join(parts, "\n\n") + if parts == [] then last else "\n\n" + last
    ensures Join(parts, "\n\n") == "" <==> parts == []
  {
    if parts == [] {
      assert parts + [last] == [last];
    } else if |parts| == 1 {
      assert (parts + [last])[1..] == [last];
    } else {
      var rest := parts[1..];
      assert (parts + [last])[1..] == rest + [last];
      JoinSnoc(rest, last);
      Assoc(parts[0] + "\n\n", Join(rest, "\n\n"), "\n\n" + last);
    }
  }

  method AnthropicToOpenAI(r: Response, marshal: Marshal) returns (result: OpenAIResponse)
    ensures result == Converted(r, marshal)
  {
    var textParts: seq<string> := [];
    var reasoningContent := "";
    var toolCalls: seq<ToolCall> := [];
    for i := 0 to |r.content|
      invariant textParts == TextParts(r.content[..i])
      invariant reasoningContent == ThinkingParts(r.content[..i])
      invariant toolCalls == CallParts(r.content[..i], marshal)
    {
      assert r.content[..i + 1][..i] == r.content[..i];
      match r.content[i]
      case Text(text) =>
        if text != "" {
          textParts := textParts + [text];
        }
      case Thinking(thinking) =>
        reasoningContent := reasoningContent + thinking;
      case ToolUse(id, name, input) =>
        var argsJSON := "{}";
        if input.Some? {
          argsJSON := marshal(input.value);
        }
        toolCalls := toolCalls + [ToolCall(id, name, argsJSON)];
      case OtherBlock =>
    }
    assert r.content[..|r.content|] == r.content;
    var textContent := "";
    if |textParts| > 0 {
      textContent := Join(textParts, "\n\n");
    }
    result := OpenAIResponse(r.id, textContent, reasoningContent, toolCalls,
                             MapStopReason(r.stopReason), ConvertUsage(r.usage));
  }
}
