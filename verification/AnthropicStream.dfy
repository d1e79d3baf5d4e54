/** The streaming converter (internal/converter/anthropic/streaming.go): one Anthropic event at a time, each
    answered with at most one OpenAI chunk. Parsing a line into an event is a parameter. */
module AnthropicStream {
  import opened Collections
  import opened AnthropicResponse

  datatype Delta = TextDelta(text: string) | ThinkingDelta(thinking: string) | InputJson(partial: string) | OtherDelta

  datatype Event =
    | MessageStart(message: Option<StartInfo>)
    | BlockStart(block: Option<BlockInfo>)
    | BlockDelta(delta: Option<Delta>)
    | BlockStop
    | MessageDelta(stopReason: Option<string>, usage: Option<Usage>)
    | MessageStop
    | ErrorEvent(error: string)
    | Unknown

  datatype StartInfo = StartInfo(id: string, usage: Usage)

  datatype BlockInfo = BlockInfo(kind: string, id: string, name: string)

  datatype ToolDelta = ToolDelta(index: nat, opens: bool, id: string, name: string, arguments: string)

  datatype Chunk = Chunk(id: string, role: string, content: string, reasoning: string, tool: Option<ToolDelta>,
                         finishReason: Option<string>, usage: Option<OpenAIUsage>)

  function Plain(id: string): Chunk {
    Chunk(id, "", "", "", None, None, None)
  }

  /** The variables of the loop. */
  datatype State = State(chatID: string, isFirst: bool, current: BlockInfo, currentIdx: nat, toolCallIdx: nat,
                         promptTokens: int, completionTokens: int, cacheRead: int, cacheCreation: int)

  const NO_BLOCK := BlockInfo("", "", "")

  function Initial(generatedID: string): State {
    State(generatedID, true, NO_BLOCK, 0, 0, 0, 0, 0, 0)
  }

  function StreamUsage(s: State): OpenAIUsage {
    var prompt := s.promptTokens + s.cacheCreation + s.cacheRead;
    OpenAIUsage(prompt, s.completionTokens, prompt + s.completionTokens,
                if s.cacheRead > 0 || s.cacheCreation > 0 then Some(TokenDetails(s.cacheRead, 0)) else None)
  }

  function WithUsage(s: State, usage: Option<Usage>): State {
    if usage.None? then s
    else s.(completionTokens := usage.value.output,
            cacheRead := if usage.value.cacheRead > 0 then usage.value.cacheRead else s.cacheRead,
            cacheCreation := if usage.value.cacheCreation > 0 then usage.value.cacheCreation else s.cacheCreation)
  }

  function Started(s: State, message: Option<StartInfo>): State {
    if message.None? then s
    else s.(chatID := if message.value.id != "" then message.value.id else s.chatID,
            promptTokens := message.value.usage.input,
            cacheRead := message.value.usage.cacheRead,
            cacheCreation := message.value.usage.cacheCreation)
  }

  function DeltaChunks(s: State, d: Delta): seq<Chunk> {
    match d
    case TextDelta(text) => if text == "" then [] else [Plain(s.chatID).(content := text)]
    case ThinkingDelta(thinking) => if thinking == "" then [] else [Plain(s.chatID).(reasoning := thinking)]
    case InputJson(partial) =>
      if partial == "" then [] else [Plain(s.chatID).(tool := Some(ToolDelta(s.currentIdx, false, "", "", partial)))]
    case OtherDelta => []
  }

  /** The loop body: the new state and the chunks written. */
  function Step(s: State, e: Event): (State, seq<Chunk>) {
    match e
    case MessageStart(message) =>
      var t := Started(s, message);
      (t.(isFirst := false), if s.isFirst then [Plain(t.chatID).(role := "assistant")] else [])
    case BlockStart(block) =>
      if block.None? then (s, [])
      else
        (s.(current := block.value, currentIdx := s.toolCallIdx),
         if block.value.kind != "tool_use" then []
         else [Plain(s.chatID).(tool := Some(ToolDelta(s.toolCallIdx, true, block.value.id, block.value.name, "")))])
    case BlockDelta(delta) => (s, if delta.None? then [] else DeltaChunks(s, delta.value))
    case BlockStop =>
      var next := if s.current.kind == "tool_use" then s.toolCallIdx + 1 else s.toolCallIdx;
      (s.(toolCallIdx := next, current := NO_BLOCK, currentIdx := next), [])
    case MessageDelta(stopReason, usage) =>
      if stopReason.None? || stopReason.value == "" then (s, [])
      else
        var t := WithUsage(s, usage);
        (t, [Plain(t.chatID).(finishReason := Some(MapStopReason(stopReason.value)), usage := Some(StreamUsage(t)))])
    case MessageStop => (s, [])
    case ErrorEvent(error) =>
      (s, [Plain(s.chatID).(content := if error != "" then error else "anthropic stream error",
                            finishReason := Some("stop"))])
    case Unknown => (s, [])
  }

  function Emitted(s: State, events: seq<Event>): seq<Chunk>
    decreases |events|
  {
    if events == [] then [] else Step(s, events[0]).1 + Emitted(Step(s, events[0]).0, events[1..])
  }

  // ----- lines -----

  const DATA := "data: "

  type Parser = string -> Option<Event>

  /** Lines that are not data, and malformed ones, are skipped. */
  function EventOf(line: string, parse: Parser): Event {
    if DATA <= line then
      match parse(line[|DATA|..])
      case None => Unknown
      case Some(e) => e
    else Unknown
  }

  function EventsOf(lines: seq<string>, parse: Parser): seq<Event> {
    if lines == [] then [] else [EventOf(lines[0], parse)] + EventsOf(lines[1..], parse)
  }

  // ----- the converter -----

  class Transformer {
    var chatID: string
    var isFirstChunk: bool
    var current: BlockInfo
    var currentIdx: nat
    var toolCallIdx: nat
    var promptTokens: int
    var completionTokens: int
    var cacheReadTokens: int
    var cacheCreationTokens: int
    var output: seq<Chunk>

    constructor (generatedID: string)
      ensures Abstract() == Initial(generatedID) && output == []
    {
      chatID, isFirstChunk := generatedID, true;
      current, currentIdx, toolCallIdx := NO_BLOCK, 0, 0;
      promptTokens, completionTokens, cacheReadTokens, cacheCreationTokens := 0, 0, 0, 0;
      output := [];
    }

    function Abstract(): State
      reads this
    {
      State(chatID, isFirstChunk, current, currentIdx, toolCallIdx,
            promptTokens, completionTokens, cacheReadTokens, cacheCreationTokens)
    }

    method WriteChunk(chunk: Chunk)
      modifies this`output
      ensures output == old(output) + [chunk]
    {
      output := output + [chunk];
    }

    method StartMessage(message: Option<StartInfo>)
      modifies this
      ensures Abstract() == Step(old(Abstract()), MessageStart(message)).0
      ensures output == old(output) + Step(old(Abstract()), MessageStart(message)).1
    {
      if message.Some? {
        if message.value.id != "" {
          chatID := message.value.id;
        }
        promptTokens := message.value.usage.input;
        cacheReadTokens := message.value.usage.cacheRead;
        cacheCreationTokens := message.value.usage.cacheCreation;
      }
      if isFirstChunk {
        WriteChunk(Plain(chatID).(role := "assistant"));
        isFirstChunk := false;
      }
    }

    method StartBlock(block: Option<BlockInfo>)
      modifies this
      ensures Abstract() == Step(old(Abstract()), BlockStart(block)).0
      ensures output == old(output) + Step(old(Abstract()), BlockStart(block)).1
    {
      if block.None? {
        return;
      }
      current, currentIdx := block.value, toolCallIdx;
      if current.kind == "tool_use" {
        WriteChunk(Plain(chatID).(tool := Some(ToolDelta(currentIdx, true, current.id, current.name, ""))));
      }
    }

    method ForwardDelta(delta: Option<Delta>)
      modifies this`output
      ensures output == old(output) + Step(old(Abstract()), BlockDelta(delta)).1
    {
      if delta.None? {
        return;
      }
      match delta.value
      case TextDelta(text) =>
        if text != "" {
          WriteChunk(Plain(chatID).(content := text));
        }
      case ThinkingDelta(thinking) =>
        if thinking != "" {
          WriteChunk(Plain(chatID).(reasoning := thinking));
        }
      case InputJson(partial) =>
        if partial != "" {
          WriteChunk(Plain(chatID).(tool := Some(ToolDelta(currentIdx, false, "", "", partial))));
        }
      case OtherDelta =>
    }

    method StopBlock()
      modifies this
      ensures Abstract() == Step(old(Abstract()), BlockStop).0 && output == old(output)
    {
      if current.kind == "tool_use" {
        toolCallIdx := toolCallIdx + 1;
      }
      current, currentIdx := NO_BLOCK, toolCallIdx;
    }

    method FinishMessage(stopReason: Option<string>, usage: Option<Usage>)
      modifies this
      ensures Abstract() == Step(old(Abstract()), MessageDelta(stopReason, usage)).0
      ensures output == old(output) + Step(old(Abstract()), MessageDelta(stopReason, usage)).1
    {
      if stopReason.None? {
        return;
      }
      if stopReason.value != "" {
        var reason := MapStopReason(stopReason.value);
        if usage.Some? {
          completionTokens := usage.value.output;
          if usage.value.cacheRead > 0 {
            cacheReadTokens := usage.value.cacheRead;
          }
          if usage.value.cacheCreation > 0 {
            cacheCreationTokens := usage.value.cacheCreation;
          }
        }
        var total := promptTokens + cacheCreationTokens + cacheReadTokens;
        var details := None;
        if cacheReadTokens > 0 || cacheCreationTokens > 0 {
          details := Some(TokenDetails(cacheReadTokens, 0));
        }
        var counts := OpenAIUsage(total, completionTokens, total + completionTokens, details);
        WriteChunk(Plain(chatID).(finishReason := Some(reason), usage := Some(counts)));
      }
    }

    method Handle(e: Event)
      modifies this
      ensures Abstract() == Step(old(Abstract()), e).0
      ensures output == old(output) + Step(old(Abstract()), e).1
    {
      match e
      case MessageStart(message) => StartMessage(message);
      case BlockStart(block) => StartBlock(block);
      case BlockDelta(delta) => ForwardDelta(delta);
      case BlockStop => StopBlock();
      case MessageDelta(stopReason, usage) => FinishMessage(stopReason, usage);
      case MessageStop =>
      case ErrorEvent(error) =>
        var errMsg := "anthropic stream error";
        if error != "" {
          errMsg := error;
        }
        WriteChunk(Plain(chatID).(content := errMsg, finishReason := Some("stop")));
      case Unknown =>
    }
  }

  method TransformAnthropicStreamToOpenAI(lines: seq<string>, parse: Parser, generatedID: string)
    returns (chunks: seq<Chunk>)
    ensures chunks == Emitted(Initial(generatedID), EventsOf(lines, parse))
  {
    var t := new Transformer(generatedID);
    ghost var all := Emitted(t.Abstract(), EventsOf(lines, parse));
    for i := 0 to |lines|
      invariant t.output + Emitted(t.Abstract(), EventsOf(lines[i..], parse)) == all
    {
      assert lines[i..][1..] == lines[i + 1..];
      var line := lines[i];
      ghost var events := EventsOf(lines[i..], parse);
      assert events[0] == EventOf(line, parse) && events[1..] == EventsOf(lines[i + 1..], parse);
      ghost var written, step := t.output, Step(t.Abstract(), events[0]);
      t.Handle(EventOf(line, parse));
      Assoc(written, step.1, Emitted(step.0, events[1..]));
    }
    chunks := t.output;
  }
}
