/** A streamed message, put together again by an OpenAI client, compared with the same message converted whole
    (internal/converter/anthropic/streaming.go and response.go). */
module StreamAgreement {
  import opened Collections
  import opened Strings
  import opened AnthropicResponse
  import opened AnthropicStream

  // ----- the client -----

  /** What a client has put together; ok while the chunks made sense. */
  datatype Acc = Acc(ok: bool, id: Option<string>, content: string, reasoning: string, calls: seq<ToolCall>,
                     finish: Option<string>, usage: Option<OpenAIUsage>)

  const EMPTY := Acc(true, None, "", "", [], None, None)

  /** An opening names the next call; a fragment must belong to a call that was opened before. */
  predicate ToolFits(calls: seq<ToolCall>, tool: Option<ToolDelta>) {
    tool.None? || if tool.value.opens then tool.value.index == |calls| else tool.value.index < |calls|
  }

  function AddTool(calls: seq<ToolCall>, t: ToolDelta): seq<ToolCall>
    requires ToolFits(calls, Some(t))
  {
    if t.opens then calls + [ToolCall(t.id, t.name, t.arguments)]
    else calls[t.index := calls[t.index].(arguments := calls[t.index].arguments + t.arguments)]
  }

  function Add(a: Acc, c: Chunk): Acc {
    if !a.ok || !ToolFits(a.calls, c.tool) || (a.id.Some? && a.id.value != c.id) then a.(ok := false)
    else
      Acc(true, Some(c.id), a.content + c.content, a.reasoning + c.reasoning,
          if c.tool.None? then a.calls else AddTool(a.calls, c.tool.value),
          if c.finishReason.Some? then c.finishReason else a.finish,
          if c.usage.Some? then c.usage else a.usage)
  }

  function AddAll(a: Acc, chunks: seq<Chunk>): Acc
    decreases |chunks|
  {
    if chunks == [] then a else AddAll(Add(a, chunks[0]), chunks[1..])
  }

  lemma {:induction false} AddAllConcat(a: Acc, x: seq<Chunk>, y: seq<Chunk>)
    ensures AddAll(a, x + y) == AddAll(AddAll(a, x), y)
    decreases |x|
  {
    if x == [] {
      assert x + y == y;
    } else {
      AddAllConcat(Add(a, x[0]), x[1..], y);
      assert (x + y)[1..] == x[1..] + y;
    }
  }

  lemma AddOne(a: Acc, c: Chunk)
    ensures AddAll(a, [c]) == Add(a, c)
  {
    assert [c][1..] == [];
  }

  lemma Unchanged(a: Acc)
    ensures a.content + "" == a.content && a.reasoning + "" == a.reasoning
  {
  }

  // ----- converter and client side by side -----

  datatype Both = Both(s: State, a: Acc)

  function Feed(p: Both, e: Event): Both {
    Both(Step(p.s, e).0, AddAll(p.a, Step(p.s, e).1))
  }

  function FeedAll(p: Both, events: seq<Event>): Both
    decreases |events|
  {
    if events == [] then p else FeedAll(Feed(p, events[0]), events[1..])
  }

  lemma {:induction false} FeedAllConcat(p: Both, x: seq<Event>, y: seq<Event>)
    ensures FeedAll(p, x + y) == FeedAll(FeedAll(p, x), y)
    decreases |x|
  {
    if x == [] {
      assert x + y == y;
    } else {
      FeedAllConcat(Feed(p, x[0]), x[1..], y);
      assert (x + y)[1..] == x[1..] + y;
    }
  }

  lemma FeedOne(p: Both, e: Event)
    ensures FeedAll(p, [e]) == Feed(p, e)
  {
    assert [e][1..] == [];
  }

  lemma {:induction false} FeedingIsReassembly(p: Both, events: seq<Event>)
    ensures FeedAll(p, events).a == AddAll(p.a, Emitted(p.s, events))
    decreases |events|
  {
    if events != [] {
      var step := Step(p.s, events[0]);
      FeedingIsReassembly(Feed(p, events[0]), events[1..]);
      AddAllConcat(p.a, step.1, Emitted(step.0, events[1..]));
    }
  }

  // ----- well-formed messages as streams -----

  /** A block as it is streamed: its pieces, in any division. Blocks of other kinds may carry pieces of input. */
  datatype StreamedBlock =
    | TextBlock(texts: seq<string>)
    | ThinkingBlock(thoughts: seq<string>)
    | ToolBlock(id: string, name: string, fragments: seq<string>)
    | ForeignBlock(kind: string, pieces: seq<string>)

  predicate Named(b: StreamedBlock) {
    b.ForeignBlock? ==> b.kind != "tool_use"
  }

  predicate TameBlock(b: StreamedBlock) {
    b.ForeignBlock? ==> forall piece :: piece in b.pieces ==> piece == ""
  }

  datatype Message = Message(id: string, startUsage: Usage, blocks: seq<StreamedBlock>,
                             stopReason: string, finalUsage: Option<Usage>)
  {
    predicate Valid() {
      stopReason != "" && forall b :: b in blocks ==> Named(b)
    }

    /** No block but a tool call carries input. */
    predicate Tame() {
      forall b :: b in blocks ==> TameBlock(b)
    }
  }

  datatype DeltaKind = ForText | ForThinking | ForJson

  function Wrap(k: DeltaKind, d: string): Event {
    BlockDelta(Some(match k case ForText => TextDelta(d) case ForThinking => ThinkingDelta(d) case ForJson => InputJson(d)))
  }

  function DeltaEvents(k: DeltaKind, ds: seq<string>): seq<Event> {
    if ds == [] then [] else [Wrap(k, ds[0])] + DeltaEvents(k, ds[1..])
  }

  function Info(b: StreamedBlock): BlockInfo {
    match b
    case TextBlock(_) => BlockInfo("text", "", "")
    case ThinkingBlock(_) => BlockInfo("thinking", "", "")
    case ToolBlock(id, name, _) => BlockInfo("tool_use", id, name)
    case ForeignBlock(kind, _) => BlockInfo(kind, "", "")
  }

  function Deltas(b: StreamedBlock): seq<Event> {
    match b
    case TextBlock(texts) => DeltaEvents(ForText, texts)
    case ThinkingBlock(thoughts) => DeltaEvents(ForThinking, thoughts)
    case ToolBlock(_, _, fragments) => DeltaEvents(ForJson, fragments)
    case ForeignBlock(_, pieces) => DeltaEvents(ForJson, pieces)
  }

  function BlockEvents(b: StreamedBlock): seq<Event> {
    [BlockStart(Some(Info(b)))] + Deltas(b) + [BlockStop]
  }

  function AllBlockEvents(bs: seq<StreamedBlock>): seq<Event> {
    if bs == [] then [] else AllBlockEvents(bs[..|bs| - 1]) + BlockEvents(bs[|bs| - 1])
  }

  function MessageEvents(m: Message): seq<Event> {
    [MessageStart(Some(StartInfo(m.id, m.startUsage)))] + AllBlockEvents(m.blocks) +
    [MessageDelta(Some(m.stopReason), m.finalUsage)]
  }

  /** Events that may stand anywhere: pings, signatures, malformed lines, the end mark, message deltas without a stop reason. */
  predicate Quiet(e: Event) {
    || e.Unknown? || e.MessageStop? || e == BlockStart(None) || e == BlockDelta(None) || e == BlockDelta(Some(OtherDelta))
    || (e.MessageDelta? && (e.stopReason == None || e.stopReason == Some("")))
  }

  function Loud(events: seq<Event>): seq<Event> {
    if events == [] then [] else (if Quiet(events[0]) then [] else [events[0]]) + Loud(events[1..])
  }

  lemma {:induction false} QuietEventsEmitNothing(s: State, events: seq<Event>)
    ensures Emitted(s, events) == Emitted(s, Loud(events))
    decreases |events|
  {
    if events != [] {
      QuietEventsEmitNothing(Step(s, events[0]).0, events[1..]);
      if Quiet(events[0]) {
        assert Step(s, events[0]) == (s, []);
        assert [] + Emitted(s, events[1..]) == Emitted(s, events[1..]);
        assert Loud(events) == [] + Loud(events[1..]) == Loud(events[1..]);
      } else {
        assert Loud(events)[1..] == Loud(events[1..]);
      }
    }
  }

  // ----- what a block adds -----

  function Flat(ds: seq<string>): string {
    if ds == [] then "" else ds[0] + Flat(ds[1..])
  }

  /** Text appended where deltas of this kind go. */
  function Extended(a: Acc, k: DeltaKind, i: nat, text: string): Acc
    requires k.ForJson? ==> i < |a.calls|
  {
    match k
    case ForText => a.(content := a.content + text)
    case ForThinking => a.(reasoning := a.reasoning + text)
    case ForJson => a.(calls := a.calls[i := a.calls[i].(arguments := a.calls[i].arguments + text)])
  }

  predicate Connected(p: Both) {
    p.a.ok && p.a.id == Some(p.s.chatID)
  }

  lemma DeltaFeeds(p: Both, k: DeltaKind, d: string)
    requires Connected(p) && (k.ForJson? ==> p.s.currentIdx < |p.a.calls|)
    ensures Feed(p, Wrap(k, d)) == Both(p.s, Extended(p.a, k, p.s.currentIdx, d))
  {
    Unchanged(p.a);
    if d == "" {
      ExtendedByNothing(p.a, k, p.s.currentIdx);
    } else {
      AddOne(p.a, Step(p.s, Wrap(k, d)).1[0]);
    }
  }

  lemma ExtendedTwice(a: Acc, k: DeltaKind, i: nat, s: string, t: string)
    requires k.ForJson? ==> i < |a.calls|
    ensures Extended(Extended(a, k, i, s), k, i, t) == Extended(a, k, i, s + t)
  {
    assert a.content + s + t == a.content + (s + t);
    assert a.reasoning + s + t == a.reasoning + (s + t);
    if k.ForJson? {
      assert a.calls[i].arguments + s + t == a.calls[i].arguments + (s + t);
    }
  }

  lemma {:induction false} DeltasFeed(p: Both, k: DeltaKind, ds: seq<string>)
    requires Connected(p) && (k.ForJson? ==> p.s.currentIdx < |p.a.calls|)
    ensures FeedAll(p, DeltaEvents(k, ds)) == Both(p.s, Extended(p.a, k, p.s.currentIdx, Flat(ds)))
    decreases |ds|
  {
    var i := p.s.currentIdx;
    if ds == [] {
      DeltaFeeds(p, k, "");
      ExtendedByNothing(p.a, k, i);
    } else {
      DeltaFeeds(p, k, ds[0]);
      var next := Feed(p, Wrap(k, ds[0]));
      DeltasFeed(next, k, ds[1..]);
      ExtendedTwice(p.a, k, i, ds[0], Flat(ds[1..]));
      assert DeltaEvents(k, ds)[1..] == DeltaEvents(k, ds[1..]);
    }
  }

  lemma ExtendedByNothing(a: Acc, k: DeltaKind, i: nat)
    requires k.ForJson? ==> i < |a.calls|
    ensures Extended(a, k, i, "") == a
  {
    assert a.content + "" == a.content && a.reasoning + "" == a.reasoning;
    if k.ForJson? {
      assert a.calls[i].arguments + "" == a.calls[i].arguments;
    }
  }

  function WithBlock(a: Acc, b: StreamedBlock): Acc {
    match b
    case TextBlock(texts) => a.(content := a.content + Flat(texts))
    case ThinkingBlock(thoughts) => a.(reasoning := a.reasoning + Flat(thoughts))
    case ToolBlock(id, name, fragments) => a.(calls := a.calls + [ToolCall(id, name, Flat(fragments))])
    case ForeignBlock(_, _) => a
  }

  function WithBlocks(a: Acc, bs: seq<StreamedBlock>): Acc {
    if bs == [] then a else WithBlock(WithBlocks(a, bs[..|bs| - 1]), bs[|bs| - 1])
  }

  /** Between blocks: no block open, and the next tool is numbered after the calls so far. */
  predicate Ready(p: Both) {
    Connected(p) && p.s.current == NO_BLOCK && p.s.currentIdx == p.s.toolCallIdx == |p.a.calls|
  }

  function AtCall(s: State, n: nat): State {
    s.(current := NO_BLOCK, currentIdx := n, toolCallIdx := n)
  }

  function Opened(p: Both, b: StreamedBlock): Both {
    Both(p.s.(current := Info(b)), if b.ToolBlock? then p.a.(calls := p.a.calls + [ToolCall(b.id, b.name, "")]) else p.a)
  }

  lemma BlockOpens(p: Both, b: StreamedBlock)
    requires Ready(p) && Named(b)
    ensures Feed(p, BlockStart(Some(Info(b)))) == Opened(p, b)
  {
    Unchanged(p.a);
    if b.ToolBlock? {
      AddOne(p.a, Step(p.s, BlockStart(Some(Info(b)))).1[0]);
    }
  }

  lemma {:induction false} EmptyPiecesFeed(p: Both, ds: seq<string>)
    requires forall d :: d in ds ==> d == ""
    ensures FeedAll(p, DeltaEvents(ForJson, ds)) == p
    decreases |ds|
  {
    if ds != [] {
      assert ds[0] in ds;
      assert forall d :: d in ds[1..] ==> d in ds;
      assert Feed(p, Wrap(ForJson, "")) == p;
      EmptyPiecesFeed(p, ds[1..]);
      assert DeltaEvents(ForJson, ds)[1..] == DeltaEvents(ForJson, ds[1..]);
    }
  }

  lemma BlockContinues(p: Both, b: StreamedBlock)
    requires Ready(p) && TameBlock(b)
    ensures FeedAll(Opened(p, b), Deltas(b)) == Both(p.s.(current := Info(b)), WithBlock(p.a, b))
  {
    match b
    case TextBlock(texts) => DeltasFeed(Opened(p, b), ForText, texts);
    case ThinkingBlock(thoughts) => DeltasFeed(Opened(p, b), ForThinking, thoughts);
    case ToolBlock(id, name, fragments) =>
      DeltasFeed(Opened(p, b), ForJson, fragments);
      assert "" + Flat(fragments) == Flat(fragments);
    case ForeignBlock(_, pieces) => EmptyPiecesFeed(Opened(p, b), pieces);
  }

  /** A block in its three parts. */
  lemma BlockInParts(p: Both, b: StreamedBlock)
    requires Ready(p) && Named(b)
    ensures FeedAll(p, BlockEvents(b)) == Feed(FeedAll(Opened(p, b), Deltas(b)), BlockStop)
  {
    FeedAllConcat(p, [BlockStart(Some(Info(b)))] + Deltas(b), [BlockStop]);
    FeedAllConcat(p, [BlockStart(Some(Info(b)))], Deltas(b));
    FeedOne(p, BlockStart(Some(Info(b))));
    BlockOpens(p, b);
    FeedOne(FeedAll(Opened(p, b), Deltas(b)), BlockStop);
  }

  lemma BlockFeeds(p: Both, b: StreamedBlock)
    requires Ready(p) && Named(b) && TameBlock(b)
    ensures FeedAll(p, BlockEvents(b)) == Both(AtCall(p.s, |WithBlock(p.a, b).calls|), WithBlock(p.a, b))
    ensures Ready(FeedAll(p, BlockEvents(b)))
  {
    BlockInParts(p, b);
    BlockContinues(p, b);
  }

  lemma {:induction false} BlocksFeed(p: Both, bs: seq<StreamedBlock>)
    requires Ready(p) && forall b :: b in bs ==> Named(b) && TameBlock(b)
    ensures FeedAll(p, AllBlockEvents(bs)) == Both(AtCall(p.s, |WithBlocks(p.a, bs).calls|), WithBlocks(p.a, bs))
    ensures Ready(FeedAll(p, AllBlockEvents(bs)))
  {
    if bs != [] {
      var front, last := bs[..|bs| - 1], bs[|bs| - 1];
      BlocksFeed(p, front);
      FeedAllConcat(p, AllBlockEvents(front), BlockEvents(last));
      BlockFeeds(FeedAll(p, AllBlockEvents(front)), last);
    }
  }

  // ----- pieces that belong to no call -----

  lemma {:induction false} BrokenStaysBroken(p: Both, events: seq<Event>)
    requires !p.a.ok
    ensures !FeedAll(p, events).a.ok
    decreases |events|
  {
    if events != [] {
      BrokenAddsNothing(p.a, Step(p.s, events[0]).1);
      BrokenStaysBroken(Feed(p, events[0]), events[1..]);
    }
  }

  lemma {:induction false} BrokenAddsNothing(a: Acc, chunks: seq<Chunk>)
    requires !a.ok
    ensures !AddAll(a, chunks).ok
    decreases |chunks|
  {
    if chunks != [] { BrokenAddsNothing(Add(a, chunks[0]), chunks[1..]); }
  }

  lemma {:induction false} PiecesBreak(p: Both, ds: seq<string>)
    requires p.s.currentIdx >= |p.a.calls| && exists d :: d in ds && d != ""
    ensures !FeedAll(p, DeltaEvents(ForJson, ds)).a.ok
    decreases |ds|
  {
    var e := Wrap(ForJson, ds[0]);
    assert ds == [ds[0]] + ds[1..];
    assert DeltaEvents(ForJson, ds)[1..] == DeltaEvents(ForJson, ds[1..]);
    if ds[0] == "" {
      assert Feed(p, e) == p;
      PiecesBreak(p, ds[1..]);
    } else {
      AddOne(p.a, Step(p.s, e).1[0]);
      BrokenStaysBroken(Feed(p, e), DeltaEvents(ForJson, ds[1..]));
    }
  }

  lemma ForeignPiecesBreak(p: Both, b: StreamedBlock)
    requires Ready(p) && Named(b) && !TameBlock(b)
    ensures !FeedAll(p, BlockEvents(b)).a.ok
  {
    BlockInParts(p, b);
    PiecesBreak(Opened(p, b), b.pieces);
    var broken := FeedAll(Opened(p, b), Deltas(b));
    FeedOne(broken, BlockStop);
    BrokenStaysBroken(broken, [BlockStop]);
  }

  lemma {:induction false} BlocksAreOkIffTame(p: Both, bs: seq<StreamedBlock>)
    requires Ready(p) && forall b :: b in bs ==> Named(b)
    ensures FeedAll(p, AllBlockEvents(bs)).a.ok <==> forall b :: b in bs ==> TameBlock(b)
  {
    if bs != [] {
      var front, last := bs[..|bs| - 1], bs[|bs| - 1];
      assert bs == front + [last];
      BlocksAreOkIffTame(p, front);
      FeedAllConcat(p, AllBlockEvents(front), BlockEvents(last));
      if !(forall b :: b in front ==> TameBlock(b)) {
        BrokenStaysBroken(FeedAll(p, AllBlockEvents(front)), BlockEvents(last));
      } else {
        BlocksFeed(p, front);
        if TameBlock(last) {
          BlockFeeds(FeedAll(p, AllBlockEvents(front)), last);
        } else {
          ForeignPiecesBreak(FeedAll(p, AllBlockEvents(front)), last);
        }
      }
    }
  }

  // ----- the whole message -----

  function MessageID(m: Message, generatedID: string): string {
    if m.id != "" then m.id else generatedID
  }

  /** Counts of the whole message: the final event overrides what the first one reported. */
  function FinalUsage(m: Message): Usage {
    match m.finalUsage
    case None => m.startUsage
    case Some(u) => Usage(m.startUsage.input, u.output,
                          if u.cacheCreation > 0 then u.cacheCreation else m.startUsage.cacheCreation,
                          if u.cacheRead > 0 then u.cacheRead else m.startUsage.cacheRead)
  }

  /** What streaming reports of those counts. */
  function ReportedUsage(m: Message): OpenAIUsage {
    var u := FinalUsage(m);
    var output := if m.finalUsage.None? then 0 else u.output;
    var prompt := u.input + u.cacheCreation + u.cacheRead;
    OpenAIUsage(prompt, output, prompt + output,
                if u.cacheRead > 0 || u.cacheCreation > 0 then Some(TokenDetails(u.cacheRead, 0)) else None)
  }

  function Expected(m: Message, generatedID: string): Acc {
    WithBlocks(EMPTY.(id := Some(MessageID(m, generatedID))), m.blocks)
    .(finish := Some(MapStopReason(m.stopReason)), usage := Some(ReportedUsage(m)))
  }

  function StartState(m: Message, generatedID: string): State {
    State(MessageID(m, generatedID), false, NO_BLOCK, 0, 0,
          m.startUsage.input, 0, m.startUsage.cacheRead, m.startUsage.cacheCreation)
  }

  lemma MessageBegins(m: Message, generatedID: string)
    ensures Feed(Both(Initial(generatedID), EMPTY), MessageStart(Some(StartInfo(m.id, m.startUsage)))) ==
            Both(StartState(m, generatedID), EMPTY.(id := Some(MessageID(m, generatedID))))
  {
    Unchanged(EMPTY);
    AddOne(EMPTY, Step(Initial(generatedID), MessageStart(Some(StartInfo(m.id, m.startUsage)))).1[0]);
  }

  lemma MessageEnds(m: Message, s: State, a: Acc)
    requires m.stopReason != "" && Connected(Both(s, a))
    requires s.promptTokens == m.startUsage.input && s.completionTokens == 0
    requires s.cacheRead == m.startUsage.cacheRead && s.cacheCreation == m.startUsage.cacheCreation
    ensures Feed(Both(s, a), MessageDelta(Some(m.stopReason), m.finalUsage)).a ==
            a.(finish := Some(MapStopReason(m.stopReason)), usage := Some(ReportedUsage(m)))
  {
    Unchanged(a);
    AddOne(a, Step(s, MessageDelta(Some(m.stopReason), m.finalUsage)).1[0]);
  }

  ghost function Begun(m: Message, generatedID: string): Both {
    Both(StartState(m, generatedID), EMPTY.(id := Some(MessageID(m, generatedID))))
  }

  lemma MessageInParts(m: Message, generatedID: string)
    ensures FeedAll(Both(Initial(generatedID), EMPTY), MessageEvents(m)) ==
            Feed(FeedAll(Begun(m, generatedID), AllBlockEvents(m.blocks)), MessageDelta(Some(m.stopReason), m.finalUsage))
  {
    var start := Both(Initial(generatedID), EMPTY);
    var first := MessageStart(Some(StartInfo(m.id, m.startUsage)));
    var last := MessageDelta(Some(m.stopReason), m.finalUsage);
    FeedAllConcat(start, [first] + AllBlockEvents(m.blocks), [last]);
    FeedAllConcat(start, [first], AllBlockEvents(m.blocks));
    FeedOne(start, first);
    MessageBegins(m, generatedID);
    FeedOne(FeedAll(Begun(m, generatedID), AllBlockEvents(m.blocks)), last);
  }

  lemma MessageFeeds(m: Message, generatedID: string)
    requires m.Valid() && m.Tame()
    ensures FeedAll(Both(Initial(generatedID), EMPTY), MessageEvents(m)).a == Expected(m, generatedID)
  {
    MessageInParts(m, generatedID);
    BlocksFeed(Begun(m, generatedID), m.blocks);
    var done := FeedAll(Begun(m, generatedID), AllBlockEvents(m.blocks));
    MessageEnds(m, done.s, done.a);
  }

  /** What the client puts together from a stream. */
  ghost function Reassembled(events: seq<Event>, generatedID: string): Acc {
    AddAll(EMPTY, Emitted(Initial(generatedID), events))
  }

  lemma ReassembledIsFed(m: Message, events: seq<Event>, generatedID: string)
    requires Loud(events) == MessageEvents(m)
    ensures Reassembled(events, generatedID) == FeedAll(Both(Initial(generatedID), EMPTY), MessageEvents(m)).a
  {
    QuietEventsEmitNothing(Initial(generatedID), events);
    FeedingIsReassembly(Both(Initial(generatedID), EMPTY), MessageEvents(m));
  }

  /** However a message is divided and padded with other events, the client puts the same thing together. */
  lemma StreamReassembles(m: Message, events: seq<Event>, generatedID: string)
    requires m.Valid() && m.Tame() && Loud(events) == MessageEvents(m)
    ensures Reassembled(events, generatedID) == Expected(m, generatedID)
  {
    ReassembledIsFed(m, events, generatedID);
    MessageFeeds(m, generatedID);
  }

  /** Every fragment follows the opening of its tool call exactly when only tool calls carry input. */
  lemma FragmentsFollowOpenings(m: Message, events: seq<Event>, generatedID: string)
    requires m.Valid() && Loud(events) == MessageEvents(m)
    ensures Reassembled(events, generatedID).ok <==> m.Tame()
  {
    ReassembledIsFed(m, events, generatedID);
    MessageInParts(m, generatedID);
    BlocksAreOkIffTame(Begun(m, generatedID), m.blocks);
    var done := FeedAll(Begun(m, generatedID), AllBlockEvents(m.blocks));
    if m.Tame() {
      MessageFeeds(m, generatedID);
      BlocksKeepOk(EMPTY.(id := Some(MessageID(m, generatedID))), m.blocks);
    } else {
      BrokenStaysBroken(done, [MessageDelta(Some(m.stopReason), m.finalUsage)]);
      FeedOne(done, MessageDelta(Some(m.stopReason), m.finalUsage));
    }
  }

  lemma {:induction false} BlocksKeepOk(a: Acc, bs: seq<StreamedBlock>)
    ensures WithBlocks(a, bs).ok == a.ok && WithBlocks(a, bs).id == a.id
  {
    if bs != [] { BlocksKeepOk(a, bs[..|bs| - 1]); }
  }

  // ----- the same message, not streamed -----

  /** A tool without input has the empty object. */
  function InputText(fragments: string): string {
    if fragments == "" then "{}" else fragments
  }

  function Assembled(b: StreamedBlock): Block {
    match b
    case TextBlock(texts) => Text(Flat(texts))
    case ThinkingBlock(thoughts) => Thinking(Flat(thoughts))
    case ToolBlock(id, name, fragments) => ToolUse(id, name, Some(InputText(Flat(fragments))))
    case ForeignBlock(_, _) => OtherBlock
  }

  function AssembledAll(bs: seq<StreamedBlock>): (r: seq<Block>)
    ensures |r| == |bs|
  {
    if bs == [] then [] else AssembledAll(bs[..|bs| - 1]) + [Assembled(bs[|bs| - 1])]
  }

  function ResponseOf(m: Message): Response {
    Response(m.id, AssembledAll(m.blocks), m.stopReason, FinalUsage(m))
  }

  function Marshalled(calls: seq<ToolCall>, marshal: Marshal): seq<ToolCall> {
    if calls == [] then []
    else
      var c := calls[|calls| - 1];
      Marshalled(calls[..|calls| - 1], marshal) + [c.(arguments := marshal(InputText(c.arguments)))]
  }

  lemma AssembledSnoc(bs: seq<StreamedBlock>)
    requires bs != []
    ensures AssembledAll(bs)[..|bs| - 1] == AssembledAll(bs[..|bs| - 1])
    ensures AssembledAll(bs)[|bs| - 1] == Assembled(bs[|bs| - 1])
  {
  }

  lemma {:induction false} TextsAgree(bs: seq<StreamedBlock>, a: Acc)
    requires a.content == ""
    ensures WithBlocks(a, bs).content == Flat(TextParts(AssembledAll(bs)))
  {
    if bs != [] {
      var front, last := bs[..|bs| - 1], bs[|bs| - 1];
      TextsAgree(front, a);
      AssembledSnoc(bs);
      if TextPart(Assembled(last)) == [] {
        assert TextParts(AssembledAll(front)) + [] == TextParts(AssembledAll(front));
        assert WithBlocks(a, front).content + "" == WithBlocks(a, front).content;
      } else {
        FlatSnoc(TextParts(AssembledAll(front)), Flat(last.texts));
      }
    }
  }

  lemma {:induction false} ThinkingAgrees(bs: seq<StreamedBlock>, a: Acc)
    requires a.reasoning == ""
    ensures WithBlocks(a, bs).reasoning == ThinkingParts(AssembledAll(bs))
  {
    if bs != [] {
      ThinkingAgrees(bs[..|bs| - 1], a);
      AssembledSnoc(bs);
      assert WithBlocks(a, bs[..|bs| - 1]).reasoning + "" == WithBlocks(a, bs[..|bs| - 1]).reasoning;
    }
  }

  lemma {:induction false} CallsAgree(bs: seq<StreamedBlock>, a: Acc, marshal: Marshal)
    requires a.calls == []
    ensures CallParts(AssembledAll(bs), marshal) == Marshalled(WithBlocks(a, bs).calls, marshal)
  {
    if bs != [] {
      var front, last := bs[..|bs| - 1], bs[|bs| - 1];
      CallsAgree(front, a, marshal);
      AssembledSnoc(bs);
      var calls := WithBlocks(a, front).calls;
      if last.ToolBlock? {
        assert (calls + [ToolCall(last.id, last.name, Flat(last.fragments))])[..|calls|] == calls;
      }
    }
  }

  lemma {:induction false} FlatSnoc(ds: seq<string>, d: string)
    ensures Flat(ds + [d]) == Flat(ds) + d
  {
    if ds == [] {
      assert [d][1..] == [] && d + "" == "" + d;
    } else {
      FlatSnoc(ds[1..], d);
      assert (ds + [d])[1..] == ds[1..] + [d];
      assert ds[0] + (Flat(ds[1..]) + d) == ds[0] + Flat(ds[1..]) + d;
    }
  }

  /** Joining texts with a blank line differs from streaming them one after another as soon as there are two. */
  lemma {:induction false} JoinLength(parts: seq<string>)
    ensures |Join(parts, "\n\n")| == |Flat(parts)| + if parts == [] then 0 else 2 * (|parts| - 1)
  {
    if |parts| > 1 {
      JoinLength(parts[1..]);
    } else if |parts| == 1 {
      assert parts[1..] == [];
    }
  }

  lemma JoinIsFlat(parts: seq<string>)
    ensures Join(parts, "\n\n") == Flat(parts) <==> |parts| <= 1
  {
    JoinLength(parts);
    if |parts| == 1 {
      assert parts[1..] == [] && parts[0] + "" == parts[0];
    }
  }

  predicate CanonicalArguments(calls: seq<ToolCall>, marshal: Marshal) {
    forall c :: c in calls ==> marshal(InputText(c.arguments)) == c.arguments
  }

  lemma {:induction false} MarshalledSame(calls: seq<ToolCall>, marshal: Marshal)
    ensures |Marshalled(calls, marshal)| == |calls|
    ensures Marshalled(calls, marshal) == calls <==> CanonicalArguments(calls, marshal)
    ensures forall i :: 0 <= i < |calls| ==>
              Marshalled(calls, marshal)[i].id == calls[i].id && Marshalled(calls, marshal)[i].name == calls[i].name
  {
    if calls != [] {
      var front, last := calls[..|calls| - 1], calls[|calls| - 1];
      MarshalledSame(front, marshal);
      assert calls == front + [last];
      assert Marshalled(calls, marshal)[..|front|] == Marshalled(front, marshal);
    }
  }

  // ----- arguments, by the message -----

  /** Whatever came in pieces reads as it would be written. */
  predicate CanonicalInput(b: StreamedBlock, marshal: Marshal) {
    b.ToolBlock? ==> marshal(InputText(Flat(b.fragments))) == Flat(b.fragments)
  }

  lemma {:induction false} ArgumentsOfBlocks(bs: seq<StreamedBlock>, a: Acc, marshal: Marshal)
    requires a.calls == []
    ensures CanonicalArguments(WithBlocks(a, bs).calls, marshal) <==> forall b :: b in bs ==> CanonicalInput(b, marshal)
  {
    if bs != [] {
      var front, last := bs[..|bs| - 1], bs[|bs| - 1];
      assert last in bs && forall b :: b in bs <==> b in front || b == last;
      ArgumentsOfBlocks(front, a, marshal);
      assert WithBlocks(a, bs) == WithBlock(WithBlocks(a, front), last);
      if last.ToolBlock? {
        CanonicalOneMore(WithBlocks(a, front).calls, ToolCall(last.id, last.name, Flat(last.fragments)), marshal);
      }
    }
  }

  lemma CanonicalOneMore(calls: seq<ToolCall>, c: ToolCall, marshal: Marshal)
    ensures CanonicalArguments(calls + [c], marshal) <==>
            CanonicalArguments(calls, marshal) && marshal(InputText(c.arguments)) == c.arguments
  {
    assert c in calls + [c];
  }

  /** Marshalling never writes nothing, so a tool streamed without pieces is never canonical. */
  lemma CanonicalNeedsPieces(b: StreamedBlock, marshal: Marshal)
    requires b.ToolBlock? && forall t :: marshal(t) != ""
    ensures CanonicalInput(b, marshal) <==> Flat(b.fragments) != "" && marshal(Flat(b.fragments)) == Flat(b.fragments)
  {
  }

  ghost predicate SameTools(a: seq<ToolCall>, b: seq<ToolCall>) {
    |a| == |b| && forall i :: 0 <= i < |a| ==> a[i].id == b[i].id && a[i].name == b[i].name
  }

  /** When only tool calls carry input, streaming and converting the whole message agree on tools, reasoning, finish
      reason and identity; on text exactly when at most one text block has any; on arguments exactly when every tool's
      pieces already read as its input is written. */
  lemma StreamAgreesWithResponse(m: Message, events: seq<Event>, generatedID: string, marshal: Marshal)
    requires m.Valid() && Loud(events) == MessageEvents(m)
    ensures var a := Reassembled(events, generatedID);
            var r := Converted(ResponseOf(m), marshal);
            && (a.ok <==> m.Tame())
            && (m.Tame() ==>
                 && (m.id != "" ==> a.id == Some(r.id))
                 && a.reasoning == r.reasoning
                 && a.finish == Some(r.finishReason)
                 && SameTools(a.calls, r.toolCalls)
                 && (a.calls == r.toolCalls <==> forall b :: b in m.blocks ==> CanonicalInput(b, marshal))
                 && (a.content == r.content <==> |TextParts(AssembledAll(m.blocks))| <= 1))
  {
    FragmentsFollowOpenings(m, events, generatedID);
    if m.Tame() {
      StreamReassembles(m, events, generatedID);
      PartsAgree(m, generatedID, marshal);
    }
  }

  lemma PartsAgree(m: Message, generatedID: string, marshal: Marshal)
    ensures var a := Expected(m, generatedID);
            var r := Converted(ResponseOf(m), marshal);
            && (m.id != "" ==> a.id == Some(r.id))
            && a.reasoning == r.reasoning
            && a.finish == Some(r.finishReason)
            && SameTools(a.calls, r.toolCalls)
            && (a.calls == r.toolCalls <==> forall b :: b in m.blocks ==> CanonicalInput(b, marshal))
            && (a.content == r.content <==> |TextParts(AssembledAll(m.blocks))| <= 1)
  {
    var start := EMPTY.(id := Some(MessageID(m, generatedID)));
    var a := Expected(m, generatedID);
    BlocksKeepOk(start, m.blocks);
    TextsAgree(m.blocks, start);
    ThinkingAgrees(m.blocks, start);
    CallsAgree(m.blocks, start, marshal);
    MarshalledSame(a.calls, marshal);
    ArgumentsOfBlocks(m.blocks, start, marshal);
    JoinIsFlat(TextParts(AssembledAll(m.blocks)));
  }

  /** A tool called without input: streaming ends with no argument text at all, converting with the empty object. */
  lemma ToolWithoutPieces(id: string, name: string, usage: Usage, generatedID: string, marshal: Marshal)
    requires forall t :: marshal(t) != ""
    ensures var m := Message("msg", usage, [ToolBlock(id, name, [])], "tool_use", None);
            && Reassembled(MessageEvents(m), generatedID).calls == [ToolCall(id, name, "")]
            && Converted(ResponseOf(m), marshal).toolCalls == [ToolCall(id, name, marshal("{}"))]
            && Reassembled(MessageEvents(m), generatedID).calls != Converted(ResponseOf(m), marshal).toolCalls
  {
    var b := ToolBlock(id, name, []);
    var m := Message("msg", usage, [b], "tool_use", None);
    var start := EMPTY.(id := Some(MessageID(m, generatedID)));
    AlreadyLoud(m);
    StreamReassembles(m, MessageEvents(m), generatedID);
    assert [b][..0] == [];
    assert WithBlocks(start, [b]) == WithBlock(start, b);
    assert [] + [ToolCall(id, name, "")] == [ToolCall(id, name, "")];
    CallsAgree([b], start, marshal);
    assert [ToolCall(id, name, "")][..0] == [];
  }

  /** Nothing of a message by itself is quiet. */
  lemma {:induction false} LoudConcat(x: seq<Event>, y: seq<Event>)
    ensures Loud(x + y) == Loud(x) + Loud(y)
    decreases |x|
  {
    if x == [] {
      assert x + y == y;
    } else {
      var first := if Quiet(x[0]) then [] else [x[0]];
      LoudConcat(x[1..], y);
      assert (x + y)[0] == x[0] && (x + y)[1..] == x[1..] + y;
      assert Loud(x + y) == first + Loud(x[1..] + y);
      Assoc(first, Loud(x[1..]), Loud(y));
    }
  }

  lemma LoudOne(e: Event)
    requires !Quiet(e)
    ensures Loud([e]) == [e]
  {
    assert [e][1..] == [];
  }

  lemma {:induction false} LoudDeltas(k: DeltaKind, ds: seq<string>)
    ensures Loud(DeltaEvents(k, ds)) == DeltaEvents(k, ds)
  {
    if ds != [] {
      LoudDeltas(k, ds[1..]);
      assert !Quiet(Wrap(k, ds[0]));
      assert DeltaEvents(k, ds)[1..] == DeltaEvents(k, ds[1..]);
    }
  }

  lemma LoudBlock(b: StreamedBlock)
    ensures Loud(BlockEvents(b)) == BlockEvents(b)
  {
    var first := BlockStart(Some(Info(b)));
    LoudConcat([first] + Deltas(b), [BlockStop]);
    LoudConcat([first], Deltas(b));
    LoudOne(first);
    LoudOne(BlockStop);
    match b
    case TextBlock(texts) => LoudDeltas(ForText, texts);
    case ThinkingBlock(thoughts) => LoudDeltas(ForThinking, thoughts);
    case ToolBlock(_, _, fragments) => LoudDeltas(ForJson, fragments);
    case ForeignBlock(_, pieces) => LoudDeltas(ForJson, pieces);
  }

  lemma {:induction false} LoudBlocks(bs: seq<StreamedBlock>)
    ensures Loud(AllBlockEvents(bs)) == AllBlockEvents(bs)
  {
    if bs != [] {
      LoudBlocks(bs[..|bs| - 1]);
      LoudConcat(AllBlockEvents(bs[..|bs| - 1]), BlockEvents(bs[|bs| - 1]));
      LoudBlock(bs[|bs| - 1]);
    }
  }

  lemma AlreadyLoud(m: Message)
    requires m.stopReason != ""
    ensures Loud(MessageEvents(m)) == MessageEvents(m)
  {
    var first := MessageStart(Some(StartInfo(m.id, m.startUsage)));
    var last := MessageDelta(Some(m.stopReason), m.finalUsage);
    LoudConcat([first] + AllBlockEvents(m.blocks), [last]);
    LoudConcat([first], AllBlockEvents(m.blocks));
    LoudOne(first);
    LoudOne(last);
    LoudBlocks(m.blocks);
  }

  /** Prompt and cached counts always agree; the completion count does when the final event reports usage or the first
      one counted nothing; tokens written to the cache are reported only without streaming. */
  lemma UsageAgrees(m: Message, events: seq<Event>, generatedID: string, marshal: Marshal)
    requires m.Valid() && m.Tame() && Loud(events) == MessageEvents(m)
    ensures var a := Reassembled(events, generatedID);
            var r := Converted(ResponseOf(m), marshal);
            && a.usage.Some?
            && a.usage.value.prompt == r.usage.prompt
            && (a.usage.value.details.Some? <==> r.usage.details.Some?)
            && (r.usage.details.Some? ==> a.usage.value.details.value.cached == r.usage.details.value.cached)
            && (a.usage.value.total == r.usage.total <==> m.finalUsage.Some? || m.startUsage.output == 0)
            && (a.usage.value.completion == r.usage.completion <==> m.finalUsage.Some? || m.startUsage.output == 0)
            && (a.usage.value.details == r.usage.details <==> r.usage.details.None? || FinalUsage(m).cacheCreation == 0)
  {
    StreamReassembles(m, events, generatedID);
  }
}
