/** The stream converter from its lines to its chunks: what a client puts together from the lines of a message, and of
    one that an error cuts short (internal/converter/anthropic/streaming.go). */
module StreamLines {
  import opened Collections
  import opened AnthropicResponse
  import opened AnthropicStream
  import opened StreamAgreement

  /** Writes an event so that the parser reads it back. */
  type Encoder = Event -> string

  ghost predicate ReadsBack(enc: Encoder, parse: Parser) {
    forall e :: parse(enc(e)) == Some(e)
  }

  /** A line that is no data, or whose data does not parse. */
  predicate Padding(line: string, parse: Parser) {
    !("data: " <= line) || parse(line[6..]).None?
  }

  /** The lines are the data lines of these events in order, with padding anywhere. */
  predicate Rendered(lines: seq<string>, events: seq<Event>, enc: Encoder, parse: Parser)
    decreases |lines|
  {
    if lines == [] then events == []
    else
      || (Padding(lines[0], parse) && Rendered(lines[1..], events, enc, parse))
      || (events != [] && lines[0] == "data: " + enc(events[0]) && Rendered(lines[1..], events[1..], enc, parse))
  }

  /** Padding aside, the converter reads exactly the events that were written. */
  lemma {:induction false} RenderedIsRead(lines: seq<string>, events: seq<Event>, enc: Encoder, parse: Parser)
    requires ReadsBack(enc, parse) && Rendered(lines, events, enc, parse)
    ensures Loud(EventsOf(lines, parse)) == Loud(events)
    decreases |lines|
  {
    if lines != [] {
      var read := EventsOf(lines, parse);
      assert read[0] == EventOf(lines[0], parse) && read[1..] == EventsOf(lines[1..], parse);
      if Padding(lines[0], parse) && Rendered(lines[1..], events, enc, parse) {
        RenderedIsRead(lines[1..], events, enc, parse);
        assert Quiet(read[0]);
        assert Loud(read) == [] + Loud(read[1..]) == Loud(read[1..]);
      } else {
        RenderedIsRead(lines[1..], events[1..], enc, parse);
        assert lines[0][6..] == enc(events[0]);
        assert read[0] == events[0];
      }
    }
  }

  /**
   Converts the lines of a message. The client is told the role first, and once; what it then puts together agrees with
   the message converted whole, on arguments exactly when every tool's pieces already read as its input is written, and
   on text exactly when at most one text block has any.
   */
  method ConvertLines(m: Message, lines: seq<string>, ghost enc: Encoder, parse: Parser, generatedID: string, ghost marshal: Marshal)
    returns (chunks: seq<Chunk>)
    requires m.Valid() && ReadsBack(enc, parse) && Rendered(lines, MessageEvents(m), enc, parse)
    ensures chunks != [] && chunks[0].role == "assistant" && forall i :: 1 <= i < |chunks| ==> chunks[i].role == ""
    ensures var a := AddAll(EMPTY, chunks);
            var r := Converted(ResponseOf(m), marshal);
            && (a.ok <==> m.Tame())
            && (m.Tame() ==>
                 && (m.id != "" ==> a.id == Some(r.id))
                 && a.reasoning == r.reasoning
                 && a.finish == Some(r.finishReason)
                 && SameTools(a.calls, r.toolCalls)
                 && (a.calls == r.toolCalls <==> forall b :: b in m.blocks ==> CanonicalInput(b, marshal))
                 && (a.content == r.content <==> |TextParts(AssembledAll(m.blocks))| <= 1))
    ensures m.Tame() ==>
      var finish := AddAll(EMPTY, chunks).finish;
      && (m.stopReason == "max_tokens" ==> finish == Some("length"))
      && (m.stopReason == "tool_use" ==> finish == Some("tool_calls"))
      && (m.stopReason == "content_filter" ==> finish == Some("content_filter"))
      && (m.stopReason !in {"max_tokens", "tool_use", "content_filter"} ==> finish == Some("stop"))
  {
    RenderedIsRead(lines, MessageEvents(m), enc, parse);
    AlreadyLoud(m);
    StreamAgreesWithResponse(m, EventsOf(lines, parse), generatedID, marshal);
    QuietEventsEmitNothing(Initial(generatedID), EventsOf(lines, parse));
    RoleComesFirst(m, generatedID);
    chunks := TransformAnthropicStreamToOpenAI(lines, parse, generatedID);
  }

  // ----- the role -----

  lemma {:induction false} NoMoreRoles(s: State, events: seq<Event>)
    requires !s.isFirst
    ensures forall c :: c in Emitted(s, events) ==> c.role == ""
    decreases |events|
  {
    if events != [] {
      NoMoreRoles(Step(s, events[0]).0, events[1..]);
    }
  }

  lemma RoleComesFirst(m: Message, generatedID: string)
    ensures var chunks := Emitted(Initial(generatedID), MessageEvents(m));
      chunks != [] && chunks[0].role == "assistant" && forall i :: 1 <= i < |chunks| ==> chunks[i].role == ""
  {
    var events, s := MessageEvents(m), Initial(generatedID);
    var step := Step(s, events[0]);
    NoMoreRoles(step.0, events[1..]);
    var rest := Emitted(step.0, events[1..]);
    assert Emitted(s, events) == step.1 + rest && |step.1| == 1;
    forall i | 1 <= i < |step.1 + rest| ensures (step.1 + rest)[i].role == "" {
      assert (step.1 + rest)[i] == rest[i - 1] && rest[i - 1] in rest;
    }
  }

  // ----- errors in the stream -----

  lemma {:induction false} EmittedConcat(s: State, x: seq<Event>, y: seq<Event>, a: Acc)
    ensures Emitted(s, x + y) == Emitted(s, x) + Emitted(FeedAll(Both(s, a), x).s, y)
    decreases |x|
  {
    if x == [] {
      assert x + y == y;
    } else {
      var step := Step(s, x[0]);
      assert (x + y)[1..] == x[1..] + y;
      EmittedConcat(step.0, x[1..], y, AddAll(a, step.1));
      Assoc(step.1, Emitted(step.0, x[1..]), Emitted(FeedAll(Both(s, a), x).s, y));
    }
  }

  /** What the client is told of an error event: its message, or a general one, and that this is the end. */
  ghost predicate TellsError(chunk: Chunk, message: string) {
    && chunk.content == (if message == "" then "anthropic stream error" else message)
    && chunk.finishReason == Some("stop")
    && chunk.role == "" && chunk.reasoning == "" && chunk.tool == None && chunk.usage == None
  }

  /** Wherever an error event stands, it is told between what stands before it and after. */
  lemma ErrorIsTold(s: State, before: seq<Event>, message: string, after: seq<Event>) returns (chunk: Chunk, t: State)
    ensures TellsError(chunk, message)
    ensures Emitted(s, before + [ErrorEvent(message)] + after) == Emitted(s, before) + [chunk] + Emitted(t, after)
  {
    t := FeedAll(Both(s, EMPTY), before).s;
    chunk := Step(t, ErrorEvent(message)).1[0];
    var cut := [ErrorEvent(message)] + after;
    assert before + [ErrorEvent(message)] + after == before + cut;
    EmittedConcat(s, before, cut, EMPTY);
    assert cut[1..] == after;
    Assoc(Emitted(s, before), [chunk], Emitted(t, after));
  }

  lemma {:induction false} OneID(p: Both, events: seq<Event>)
    requires forall e :: e in events ==> !e.MessageStart?
    requires p.a.id.None? || p.a.id == Some(p.s.chatID)
    ensures var q := FeedAll(p, events);
      q.s.chatID == p.s.chatID && (q.a.id.None? || q.a.id == Some(q.s.chatID))
    decreases |events|
  {
    if events != [] {
      var chunks := Step(p.s, events[0]).1;
      assert events[0] in events;
      OneIDStep(p, events[0]);
      OneID(Feed(p, events[0]), events[1..]);
    }
  }

  lemma OneIDStep(p: Both, e: Event)
    requires !e.MessageStart? && (p.a.id.None? || p.a.id == Some(p.s.chatID))
    ensures var q := Feed(p, e);
      q.s.chatID == p.s.chatID && (q.a.id.None? || q.a.id == Some(q.s.chatID))
  {
    var chunks := Step(p.s, e).1;
    if chunks != [] {
      assert chunks == [chunks[0]] && chunks[0].id == p.s.chatID;
      AddOne(p.a, chunks[0]);
    }
  }

  lemma {:induction false} BlocksStartNoMessage(bs: seq<StreamedBlock>, e: Event)
    requires e in AllBlockEvents(bs)
    ensures !e.MessageStart?
  {
    var b := bs[|bs| - 1];
    if e in AllBlockEvents(bs[..|bs| - 1]) {
      BlocksStartNoMessage(bs[..|bs| - 1], e);
    } else if e in Deltas(b) {
      match b
      case TextBlock(ds) => DeltasAreDeltas(ForText, ds, e);
      case ThinkingBlock(ds) => DeltasAreDeltas(ForThinking, ds, e);
      case ToolBlock(_, _, ds) => DeltasAreDeltas(ForJson, ds, e);
      case ForeignBlock(_, ds) => DeltasAreDeltas(ForJson, ds, e);
    }
  }

  lemma {:induction false} DeltasAreDeltas(k: DeltaKind, ds: seq<string>, e: Event)
    requires e in DeltaEvents(k, ds)
    ensures e.BlockDelta?
  {
    if e != Wrap(k, ds[0]) {
      DeltasAreDeltas(k, ds[1..], e);
    }
  }

  lemma PrefixIsOk(p: Both, events: seq<Event>, n: nat)
    requires n <= |events| && FeedAll(p, events).a.ok
    ensures FeedAll(p, events[..n]).a.ok
  {
    FeedAllConcat(p, events[..n], events[n..]);
    assert events[..n] + events[n..] == events;
    if !FeedAll(p, events[..n]).a.ok {
      BrokenStaysBroken(FeedAll(p, events[..n]), events[n..]);
    }
  }

  lemma CutIsOk(m: Message, events: seq<Event>, n: nat, generatedID: string)
    requires m.Valid() && m.Tame() && events == MessageEvents(m) && n <= |events|
    ensures FeedAll(Both(Initial(generatedID), EMPTY), events[..n]).a.ok
  {
    AlreadyLoud(m);
    FragmentsFollowOpenings(m, events, generatedID);
    FeedingIsReassembly(Both(Initial(generatedID), EMPTY), events);
    PrefixIsOk(Both(Initial(generatedID), EMPTY), events, n);
  }

  lemma ErrorIsFed(p: Both, message: string)
    requires p.a.ok && (p.a.id.None? || p.a.id == Some(p.s.chatID))
    ensures var b := Feed(p, ErrorEvent(message)).a;
      && b.ok && b.finish == Some("stop")
      && b.content == p.a.content + (if message == "" then "anthropic stream error" else message)
      && b.reasoning == p.a.reasoning && b.calls == p.a.calls
  {
    AddOne(p.a, Step(p.s, ErrorEvent(message)).1[0]);
    Unchanged(p.a);
  }

  /** A message cut short anywhere by an error: the client has what came before, then the error, and knows it is over. */
  lemma ErrorEndsStream(m: Message, n: nat, message: string, generatedID: string)
    requires m.Valid() && m.Tame() && n <= |MessageEvents(m)|
    ensures var a := Reassembled(MessageEvents(m)[..n], generatedID);
      var b := Reassembled(MessageEvents(m)[..n] + [ErrorEvent(message)], generatedID);
      && a.ok && b.ok && b.finish == Some("stop")
      && b.content == a.content + (if message == "" then "anthropic stream error" else message)
      && b.reasoning == a.reasoning && b.calls == a.calls
  {
    var start, cut := Both(Initial(generatedID), EMPTY), MessageEvents(m)[..n];
    CutIsOk(m, MessageEvents(m), n, generatedID);
    CutID(m, n, generatedID);
    ErrorIsFed(FeedAll(start, cut), message);
    FeedingIsReassembly(start, cut);
    FeedingIsReassembly(start, cut + [ErrorEvent(message)]);
    FeedAllConcat(start, cut, [ErrorEvent(message)]);
    FeedOne(FeedAll(start, cut), ErrorEvent(message));
  }

  lemma CutID(m: Message, n: nat, generatedID: string)
    requires n <= |MessageEvents(m)|
    ensures var p := FeedAll(Both(Initial(generatedID), EMPTY), MessageEvents(m)[..n]);
      p.a.id.None? || p.a.id == Some(p.s.chatID)
  {
    if n > 0 {
      var start, events := Both(Initial(generatedID), EMPTY), MessageEvents(m)[..n];
      forall e | e in events[1..] ensures !e.MessageStart? {
        var i :| 1 <= i < n && events[i] == e;
        if i < |MessageEvents(m)| - 1 {
          assert e == AllBlockEvents(m.blocks)[i - 1];
          BlocksStartNoMessage(m.blocks, e);
        }
      }
      var chunks := Step(start.s, events[0]).1;
      AddOne(EMPTY, chunks[0]);
      assert chunks == [chunks[0]];
      OneID(Feed(start, events[0]), events[1..]);
    }
  }
}
