/** Binary frames read as lines by the stream converter behind the decoder
    (internal/converter/eventstream.go, internal/converter/converter.go). */
module EventLines {
  import opened Collections
  import opened EventStream
  import L = Lines
  import S = StreamLines
  import A = AnthropicStream

  function Text(b: seq<byte>): (s: string)
    ensures |s| == |b|
  {
    seq(|b|, i requires 0 <= i < |b| => b[i] as char)
  }

  /** The payloads that open are the texts of these events in order; other frames may stand anywhere. */
  predicate Carries(frames: seq<Frame>, events: seq<A.Event>, open: Envelope, enc: S.Encoder)
    decreases |frames|
  {
    if frames == [] then events == []
    else
      var inside := if frames[0].payload == [] then None else open(frames[0].payload);
      || (inside.None? && Carries(frames[1..], events, open, enc))
      || (inside.Some? && events != [] && Text(inside.value) == enc(events[0]) && Carries(frames[1..], events[1..], open, enc))
  }

  lemma EventIsTwoLines(decoded: seq<byte>, more: seq<byte>)
    requires L.OneLine(Text(decoded))
    ensures L.Ended(Text(Event(decoded) + more)) == ["data: " + Text(decoded), ""] + L.Ended(Text(more))
    ensures L.Rest(Text(Event(decoded) + more)) == L.Rest(Text(more))
  {
    var line := "data: " + Text(decoded);
    var s, rest := Text(Event(decoded) + more), "\n" + Text(more);
    assert s == line + "\n" + rest;
    L.FirstLine(line, rest);
    assert rest == "" + "\n" + Text(more);
    L.FirstLine("", Text(more));
  }

  lemma RenderedFirst(line: string, lines: seq<string>, events: seq<A.Event>, enc: S.Encoder, parse: A.Parser)
    requires events != [] && line == "data: " + enc(events[0]) && S.Rendered(lines, events[1..], enc, parse)
    ensures S.Rendered([line, ""] + lines, events, enc, parse)
  {
    var all := [line, ""] + lines;
    assert all[1..] == [""] + lines && ([""] + lines)[1..] == lines;
    assert S.Padding("", parse);
  }

  /** The lines written for frames that carry these events are the events rendered, and no line is left unfinished. */
  lemma {:induction false} EventsAreRendered(frames: seq<Frame>, events: seq<A.Event>, open: Envelope, enc: S.Encoder, parse: A.Parser)
    requires Carries(frames, events, open, enc) && forall e :: L.OneLine(enc(e))
    ensures S.Rendered(L.Ended(Text(Events(frames, open))), events, enc, parse)
    ensures L.Rest(Text(Events(frames, open))) == ""
    decreases |frames|
  {
    if frames != [] {
      var inside := if frames[0].payload == [] then None else open(frames[0].payload);
      var more := Events(frames[1..], open);
      if inside.None? {
        EventsAreRendered(frames[1..], events, open, enc, parse);
        assert Events(frames, open) == more;
      } else {
        EventsAreRendered(frames[1..], events[1..], open, enc, parse);
        EventIsTwoLines(inside.value, more);
        RenderedFirst("data: " + Text(inside.value), L.Ended(Text(more)), events, enc, parse);
      }
    }
  }

  /** What the decoder writes for whole frames is a rendering that the stream converter reads the events back from. */
  lemma FramesAreRendered(frames: seq<Frame>, events: seq<A.Event>, open: Envelope, enc: S.Encoder, parse: A.Parser)
    requires AllValid(frames) && Carries(frames, events, open, enc) && forall e :: L.OneLine(enc(e))
    ensures var decoded := Decoded(EncodeAll(frames), open);
      && decoded.ok && L.Rest(Text(decoded.output)) == ""
      && S.Rendered(L.Ended(Text(decoded.output)), events, enc, parse)
  {
    DecodesAll(frames, open);
    EventsAreRendered(frames, events, open, enc, parse);
  }

  // ----- what no frame should be, and what the decoder makes of it -----

  /** A prelude that leaves nothing behind itself is passed over, wherever it stands. */
  lemma EmptyFrameIsSkipped(prelude: seq<byte>, more: seq<byte>, open: Envelope)
    requires |prelude| == 12
    requires prelude[0] == prelude[1] == prelude[2] == 0 && prelude[3] <= 12
    ensures Decoded(prelude + more, open) == Decoded(more, open)
  {
    var input := prelude + more;
    assert input[..4] == prelude[..4] && input[PRELUDE_SIZE..] == more;
    assert Value(input[..4]) == prelude[3];
  }

  /** Headers that claim to reach into the checksum, or beyond the frame, leave no payload: the frame is passed over. */
  lemma HeadersWithoutPayload(prelude: seq<byte>, body: seq<byte>, more: seq<byte>, open: Envelope)
    requires |prelude| == 12 && 0 < |body| <= 0x100_0000
    requires Value(prelude[..4]) == 12 + |body| && Value(prelude[4..8]) + 4 >= |body|
    ensures Decoded(prelude + body + more, open) == Decoded(more, open)
  {
    var input := prelude + body + more;
    assert input[..4] == prelude[..4] && input[4..8] == prelude[4..8];
    assert input[PRELUDE_SIZE..][..|body|] == body && input[PRELUDE_SIZE..][|body|..] == more;
    assert [] + Decoded(more, open).output == Decoded(more, open).output;
  }

  /** Lengths are read most significant byte first. */
  lemma LengthsCompare(a: seq<byte>, b: seq<byte>, i: nat)
    requires |a| == |b| == 4 && i < 4 && a[..i] == b[..i] && a[i] < b[i]
    ensures Value(a) < Value(b)
  {
    assert forall j :: 0 <= j < i ==> a[j] == a[..i][j] == b[..i][j] == b[j];
  }
}
