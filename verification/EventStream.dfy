/** Binary event-stream frames decoded to server-sent events (internal/converter/eventstream.go).
    Opening the JSON and base64 envelope of a payload is a parameter. */
module EventStream {
  import opened Collections

  type byte = x: int | 0 <= x < 256

  const MAX_FRAME_SIZE := 16 * 1024 * 1024
  const PRELUDE_SIZE := 12
  const CRC_SIZE := 4

  /** "data: " and two line feeds. */
  const DATA: seq<byte> := [100, 97, 116, 97, 58, 32]
  const END: seq<byte> := [10, 10]

  // ----- big-endian lengths -----

  function Value(b: seq<byte>): nat
    requires |b| == 4
  {
    (b[0] as int) * 0x100_0000 + (b[1] as int) * 0x1_0000 + (b[2] as int) * 0x100 + b[3] as int
  }

  function Uint32(n: nat): (b: seq<byte>)
    requires n < 0x1_0000_0000
    ensures |b| == 4 && Value(b) == n
  {
    [n / 0x100_0000, n / 0x1_0000 % 0x100, n / 0x100 % 0x100, n % 0x100]
  }

  // ----- the decoder as a function of the bytes still to read -----

  type Envelope = seq<byte> -> Option<seq<byte>>

  /** What was written, and whether the stream ended without an error. */
  datatype Outcome = Outcome(output: seq<byte>, ok: bool)

  function Event(decoded: seq<byte>): seq<byte> {
    DATA + decoded + END
  }

  function PayloadEvent(payload: seq<byte>, open: Envelope): seq<byte> {
    match open(payload)
    case None => []
    case Some(decoded) => Event(decoded)
  }

  /** The event of a frame body: headers, payload, checksum. */
  function BodyEvent(body: seq<byte>, headersLength: nat, open: Envelope): seq<byte> {
    if headersLength >= |body| - CRC_SIZE then []
    else PayloadEvent(body[headersLength..|body| - CRC_SIZE], open)
  }

  /** What the next bytes amount to: the end of the stream, an oversized frame, nothing or a frame body. */
  datatype Step = Ended | TooLarge | Skipped(rest: seq<byte>)
                | Body(body: seq<byte>, headersLength: nat, rest: seq<byte>)

  function Next(input: seq<byte>): (step: Step)
    ensures step.Skipped? || step.Body? ==> |step.rest| < |input|
  {
    if |input| < PRELUDE_SIZE then Ended
    else
      var remaining := Value(input[..4]) - PRELUDE_SIZE;
      var rest := input[PRELUDE_SIZE..];
      if remaining <= 0 then Skipped(rest)
      else if remaining > MAX_FRAME_SIZE then TooLarge
      else if |rest| < remaining then Ended
      else Body(rest[..remaining], Value(input[4..8]), rest[remaining..])
  }

  function Decoded(input: seq<byte>, open: Envelope): Outcome
    decreases |input|
  {
    match Next(input)
    case Ended => Outcome([], true)
    case TooLarge => Outcome([], false)
    case Skipped(rest) => Decoded(rest, open)
    case Body(body, headersLength, rest) =>
      Outcome(BodyEvent(body, headersLength, open) + Decoded(rest, open).output, Decoded(rest, open).ok)
  }

  // ----- the decoder -----

  class Reader {
    var rest: seq<byte>

    constructor (data: seq<byte>)
      ensures rest == data
    {
      rest := data;
    }

    /** Fills the buffer, or reports the end of the stream after consuming what was left. */
    method ReadFull(buffer: array<byte>) returns (full: bool)
      modifies this, buffer
      ensures full <==> |old(rest)| >= buffer.Length
      ensures full ==> buffer[..] == old(rest)[..buffer.Length] && rest == old(rest)[buffer.Length..]
      ensures !full ==> rest == []
    {
      var n := buffer.Length;
      var i := 0;
      while i < n && i < |rest|
        modifies buffer
        invariant 0 <= i <= n && i <= |rest|
        invariant buffer[..i] == rest[..i]
      {
        buffer[i] := rest[i];
        i := i + 1;
      }
      full := i == n;
      rest := rest[i..];
    }
  }

  class Writer {
    var written: seq<byte>

    constructor ()
      ensures written == []
    {
      written := [];
    }

    method Write(data: seq<byte>)
      modifies this
      ensures written == old(written) + data
    {
      written := written + data;
    }
  }

  /** The event of one frame body, if its payload opens. */
  method WriteBody(frame: seq<byte>, headersLength: nat, writer: Writer, open: Envelope)
    modifies writer
    ensures writer.written == old(writer.written) + BodyEvent(frame, headersLength, open)
  {
    var payloadEnd := |frame| - CRC_SIZE;
    if headersLength >= payloadEnd {
      return;
    }
    var contents := open(frame[headersLength..payloadEnd]);
    if contents.None? {
      return;
    }
    writer.Write(Event(contents.value));
  }

  method ReadFrame(reader: Reader, prelude: array<byte>) returns (step: Step)
    requires prelude.Length == PRELUDE_SIZE
    modifies reader, prelude
    ensures step == Next(old(reader.rest))
    ensures step.Skipped? || step.Body? ==> reader.rest == step.rest
  {
    ghost var input := reader.rest;
    var full := reader.ReadFull(prelude);
    if !full {
      return Ended;
    }
    assert prelude[0..4] == input[..4] && prelude[4..8] == input[4..8];
    var remaining := Value(prelude[0..4]) - PRELUDE_SIZE;
    var headersLength := Value(prelude[4..8]);
    if remaining <= 0 {
      return Skipped(reader.rest);
    }
    if remaining > MAX_FRAME_SIZE {
      return TooLarge;
    }
    var frame := new byte[remaining];
    full := reader.ReadFull(frame);
    if !full {
      return Ended;
    }
    step := Body(frame[..], headersLength, reader.rest);
  }

  /** Whatever the input, reading stops, stays within it and writes what the function says. */
  method DecodeEventStreamToSSE(reader: Reader, writer: Writer, open: Envelope) returns (ok: bool)
    modifies reader, writer
    ensures writer.written == old(writer.written) + Decoded(old(reader.rest), open).output
    ensures ok == Decoded(old(reader.rest), open).ok
  {
    var prelude := new byte[PRELUDE_SIZE];
    ghost var all := Decoded(reader.rest, open);
    while true
      invariant writer.written + Decoded(reader.rest, open).output == old(writer.written) + all.output
      invariant Decoded(reader.rest, open).ok == all.ok
      decreases |reader.rest|
    {
      var step := ReadFrame(reader, prelude);
      match step
      case Ended => return true;
      case TooLarge => return false;
      case Skipped(_) =>
      case Body(body, headersLength, _) =>
        Assoc(writer.written, BodyEvent(body, headersLength, open), Decoded(reader.rest, open).output);
        WriteBody(body, headersLength, writer, open);
    }
  }

  // ----- framing -----

  datatype Frame = Frame(headers: seq<byte>, payload: seq<byte>, preludeCrc: seq<byte>, crc: seq<byte>) {
    predicate Valid() {
      |preludeCrc| == CRC_SIZE && |crc| == CRC_SIZE && |headers| + |payload| + CRC_SIZE <= MAX_FRAME_SIZE
    }

    function Content(): seq<byte> {
      headers + payload + crc
    }

    function Encode(): (b: seq<byte>)
      requires Valid()
      ensures |b| == PRELUDE_SIZE + |Content()|
    {
      Uint32(PRELUDE_SIZE + |Content()|) + Uint32(|headers|) + preludeCrc + Content()
    }

    /** A frame without a payload carries no event. */
    function EventOf(open: Envelope): seq<byte> {
      if payload == [] then [] else PayloadEvent(payload, open)
    }
  }

  ghost predicate AllValid(frames: seq<Frame>) {
    forall f :: f in frames ==> f.Valid()
  }

  function EncodeAll(frames: seq<Frame>): seq<byte>
    requires AllValid(frames)
  {
    if frames == [] then [] else frames[0].Encode() + EncodeAll(frames[1..])
  }

  function Events(frames: seq<Frame>, open: Envelope): seq<byte> {
    if frames == [] then [] else frames[0].EventOf(open) + Events(frames[1..], open)
  }

  /** How many frames lie wholly within the first n bytes. */
  function Whole(frames: seq<Frame>, n: nat): (k: nat)
    requires AllValid(frames)
    ensures k <= |frames|
  {
    if frames == [] || |frames[0].Encode()| > n then 0 else 1 + Whole(frames[1..], n - |frames[0].Encode()|)
  }

  lemma EncodeFields(f: Frame)
    requires f.Valid()
    ensures Value(f.Encode()[..4]) == PRELUDE_SIZE + |f.Content()|
    ensures Value(f.Encode()[4..8]) == |f.headers|
    ensures f.Encode()[PRELUDE_SIZE..] == f.Content()
  {
    var total, headers := Uint32(PRELUDE_SIZE + |f.Content()|), Uint32(|f.headers|);
    assert f.Encode()[..4] == total;
    assert f.Encode()[4..8] == headers;
  }

  lemma BodyCarriesPayload(f: Frame, open: Envelope)
    requires f.Valid()
    ensures BodyEvent(f.Content(), |f.headers|, open) == f.EventOf(open)
  {
    assert f.Content()[|f.headers|..|f.Content()| - CRC_SIZE] == f.payload;
  }

  lemma PrefixFields(f: Frame, x: seq<byte>)
    requires f.Valid()
    ensures |f.Encode() + x| >= PRELUDE_SIZE
    ensures (f.Encode() + x)[..4] == f.Encode()[..4]
    ensures (f.Encode() + x)[4..8] == f.Encode()[4..8]
    ensures (f.Encode() + x)[PRELUDE_SIZE..] == f.Encode()[PRELUDE_SIZE..] + x
  {
  }

  /** A whole frame yields its event, and decoding goes on behind it. */
  lemma DecodesFrame(f: Frame, x: seq<byte>, open: Envelope)
    requires f.Valid()
    ensures Decoded(f.Encode() + x, open) ==
            Outcome(f.EventOf(open) + Decoded(x, open).output, Decoded(x, open).ok)
  {
    EncodeFields(f);
    PrefixFields(f, x);
    BodyCarriesPayload(f, open);
    var rest := f.Content() + x;
    assert rest[..|f.Content()|] == f.Content() && rest[|f.Content()|..] == x;
  }

  /** A frame cut short yields nothing and no error. */
  lemma DecodesPartialFrame(f: Frame, n: nat, open: Envelope)
    requires f.Valid() && n < |f.Encode()|
    ensures Decoded(f.Encode()[..n], open) == Outcome([], true)
  {
    EncodeFields(f);
    if n >= PRELUDE_SIZE {
      var cut := f.Encode()[..n];
      assert cut[..4] == f.Encode()[..4];
      assert |cut[PRELUDE_SIZE..]| < |f.Content()|;
    }
  }

  lemma WholeFrameFirst(frames: seq<Frame>, n: nat)
    requires AllValid(frames) && frames != [] && |frames[0].Encode()| <= n <= |EncodeAll(frames)|
    ensures EncodeAll(frames)[..n] == frames[0].Encode() + EncodeAll(frames[1..])[..n - |frames[0].Encode()|]
  {
  }

  lemma PartOfFirst(frames: seq<Frame>, n: nat)
    requires AllValid(frames) && frames != [] && n < |frames[0].Encode()|
    ensures n <= |EncodeAll(frames)| && EncodeAll(frames)[..n] == frames[0].Encode()[..n]
    ensures Whole(frames, n) == 0
  {
  }

  lemma EventsOfMore(frames: seq<Frame>, k: nat, open: Envelope)
    requires k < |frames|
    ensures Events(frames[..k + 1], open) == frames[0].EventOf(open) + Events(frames[1..][..k], open)
  {
    assert frames[..k + 1][0] == frames[0] && frames[..k + 1][1..] == frames[1..][..k];
  }

  /** Behind a whole first frame the rest decodes as it would alone. */
  lemma DecodesBehindFirst(frames: seq<Frame>, n: nat, k: nat, open: Envelope)
    requires AllValid(frames) && frames != [] && |frames[0].Encode()| <= n <= |EncodeAll(frames)| && k < |frames|
    requires Decoded(EncodeAll(frames[1..])[..n - |frames[0].Encode()|], open) == Outcome(Events(frames[1..][..k], open), true)
    ensures Decoded(EncodeAll(frames)[..n], open) == Outcome(Events(frames[..k + 1], open), true)
  {
    WholeFrameFirst(frames, n);
    DecodesFrame(frames[0], EncodeAll(frames[1..])[..n - |frames[0].Encode()|], open);
    EventsOfMore(frames, k, open);
  }

  lemma DecodesPartOfFirst(frames: seq<Frame>, n: nat, open: Envelope)
    requires AllValid(frames) && frames != [] && n < |frames[0].Encode()|
    ensures n <= |EncodeAll(frames)| && Decoded(EncodeAll(frames)[..n], open) == Outcome([], true) && Whole(frames, n) == 0
  {
    PartOfFirst(frames, n);
    DecodesPartialFrame(frames[0], n, open);
  }

  /** Decoding inverts framing: of any truncation, exactly the events of the whole frames, in order. */
  lemma {:induction false} DecodingInvertsFraming(frames: seq<Frame>, n: nat, open: Envelope)
    requires AllValid(frames) && n <= |EncodeAll(frames)|
    ensures Decoded(EncodeAll(frames)[..n], open) == Outcome(Events(frames[..Whole(frames, n)], open), true)
    decreases |frames|
  {
    if frames != [] {
      if n < |frames[0].Encode()| {
        DecodesPartOfFirst(frames, n, open);
        assert frames[..0] == [];
      } else {
        var m := n - |frames[0].Encode()|;
        DecodingInvertsFraming(frames[1..], m, open);
        assert Whole(frames, n) == Whole(frames[1..], m) + 1;
        DecodesBehindFirst(frames, n, Whole(frames[1..], m), open);
      }
    }
  }

  /** Nothing cut off: every frame's event. */
  lemma DecodesAll(frames: seq<Frame>, open: Envelope)
    requires AllValid(frames)
    ensures Decoded(EncodeAll(frames), open) == Outcome(Events(frames, open), true)
  {
    AllAreWhole(frames);
    DecodingInvertsFraming(frames, |EncodeAll(frames)|, open);
    assert EncodeAll(frames)[..|EncodeAll(frames)|] == EncodeAll(frames);
    assert frames[..|frames|] == frames;
  }

  lemma {:induction false} AllAreWhole(frames: seq<Frame>)
    requires AllValid(frames)
    ensures Whole(frames, |EncodeAll(frames)|) == |frames|
  {
    if frames != [] { AllAreWhole(frames[1..]); }
  }

  /** After whole frames, a prelude that announces too much is an error; the earlier events stay written. */
  lemma {:induction false} OversizeAfterFrames(frames: seq<Frame>, x: seq<byte>, open: Envelope)
    requires AllValid(frames)
    requires |x| >= PRELUDE_SIZE && Value(x[..4]) > PRELUDE_SIZE + MAX_FRAME_SIZE
    ensures Decoded(EncodeAll(frames) + x, open) == Outcome(Events(frames, open), false)
  {
    if frames == [] {
      assert [] + x == x;
    } else {
      OversizeAfterFrames(frames[1..], x, open);
      assert EncodeAll(frames) + x == frames[0].Encode() + (EncodeAll(frames[1..]) + x);
      DecodesFrame(frames[0], EncodeAll(frames[1..]) + x, open);
    }
  }
}
