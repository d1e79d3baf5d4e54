/** Line rewriting and event scanning on streams that arrive in arbitrary chunks
    (internal/converter/converter.go, internal/proxy/stream.go). */
module LineChunking {
  import opened Collections
  import opened Lines

  // ----- the model alias writer -----

  /** Each ended line rewritten with its line feed. */
  function Rewrite(lines: seq<string>, f: string -> string): string {
    if lines == [] then "" else Rewrite(lines[..|lines| - 1], f) + f(lines[|lines| - 1] + "\n")
  }

  function FlushText(pending: string, f: string -> string): string {
    if pending == "" then "" else f(pending)
  }

  /** The whole text rewritten line by line. */
  function RewriteText(s: string, f: string -> string): string {
    Rewrite(Ended(s), f) + FlushText(Rest(s), f)
  }

  lemma {:induction false} RewriteConcat(a: seq<string>, b: seq<string>, f: string -> string)
    ensures Rewrite(a + b, f) == Rewrite(a, f) + Rewrite(b, f)
  {
    if b == [] {
      assert a + b == a;
    } else {
      var n := |b| - 1;
      RewriteConcat(a, b[..n], f);
      assert (a + b)[..|a + b| - 1] == a + b[..n];
      Assoc(Rewrite(a, f), Rewrite(b[..n], f), f(b[n] + "\n"));
    }
  }

  /** What will have been written once every ended line of s is. */
  ghost function Settled(written: string, s: string, f: string -> string): string {
    written + Rewrite(Ended(s), f)
  }

  lemma RewriteFirst(line: string, lines: seq<string>, f: string -> string)
    ensures Rewrite([line] + lines, f) == f(line + "\n") + Rewrite(lines, f)
  {
    RewriteConcat([line], lines, f);
    assert [line][..0] == [];
    assert "" + f(line + "\n") == f(line + "\n");
  }

  lemma SettleLine(written: string, line: string, more: string, f: string -> string)
    requires OneLine(line)
    ensures Rest(line + "\n" + more) == Rest(more)
    ensures Settled(written, line + "\n" + more, f) == Settled(written + f(line + "\n"), more, f)
  {
    FirstLine(line, more);
    RewriteFirst(line, Ended(more), f);
    Assoc(written, f(line + "\n"), Rewrite(Ended(more), f));
  }

  /** A line is rewritten together with its line feed, and what is left at the end without one. */
  lemma TextRewritten(line: string, more: string, tail: string, f: string -> string)
    requires OneLine(line) && OneLine(tail)
    ensures RewriteText(line + "\n" + more, f) == f(line + "\n") + RewriteText(more, f)
    ensures RewriteText(tail, f) == if tail == "" then "" else f(tail)
  {
    FirstLine(line, more);
    RewriteFirst(line, Ended(more), f);
    Assoc(f(line + "\n"), Rewrite(Ended(more), f), FlushText(Rest(more), f));
    OneLineStays(tail);
    assert "" + FlushText(tail, f) == FlushText(tail, f);
  }

  class AliasWriter {
    const replace: string -> string
    var written: string
    var pending: string

    constructor (f: string -> string)
      ensures replace == f && written == "" && pending == ""
    {
      replace := f;
      written := "";
      pending := "";
    }

    method Write(p: string)
      modifies this
      ensures written == old(written) + Rewrite(Ended(old(pending) + p), replace)
      ensures pending == Rest(old(pending) + p)
    {
      pending := pending + p;
      ghost var all := pending;
      while true
        invariant Settled(written, pending, replace) == Settled(old(written), all, replace)
        invariant Rest(pending) == Rest(all)
        decreases |pending|
      {
        var lineEnd := IndexByte(pending);
        IndexByteIsFirst(pending);
        if lineEnd == |pending| {
          assert pending[..lineEnd] == pending;
          OneLineStays(pending);
          assert written + "" == written;
          return;
        }
        var line := pending[..lineEnd + 1];
        assert line == pending[..lineEnd] + "\n" && pending == line + pending[lineEnd + 1..];
        SettleLine(written, pending[..lineEnd], pending[lineEnd + 1..], replace);
        written := written + replace(line);
        pending := pending[lineEnd + 1..];
      }
    }

    method Flush()
      modifies this
      ensures written == old(written) + FlushText(old(pending), replace)
      ensures pending == ""
    {
      if |pending| == 0 {
        return;
      }
      written := written + replace(pending);
      pending := "";
    }
  }

  /** Whatever the writes were, after the flush the output is the whole input rewritten line by line. */
  method RewriteChunks(chunks: seq<string>, f: string -> string) returns (output: string)
    ensures output == RewriteText(Concat(chunks), f)
  {
    var w := new AliasWriter(f);
    for i := 0 to |chunks|
      invariant w.replace == f
      invariant w.written == Rewrite(Ended(Concat(chunks[..i])), f)
      invariant w.pending == Rest(Concat(chunks[..i]))
    {
      assert chunks[..i + 1][..i] == chunks[..i];
      LinesOfMore(Concat(chunks[..i]), chunks[i]);
      RewriteConcat(Ended(Concat(chunks[..i])), Ended(w.pending + chunks[i]), f);
      w.Write(chunks[i]);
    }
    assert chunks[..|chunks|] == chunks;
    w.Flush();
    output := w.written;
  }

  // ----- the event scanner -----

  const DATA := "data: "

  function TrimCR(s: string): string {
    if s != "" && s[|s| - 1] == '\r' then TrimCR(s[..|s| - 1]) else s
  }

  /** The payload of a data line that carries one. */
  function Payload(line: string): seq<string> {
    var s := TrimCR(line);
    if DATA <= s && s[|DATA|..] != "" && s[|DATA|..] != "[DONE]" then [s[|DATA|..]] else []
  }

  function Returns(k: nat): string {
    if k == 0 then "" else Returns(k - 1) + "\r"
  }

  lemma {:induction false} TrimCRStops(s: string, k: nat)
    requires s != "" && s[|s| - 1] != '\r'
    ensures TrimCR(s + Returns(k)) == s
  {
    if k == 0 {
      assert s + "" == s;
    } else {
      TrimCRStops(s, k - 1);
      assert (s + Returns(k))[..|s + Returns(k)| - 1] == s + Returns(k - 1);
    }
  }

  /** However many carriage returns end the line, its payload is what stands behind the prefix. */
  lemma DataLineCarriesPayload(x: string, k: nat)
    requires x != "" && x[|x| - 1] != '\r'
    ensures Payload(DATA + x + Returns(k)) == if x == "[DONE]" then [] else [x]
  {
    TrimCRStops(DATA + x, k);
    assert (DATA + x)[|DATA|..] == x;
  }

  lemma {:induction false} TrimCRKeeps(s: string) returns (k: nat)
    ensures s == TrimCR(s) + Returns(k)
    ensures TrimCR(s) != "" ==> TrimCR(s)[|TrimCR(s)| - 1] != '\r'
  {
    if s != "" && s[|s| - 1] == '\r' {
      k := TrimCRKeeps(s[..|s| - 1]);
      assert s == s[..|s| - 1] + "\r" == TrimCR(s) + (Returns(k) + "\r");
      k := k + 1;
    } else {
      k := 0;
      assert s + "" == s;
    }
  }

  /** Any other line carries nothing. */
  lemma OnlyDataLinesCarry(line: string)
    ensures Payload(line) == [] || exists x, k: nat ::
      Payload(line) == [x] && x != "" && x != "[DONE]" && line == "data: " + x + Returns(k)
  {
    var s := TrimCR(line);
    var k := TrimCRKeeps(line);
    if Payload(line) != [] {
      var x := s[|DATA|..];
      assert s == "data: " + x;
      assert Payload(line) == [x] && line == "data: " + x + Returns(k);
    }
  }

  /** What every line contributes, in order. */
  function Gather(lines: seq<string>, f: string -> seq<string>): seq<string> {
    if lines == [] then [] else Gather(lines[..|lines| - 1], f) + f(lines[|lines| - 1])
  }

  lemma GatherSnoc(a: seq<string>, line: string, f: string -> seq<string>)
    ensures Gather(a + [line], f) == Gather(a, f) + f(line)
  {
    assert (a + [line])[..|a|] == a;
  }

  lemma SplitLast(a: seq<string>, b: seq<string>)
    requires b != []
    ensures a + b == a + b[..|b| - 1] + [b[|b| - 1]]
  {
  }

  lemma {:induction false} GatherConcat(a: seq<string>, b: seq<string>, f: string -> seq<string>)
    ensures Gather(a + b, f) == Gather(a, f) + Gather(b, f)
  {
    if b == [] {
      assert a + b == a;
    } else {
      var front, last := b[..|b| - 1], b[|b| - 1];
      GatherConcat(a, front, f);
      SplitLast(a, b);
      GatherSnoc(a + front, last, f);
      Assoc(Gather(a, f), Gather(front, f), f(last));
    }
  }

  function Payloads(lines: seq<string>): seq<string> {
    Gather(lines, Payload)
  }

  /** A completed response, with its total tokens when it reports usage. */
  datatype Completed = NotCompleted | Completed(usage: Usage)
  datatype Usage = NoUsage | Total(tokens: int)

  type Parser = string -> Completed

  /** What the scan of a stream leaves behind. */
  datatype Scan = Scan(totalTokens: int, completedPayload: string, completions: seq<string>)

  function Scanned(scan: Scan, payload: string, parse: Parser): Scan {
    match parse(payload)
    case NotCompleted => scan
    case Completed(usage) =>
      Scan(if usage.Total? then usage.tokens else scan.totalTokens, payload, scan.completions + [payload])
  }

  function ScanAll(payloads: seq<string>, parse: Parser): Scan {
    if payloads == [] then Scan(0, "", [])
    else Scanned(ScanAll(payloads[..|payloads| - 1], parse), payloads[|payloads| - 1], parse)
  }

  /** The last payload from some point on that is a completed response. */
  ghost predicate LastCompleted(payloads: seq<string>, parse: Parser, i: nat) {
    && i < |payloads| && parse(payloads[i]).Completed?
    && forall j :: i < j < |payloads| ==> parse(payloads[j]).NotCompleted?
  }

  /** The last one that reports usage. */
  ghost predicate LastReporting(payloads: seq<string>, parse: Parser, i: nat) {
    && i < |payloads| && parse(payloads[i]).Completed? && parse(payloads[i]).usage.Total?
    && forall j :: i < j < |payloads| ==> !(parse(payloads[j]).Completed? && parse(payloads[j]).usage.Total?)
  }

  lemma {:induction false} LastCompletedIsKept(payloads: seq<string>, parse: Parser, i: nat)
    requires LastCompleted(payloads, parse, i)
    ensures ScanAll(payloads, parse).completedPayload == payloads[i]
  {
    var n := |payloads| - 1;
    if i < n {
      LastCompletedIsKept(payloads[..n], parse, i);
    }
  }

  lemma {:induction false} LastReportingIsKept(payloads: seq<string>, parse: Parser, i: nat)
    requires LastReporting(payloads, parse, i)
    ensures ScanAll(payloads, parse).totalTokens == parse(payloads[i]).usage.tokens
  {
    var n := |payloads| - 1;
    if i < n {
      LastReportingIsKept(payloads[..n], parse, i);
    }
  }

  lemma {:induction false} NothingIsKept(payloads: seq<string>, parse: Parser)
    ensures (forall p :: p in payloads ==> parse(p).NotCompleted?) ==> ScanAll(payloads, parse).completedPayload == ""
    ensures (forall p :: p in payloads && parse(p).Completed? ==> parse(p).usage.NoUsage?) ==> ScanAll(payloads, parse).totalTokens == 0
    ensures ScanAll(payloads, parse).completions == Gather(payloads, p => if parse(p).Completed? then [p] else [])
  {
    if payloads != [] {
      var n := |payloads| - 1;
      NothingIsKept(payloads[..n], parse);
      assert payloads == payloads[..n] + [payloads[n]];
    }
  }

  /** The scan keeps the last completed payload, the total of the last one that reports usage, and every completed payload
      in order. */
  lemma ScanKeepsLast(payloads: seq<string>, parse: Parser)
    ensures var scan := ScanAll(payloads, parse);
      && (forall i: nat :: LastCompleted(payloads, parse, i) ==> scan.completedPayload == payloads[i])
      && (forall i: nat :: LastReporting(payloads, parse, i) ==> scan.totalTokens == parse(payloads[i]).usage.tokens)
      && ((forall p :: p in payloads ==> parse(p).NotCompleted?) ==> scan.completedPayload == "")
      && ((forall p :: p in payloads && parse(p).Completed? ==> parse(p).usage.NoUsage?) ==> scan.totalTokens == 0)
      && scan.completions == Gather(payloads, p => if parse(p).Completed? then [p] else [])
  {
    forall i: nat | LastCompleted(payloads, parse, i) ensures ScanAll(payloads, parse).completedPayload == payloads[i] {
      LastCompletedIsKept(payloads, parse, i);
    }
    forall i: nat | LastReporting(payloads, parse, i)
      ensures ScanAll(payloads, parse).totalTokens == parse(payloads[i]).usage.tokens
    {
      LastReportingIsKept(payloads, parse, i);
    }
    NothingIsKept(payloads, parse);
  }

  class EventScanner {
    const parse: Parser
    var partialSSELine: string
    var scan: Scan
    ghost var seen: seq<string>

    constructor (p: Parser)
      ensures parse == p && partialSSELine == "" && seen == [] && Valid()
    {
      parse := p;
      partialSSELine := "";
      scan := Scan(0, "", []);
      seen := [];
    }

    ghost predicate Valid()
      reads this
    {
      scan == ScanAll(seen, parse)
    }

    method HandleLine(raw: string)
      requires Valid()
      modifies this`scan, this`seen
      ensures Valid() && seen == old(seen) + Payload(raw)
    {
      var line := TrimCR(raw);
      if !(DATA <= line) {
        return;
      }
      var jsonData := line[|DATA|..];
      if jsonData == "" || jsonData == "[DONE]" {
        return;
      }
      scan := Scanned(scan, jsonData, parse);
      assert (seen + [jsonData])[..|seen|] == seen;
      seen := seen + [jsonData];
    }

    method HandleLines(lines: seq<string>)
      requires Valid()
      modifies this`scan, this`seen
      ensures Valid() && seen == old(seen) + Payloads(lines)
    {
      for i := 0 to |lines|
        invariant Valid()
        invariant seen == old(seen) + Payloads(lines[..i])
      {
        GatherSnoc(lines[..i], lines[i], Payload);
        assert lines[..i + 1] == lines[..i] + [lines[i]];
        HandleLine(lines[i]);
      }
      assert lines[..|lines|] == lines;
    }

    method OnChunk(chunk: string)
      requires Valid()
      modifies this
      ensures Valid()
      ensures partialSSELine == Rest(old(partialSSELine) + chunk)
      ensures seen == old(seen) + Payloads(Ended(old(partialSSELine) + chunk))
    {
      var combined := partialSSELine + chunk;
      partialSSELine := "";
      var lastNL := LastIndex(combined);
      if lastNL < 0 {
        NoFeed(combined);
        partialSSELine := combined;
        return;
      }
      LastIndexCuts(combined);
      if lastNL < |combined| - 1 {
        partialSSELine := combined[lastNL + 1..];
      }
      var lines := Split(combined[..lastNL + 1]);
      NoPayload(Ended(combined));
      HandleLines(lines);
    }
  }

  /** The piece behind the last line feed carries nothing. */
  lemma NoPayload(lines: seq<string>)
    ensures Payloads(lines + [""]) == Payloads(lines)
  {
    GatherSnoc(lines, "", Payload);
    assert Payload("") == [];
  }

  /** Whatever the reads were, every ended line of the whole stream is scanned once and in order. */
  method ScanChunks(chunks: seq<string>, parse: Parser) returns (scan: Scan, partialLine: string)
    ensures scan == ScanAll(Payloads(Ended(Concat(chunks))), parse)
    ensures partialLine == Rest(Concat(chunks))
  {
    var s := new EventScanner(parse);
    for i := 0 to |chunks|
      invariant s.Valid() && s.parse == parse
      invariant s.seen == Payloads(Ended(Concat(chunks[..i])))
      invariant s.partialSSELine == Rest(Concat(chunks[..i]))
    {
      assert chunks[..i + 1][..i] == chunks[..i];
      LinesOfMore(Concat(chunks[..i]), chunks[i]);
      GatherConcat(Ended(Concat(chunks[..i])), Ended(s.partialSSELine + chunks[i]), Payload);
      s.OnChunk(chunks[i]);
    }
    assert chunks[..|chunks|] == chunks;
    scan, partialLine := s.scan, s.partialSSELine;
  }
}
