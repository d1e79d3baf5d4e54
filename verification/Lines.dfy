/** Texts cut into lines, and what cutting a stream into chunks does to them. */
module Lines {
  import opened Collections

  /** The lines that have ended, without their line feeds. */
  function Ended(s: string): seq<string> {
    if s == "" then []
    else
      var n := |s| - 1;
      if s[n] == '\n' then Ended(s[..n]) + [Rest(s[..n])] else Ended(s[..n])
  }

  /** The line that has not ended yet. */
  function Rest(s: string): string {
    if s == "" || s[|s| - 1] == '\n' then "" else Rest(s[..|s| - 1]) + [s[|s| - 1]]
  }

  function Unlines(lines: seq<string>): string {
    if lines == [] then "" else Unlines(lines[..|lines| - 1]) + lines[|lines| - 1] + "\n"
  }

  function Concat(chunks: seq<string>): string {
    if chunks == [] then "" else Concat(chunks[..|chunks| - 1]) + chunks[|chunks| - 1]
  }

  predicate OneLine(s: string) {
    '\n' !in s
  }

  lemma Snoc(s: string, c: char)
    ensures Ended(s + [c]) == if c == '\n' then Ended(s) + [Rest(s)] else Ended(s)
    ensures Rest(s + [c]) == if c == '\n' then "" else Rest(s) + [c]
  {
    assert (s + [c])[..|s|] == s;
  }

  lemma SnocBoth(x: string, y: string, e: seq<string>, c: char)
    requires Ended(x) == e + Ended(y) && Rest(x) == Rest(y)
    ensures Ended(x + [c]) == e + Ended(y + [c]) && Rest(x + [c]) == Rest(y + [c])
  {
    Snoc(x, c);
    Snoc(y, c);
  }

  /** More text only completes the unfinished line. */
  lemma {:induction false} LinesOfMore(a: string, b: string)
    ensures Ended(a + b) == Ended(a) + Ended(Rest(a) + b)
    ensures Rest(a + b) == Rest(Rest(a) + b)
  {
    if b == "" {
      assert a + b == a && Rest(a) + b == Rest(a);
      NoLine(a);
      assert Ended(a) + [] == Ended(a);
    } else {
      var n := |b| - 1;
      LinesOfMore(a, b[..n]);
      SnocBoth(a + b[..n], Rest(a) + b[..n], Ended(a), b[n]);
      LastApart(a, b);
      LastApart(Rest(a), b);
    }
  }

  lemma LastApart(a: string, b: string)
    requires b != ""
    ensures a + b == a + b[..|b| - 1] + [b[|b| - 1]]
  {
  }

  lemma {:induction false} RestIsOneLine(s: string)
    ensures OneLine(Rest(s))
  {
    if s != "" { RestIsOneLine(s[..|s| - 1]); }
  }

  lemma {:induction false} OneLineStays(s: string)
    requires OneLine(s)
    ensures Ended(s) == [] && Rest(s) == s
  {
    if s != "" {
      var n := |s| - 1;
      assert s == s[..n] + [s[n]];
      OneLineStays(s[..n]);
    }
  }

  lemma NoLine(s: string)
    ensures Ended(Rest(s)) == [] && Rest(Rest(s)) == Rest(s)
  {
    RestIsOneLine(s);
    OneLineStays(Rest(s));
  }

  lemma FirstLine(line: string, more: string)
    requires OneLine(line)
    ensures Ended(line + "\n" + more) == [line] + Ended(more)
    ensures Rest(line + "\n" + more) == Rest(more)
  {
    var first := line + "\n";
    assert first[..|first| - 1] == line;
    OneLineStays(line);
    LinesOfMore(first, more);
    assert "" + more == more;
  }

  lemma TailOnly(u: string, tail: string)
    requires OneLine(tail) && Rest(u) == ""
    ensures Ended(u + tail) == Ended(u) && Rest(u + tail) == tail
  {
    OneLineStays(tail);
    LinesOfMore(u, tail);
    assert "" + tail == tail;
    assert Ended(u) + [] == Ended(u);
  }

  lemma {:induction false} UnlinesReadBack(lines: seq<string>)
    requires forall l :: l in lines ==> OneLine(l)
    ensures Ended(Unlines(lines)) == lines && Rest(Unlines(lines)) == ""
  {
    if lines != [] {
      var n := |lines| - 1;
      UnlinesReadBack(lines[..n]);
      TailOnly(Unlines(lines[..n]), lines[n]);
      Snoc(Unlines(lines[..n]) + lines[n], '\n');
      assert lines == lines[..n] + [lines[n]];
    }
  }

  /** Lines and remainder are the only way to cut a text at its line feeds. */
  lemma LinesReadBack(lines: seq<string>, tail: string)
    requires OneLine(tail) && forall l :: l in lines ==> OneLine(l)
    ensures Ended(Unlines(lines) + tail) == lines && Rest(Unlines(lines) + tail) == tail
  {
    UnlinesReadBack(lines);
    TailOnly(Unlines(lines), tail);
  }

  lemma {:induction false} LinesLoseNothing(s: string)
    ensures Unlines(Ended(s)) + Rest(s) == s
    ensures OneLine(Rest(s)) && forall l :: l in Ended(s) ==> OneLine(l)
  {
    if s != "" {
      var n := |s| - 1;
      LinesLoseNothing(s[..n]);
      assert s == s[..n] + [s[n]];
      if s[n] == '\n' {
        assert Ended(s)[..|Ended(s)| - 1] == Ended(s[..n]);
      } else {
        Assoc(Unlines(Ended(s)), Rest(s[..n]), [s[n]]);
      }
    }
  }

  // ----- searching for line feeds -----

  /** The first line feed, or the length of a text without one. */
  function IndexByte(s: string): nat {
    if s == "" || s[0] == '\n' then 0 else 1 + IndexByte(s[1..])
  }

  lemma {:induction false} IndexByteIsFirst(s: string)
    ensures IndexByte(s) <= |s| && OneLine(s[..IndexByte(s)])
    ensures IndexByte(s) < |s| ==> s[IndexByte(s)] == '\n'
  {
    if s != "" && s[0] != '\n' {
      IndexByteIsFirst(s[1..]);
      assert s[..IndexByte(s)] == [s[0]] + s[1..][..IndexByte(s[1..])];
    }
  }

  /** The last line feed, or -1. */
  function LastIndex(s: string): (i: int)
    ensures -1 <= i < |s|
  {
    if s == "" || s[|s| - 1] == '\n' then |s| - 1 else LastIndex(s[..|s| - 1])
  }

  lemma {:induction false} LastIndexIsLast(s: string)
    ensures LastIndex(s) >= 0 ==> s[LastIndex(s)] == '\n'
    ensures forall j :: LastIndex(s) < j < |s| ==> s[j] != '\n'
  {
    if s != "" && s[|s| - 1] != '\n' {
      var front := s[..|s| - 1];
      LastIndexIsLast(front);
      assert forall j :: 0 <= j < |front| ==> front[j] == s[j];
    }
  }

  /** The pieces between line feeds. */
  function Split(s: string): seq<string> {
    Ended(s) + [Rest(s)]
  }

  lemma CutAtFeed(head: string, tail: string)
    requires head != "" && head[|head| - 1] == '\n' && OneLine(tail)
    ensures Split(head) == Ended(head + tail) + [""] && Rest(head + tail) == tail
  {
    TailOnly(head, tail);
  }

  lemma Rejoined(s: string, i: nat)
    requires i <= |s|
    ensures s[..i] + s[i..] == s
  {
  }

  lemma NoFeed(s: string)
    requires LastIndex(s) < 0
    ensures Ended(s) == [] && Rest(s) == s
  {
    LastIndexIsLast(s);
    OneLineStays(s);
  }

  /** Cutting at the last line feed separates the ended lines from the unfinished one. */
  lemma LastIndexCuts(s: string)
    requires LastIndex(s) >= 0
    ensures Split(s[..LastIndex(s) + 1]) == Ended(s) + [""]
    ensures s[LastIndex(s) + 1..] == Rest(s)
  {
    var n := LastIndex(s) + 1;
    LastIndexIsLast(s);
    CutAtFeed(s[..n], s[n..]);
    Rejoined(s, n);
  }
}
