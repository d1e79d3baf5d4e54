/** Byte strings: order, sorting and decimal numerals, as Go's strings, slices and strconv provide them. */
module Strings {

  /** Lexicographic order by byte. */
  predicate Le(a: string, b: string) {
    a == [] || (b != [] && (a[0] < b[0] || (a[0] == b[0] && Le(a[1..], b[1..]))))
  }

  lemma {:induction false} LeTotal(a: string, b: string)
    ensures Le(a, b) || Le(b, a)
  {
    if a != [] && b != [] && a[0] == b[0] {
      LeTotal(a[1..], b[1..]);
    }
  }

  lemma {:induction false} LeTransitive(a: string, b: string, c: string)
    requires Le(a, b) && Le(b, c)
    ensures Le(a, c)
  {
    if a != [] && a[0] == b[0] && b[0] == c[0] {
      LeTransitive(a[1..], b[1..], c[1..]);
    }
  }

  lemma {:induction false} LeAntisymmetric(a: string, b: string)
    requires Le(a, b) && Le(b, a)
    ensures a == b
  {
    if a != [] && b != [] {
      LeAntisymmetric(a[1..], b[1..]);
      assert a == [a[0]] + a[1..] && b == [b[0]] + b[1..];
    }
  }

  ghost predicate Sorted(s: seq<string>) {
    forall i, j :: 0 <= i < j < |s| ==> Le(s[i], s[j])
  }

  function Insert(x: string, s: seq<string>): seq<string> {
    if s == [] || Le(x, s[0]) then [x] + s else [s[0]] + Insert(x, s[1..])
  }

  function Sort(s: seq<string>): seq<string> {
    if s == [] then [] else Insert(s[0], Sort(s[1..]))
  }

  lemma {:induction false} InsertSorts(x: string, s: seq<string>)
    requires Sorted(s)
    ensures Sorted(Insert(x, s))
    ensures multiset(Insert(x, s)) == multiset([x]) + multiset(s)
  {
    if s == [] {
    } else if Le(x, s[0]) {
      forall i | 0 <= i < |s| ensures Le(x, s[i]) {
        if i > 0 { LeTransitive(x, s[0], s[i]); }
      }
    } else {
      LeTotal(x, s[0]);
      InsertSorts(x, s[1..]);
      var rest := Insert(x, s[1..]);
      assert s == [s[0]] + s[1..];
      forall i | 0 <= i < |rest| ensures Le(s[0], rest[i]) {
        assert rest[i] in multiset(rest);
        assert rest[i] == x || rest[i] in s[1..];
      }
    }
  }

  lemma {:induction false} SortSorts(s: seq<string>)
    ensures Sorted(Sort(s))
    ensures multiset(Sort(s)) == multiset(s)
  {
    if s != [] {
      SortSorts(s[1..]);
      InsertSorts(s[0], Sort(s[1..]));
      assert s == [s[0]] + s[1..];
    }
  }

  lemma SortedHeadIsLeast(a: seq<string>, x: string)
    requires Sorted(a) && x in a
    ensures Le(a[0], x)
  {
    var i :| 0 <= i < |a| && a[i] == x;
    if i == 0 { LeReflexive(x); }
  }

  lemma {:induction false} SortedUnique(a: seq<string>, b: seq<string>)
    requires Sorted(a) && Sorted(b) && multiset(a) == multiset(b)
    ensures a == b
  {
    assert |a| == |multiset(a)| == |b|;
    if a != [] {
      assert a[0] in multiset(b) && b[0] in multiset(a);
      SortedHeadIsLeast(a, b[0]);
      SortedHeadIsLeast(b, a[0]);
      LeAntisymmetric(a[0], b[0]);
      TailMultiset(a);
      TailMultiset(b);
      SortedUnique(a[1..], b[1..]);
    }
  }

  lemma TailMultiset(a: seq<string>)
    requires a != []
    ensures a == [a[0]] + a[1..]
    ensures multiset(a[1..]) == multiset(a) - multiset{a[0]}
  {
    assert a == [a[0]] + a[1..];
  }

  lemma {:induction false} LeReflexive(a: string)
    ensures Le(a, a)
  {
    if a != [] { LeReflexive(a[1..]); }
  }

  /** Sorting what is sorted changes nothing. */
  lemma SortSorted(s: seq<string>)
    requires Sorted(s)
    ensures Sort(s) == s
  {
    SortSorts(s);
    SortedUnique(Sort(s), s);
  }

  lemma SortMembers(s: seq<string>, x: string)
    ensures x in Sort(s) <==> x in s
    ensures |Sort(s)| == |s|
  {
    SortSorts(s);
    assert |Sort(s)| == |multiset(Sort(s))| == |multiset(s)| == |s|;
    assert x in Sort(s) <==> x in multiset(Sort(s));
  }

  // ----- sets as sorted lists -----

  /** The members of a set in order. */
  ghost function Listed(s: set<string>): seq<string> {
    if s == {} then []
    else
      var x :| x in s;
      Insert(x, Listed(s - {x}))
  }

  lemma {:induction false} ListedLists(s: set<string>)
    ensures Sorted(Listed(s))
    ensures multiset(Listed(s)) == multiset(s)
  {
    if s != {} {
      var x :| x in s && Listed(s) == Insert(x, Listed(s - {x}));
      ListedLists(s - {x});
      InsertSorts(x, Listed(s - {x}));
    }
  }

  /** A set is enumerated in no particular order and then sorted, so its list is determined. */
  method SetToList(s: set<string>) returns (result: seq<string>)
    ensures result == Listed(s)
  {
    var rest := s;
    var found := [];
    while rest != {}
      invariant rest <= s
      invariant multiset(found) == multiset(s - rest)
      decreases |rest|
    {
      var x :| x in rest;
      assert s - (rest - {x}) == (s - rest) + {x};
      rest := rest - {x};
      found := found + [x];
    }
    assert s - rest == s;
    result := Sort(found);
    SortSorts(found);
    ListedLists(s);
    SortedUnique(result, Listed(s));
  }

  // ----- decimal numerals -----

  predicate IsDigit(c: char) {
    '0' <= c <= '9'
  }

  predicate AllDigits(s: string) {
    forall i :: 0 <= i < |s| ==> IsDigit(s[i])
  }

  function Digit(n: nat): (c: char)
    requires n < 10
    ensures IsDigit(c) && (c as int) - ('0' as int) == n
  {
    ('0' as int + n) as char
  }

  /** The decimal numeral of n, as strconv.Itoa writes it. */
  function Itoa(n: nat): (s: string)
    ensures |s| > 0 && AllDigits(s)
  {
    if n < 10 then [Digit(n)] else Itoa(n / 10) + [Digit(n % 10)]
  }

  function Atoi(s: string): nat
    requires AllDigits(s)
  {
    if s == [] then 0
    else
      assert IsDigit(s[|s| - 1]);
      10 * Atoi(s[..|s| - 1]) + (s[|s| - 1] as int - '0' as int)
  }

  lemma {:induction false} AtoiOfItoa(n: nat)
    ensures Atoi(Itoa(n)) == n
  {
    if n < 10 {
      assert Itoa(n)[..0] == [];
    } else {
      AtoiOfItoa(n / 10);
      assert Itoa(n)[..|Itoa(n)| - 1] == Itoa(n / 10);
    }
  }

  lemma ItoaInjective(m: nat, n: nat)
    ensures Itoa(m) == Itoa(n) <==> m == n
  {
    AtoiOfItoa(m);
    AtoiOfItoa(n);
  }

  /** The decimal numeral of an integer. */
  function Decimal(n: int): string {
    if n < 0 then "-" + Itoa(-n) else Itoa(n)
  }

  function Join(parts: seq<string>, sep: string): string {
    if parts == [] then ""
    else if |parts| == 1 then parts[0]
    else parts[0] + sep + Join(parts[1..], sep)
  }

  ghost predicate NoneHas(parts: seq<string>, ch: char) {
    forall i :: 0 <= i < |parts| ==> ch !in parts[i]
  }

  /** A first part without the separator is what stands before the first separator. */
  lemma JoinHead(parts: seq<string>, ch: char)
    requires |parts| > 1
    ensures var s := Join(parts, [ch]); var n := |parts[0]|;
      && n < |s| && s[n] == ch && s[..n] == parts[0] && s[n + 1..] == Join(parts[1..], [ch])
  {
    assert Join(parts, [ch]) == (parts[0] + [ch]) + Join(parts[1..], [ch]);
  }

  lemma StopsAtFirst(s: string, n: nat, m: nat, ch: char)
    requires n <= |s| && m < |s| && s[m] == ch && ch !in s[..n]
    ensures n <= m
  {
    forall i | 0 <= i < n ensures s[i] != ch {
      assert s[i] == s[..n][i];
    }
  }

  /** Joined parts without the separator can be told apart again. */
  lemma {:induction false} JoinInjective(a: seq<string>, b: seq<string>, ch: char)
    requires a != [] && b != [] && NoneHas(a, ch) && NoneHas(b, ch)
    requires Join(a, [ch]) == Join(b, [ch])
    ensures a == b
    decreases |a|
  {
    if |a| > 1 { JoinHead(a, ch); }
    if |b| > 1 { JoinHead(b, ch); }
    if |a| > 1 && |b| > 1 {
      var s, m, n := Join(a, [ch]), |a[0]|, |b[0]|;
      StopsAtFirst(s, n, m, ch);
      StopsAtFirst(s, m, n, ch);
      JoinInjective(a[1..], b[1..], ch);
      assert a == [a[0]] + a[1..] && b == [b[0]] + b[1..];
    }
  }
}
