/** Scope lists and request contexts (internal/scope/scope.go). Scope strings are byte strings over ASCII. */
module Scope {
  import opened Collections
  import opened Strings

  const LEGACY_NO_MATCH := "\0air:no-matching-scope"
  const WILDCARD := "*"

  // ----- normalisation of one scope -----

  predicate IsSpace(c: char) {
    c == ' ' || 9 <= c as int <= 13
  }

  function LowerChar(c: char): char {
    if 'A' <= c <= 'Z' then (c as int + 32) as char else c
  }

  function Lower(s: string): string {
    if s == "" then "" else [LowerChar(s[0])] + Lower(s[1..])
  }

  function TrimLeft(s: string): string {
    if s != "" && IsSpace(s[0]) then TrimLeft(s[1..]) else s
  }

  function TrimRight(s: string): string {
    if s != "" && IsSpace(s[|s| - 1]) then TrimRight(s[..|s| - 1]) else s
  }

  /** Lower case without surrounding white space. */
  function Normalize(s: string): string {
    Lower(TrimRight(TrimLeft(s)))
  }

  /** Nothing is left to trim at either end. */
  predicate Trim(s: string) {
    s != "" ==> !IsSpace(s[0]) && !IsSpace(s[|s| - 1])
  }

  lemma {:induction false} TrimLeftStart(s: string)
    ensures TrimLeft(s) != "" ==> !IsSpace(TrimLeft(s)[0])
  {
    if s != "" && IsSpace(s[0]) { TrimLeftStart(s[1..]); }
  }

  lemma {:induction false} TrimRightEnds(s: string)
    requires s != "" ==> !IsSpace(s[0])
    ensures Trim(TrimRight(s))
  {
    if s != "" && IsSpace(s[|s| - 1]) { TrimRightEnds(s[..|s| - 1]); }
  }

  lemma {:induction false} LowerAt(s: string, i: nat)
    requires i < |s|
    ensures |Lower(s)| == |s| && Lower(s)[i] == LowerChar(s[i])
  {
    if |s| > 1 { LowerAt(s[1..], if i == 0 then 0 else i - 1); }
  }

  lemma {:induction false} LowerTwice(s: string)
    ensures Lower(Lower(s)) == Lower(s)
  {
    if s != "" {
      LowerTwice(s[1..]);
      assert Lower(s)[1..] == Lower(s[1..]);
    }
  }

  lemma LowerKeepsTrim(s: string)
    requires Trim(s)
    ensures Trim(Lower(s))
  {
    if s != "" {
      LowerAt(s, 0);
      LowerAt(s, |s| - 1);
    }
  }

  lemma NormalizeIdempotent(s: string)
    ensures Normalize(Normalize(s)) == Normalize(s)
  {
    var t := TrimRight(TrimLeft(s));
    TrimLeftStart(s);
    TrimRightEnds(TrimLeft(s));
    LowerKeepsTrim(t);
    LowerTwice(t);
    TrimFixed(Lower(t));
  }

  lemma TrimFixed(s: string)
    requires Trim(s)
    ensures TrimRight(TrimLeft(s)) == s
  {
  }

  lemma {:induction false} TrimLeftCuts(s: string) returns (i: nat)
    ensures i <= |s| && TrimLeft(s) == s[i..] && forall k :: 0 <= k < i ==> s[k] == ' ' || 9 <= s[k] as int <= 13
  {
    i := 0;
    if s != "" && IsSpace(s[0]) {
      var j := TrimLeftCuts(s[1..]);
      i := j + 1;
      assert s[1..][j..] == s[i..];
      assert forall k :: 1 <= k < i ==> s[k] == s[1..][k - 1];
    }
  }

  lemma {:induction false} TrimRightCuts(s: string) returns (j: nat)
    ensures j <= |s| && TrimRight(s) == s[..j] && forall k :: j <= k < |s| ==> s[k] == ' ' || 9 <= s[k] as int <= 13
  {
    j := |s|;
    if s != "" && IsSpace(s[|s| - 1]) {
      var front := s[..|s| - 1];
      j := TrimRightCuts(front);
      assert front[..j] == s[..j];
      assert forall k :: j <= k < |front| ==> s[k] == front[k];
    }
  }

  /** A capital letter as its small one, anything else as it is. */
  ghost predicate Lowered(c: char, d: char) {
    if 'A' <= c <= 'Z' then 'a' <= d <= 'z' && d - 'a' == c - 'A' else d == c
  }

  /** The normal form is what stands between the white space, letter by letter in lower case. */
  lemma NormalizeWrittenOut(s: string) returns (i: nat, j: nat)
    ensures i <= j <= |s| && |Normalize(s)| == j - i
    ensures forall k :: 0 <= k < i || j <= k < |s| ==> s[k] == ' ' || 9 <= s[k] as int <= 13
    ensures i < j ==> !(s[i] == ' ' || 9 <= s[i] as int <= 13) && !(s[j - 1] == ' ' || 9 <= s[j - 1] as int <= 13)
    ensures forall k :: i <= k < j ==> Lowered(s[k], Normalize(s)[k - i])
  {
    i := TrimLeftCuts(s);
    var n := TrimRightCuts(s[i..]);
    j := i + n;
    TrimLeftStart(s);
    TrimRightEnds(s[i..]);
    var t := s[i..][..n];
    LowerLength(t);
    forall k | i <= k < j ensures Lowered(s[k], Normalize(s)[k - i]) {
      LowerAt(t, k - i);
    }
    forall k | j <= k < |s| ensures s[k] == s[i..][k - i] {
    }
  }

  lemma {:induction false} LowerLength(s: string)
    ensures |Lower(s)| == |s|
  {
    if s != "" { LowerLength(s[1..]); }
  }

  // ----- normalised lists -----

  /** The scopes a raw list stands for: its normalised values other than the blank one. */
  function Meant(values: seq<string>): set<string> {
    if values == [] then {} else Meant(values[..|values| - 1]) + Named(values[|values| - 1])
  }

  function Named(value: string): set<string> {
    if Normalize(value) == "" then {} else {Normalize(value)}
  }

  lemma {:induction false} MeantMembers(values: seq<string>, x: string)
    ensures x in Meant(values) <==> x != "" && exists v :: v in values && Normalize(v) == x
  {
    if values != [] {
      var n := |values| - 1;
      MeantMembers(values[..n], x);
      assert values == values[..n] + [values[n]];
    }
  }

  lemma {:induction false} MeantConcat(a: seq<string>, b: seq<string>)
    ensures Meant(a + b) == Meant(a) + Meant(b)
  {
    if b == [] {
      assert a + b == a;
    } else {
      var n := |b| - 1;
      MeantConcat(a, b[..n]);
      assert (a + b)[..|a + b| - 1] == a + b[..n];
    }
  }

  /** First occurrences of the normalised, non-blank values, in order. */
  function NormalizedList(values: seq<string>): (r: seq<string>) {
    if values == [] then []
    else
      var r := NormalizedList(values[..|values| - 1]);
      var v := Normalize(values[|values| - 1]);
      if v == "" || v in r then r else r + [v]
  }

  method NormalizeList(values: seq<string>) returns (result: seq<string>)
    ensures result == NormalizedList(values)
  {
    var seen := {};
    result := [];
    for i := 0 to |values|
      invariant result == NormalizedList(values[..i])
      invariant forall v :: v in seen <==> v in result
    {
      assert values[..i + 1][..i] == values[..i];
      var normalized := Normalize(values[i]);
      if normalized == "" || normalized in seen {
        continue;
      }
      seen := seen + {normalized};
      result := result + [normalized];
    }
    assert values[..|values|] == values;
  }

  lemma {:induction false} NormalizedListMeaning(values: seq<string>, x: string)
    ensures x in NormalizedList(values) <==> x in Meant(values)
  {
    if values != [] {
      NormalizedListMeaning(values[..|values| - 1], x);
    }
  }

  lemma {:induction false} NormalizedListDistinct(values: seq<string>)
    ensures Distinct(NormalizedList(values))
  {
    if values != [] {
      NormalizedListDistinct(values[..|values| - 1]);
    }
  }

  predicate Clean(v: string) {
    v != "" && Normalize(v) == v
  }

  /** Sorted, distinct, normalised and non-blank: the form every stored list has. */
  ghost predicate Canonical(list: seq<string>) {
    Sorted(list) && Distinct(list) && forall v :: v in list ==> Clean(v)
  }

  function SortedNormalized(values: seq<string>): seq<string> {
    Sort(NormalizedList(values))
  }

  lemma SortKeepsDistinct(a: seq<string>)
    requires Distinct(a)
    ensures Distinct(Sort(a))
  {
    SortSorts(a);
    forall x ensures multiset(Sort(a))[x] <= 1 {
      DistinctCounts(a, x);
    }
    CountsDistinct(Sort(a));
  }

  lemma SortedNormalizedMembers(values: seq<string>, x: string)
    ensures x in SortedNormalized(values) <==> x in Meant(values)
  {
    SortMembers(NormalizedList(values), x);
    NormalizedListMeaning(values, x);
  }

  lemma MeantClean(values: seq<string>, x: string)
    requires x in Meant(values)
    ensures Clean(x)
  {
    MeantMembers(values, x);
    var w :| w in values && Normalize(w) == x;
    NormalizeIdempotent(w);
  }

  lemma SortedNormalizedIsCanonical(values: seq<string>)
    ensures Canonical(SortedNormalized(values))
  {
    SortSorts(NormalizedList(values));
    NormalizedListDistinct(values);
    SortKeepsDistinct(NormalizedList(values));
    forall v | v in SortedNormalized(values) ensures Clean(v) {
      SortedNormalizedMembers(values, v);
      MeantClean(values, v);
    }
  }

  /** A canonical list is determined by its scopes. */
  lemma CanonicalUnique(a: seq<string>, b: seq<string>)
    requires Canonical(a) && Canonical(b)
    requires forall x :: x in a <==> x in b
    ensures a == b
  {
    forall x ensures multiset(a)[x] == multiset(b)[x] {
      DistinctCounts(a, x);
      DistinctCounts(b, x);
    }
    SortedUnique(a, b);
  }

  lemma CanonicalMembers(list: seq<string>, x: string)
    requires Canonical(list)
    ensures x in list <==> x in Meant(list)
  {
    MeantMembers(list, x);
    assert x in list ==> Clean(x);
  }

  lemma CanonicalIsFixed(list: seq<string>)
    requires Canonical(list)
    ensures SortedNormalized(list) == list
  {
    forall x ensures x in SortedNormalized(list) <==> x in list {
      CanonicalMembers(list, x);
      SortedNormalizedMembers(list, x);
    }
    SortedNormalizedIsCanonical(list);
    CanonicalUnique(SortedNormalized(list), list);
  }

  lemma SortedNormalizedMeans(values: seq<string>)
    ensures Meant(SortedNormalized(values)) == Meant(values)
    ensures SortedNormalized(values) == [] <==> Meant(values) == {}
  {
    var list := SortedNormalized(values);
    SortedNormalizedIsCanonical(list);
    forall x ensures x in Meant(list) <==> x in Meant(values) {
      SortedNormalizedMembers(values, x);
      SortedNormalizedIsCanonical(values);
      CanonicalMembers(list, x);
    }
    if list != [] { SortedNormalizedMembers(values, list[0]); }
  }

  /** Two raw lists have one normal form exactly when they stand for the same scopes. */
  lemma NormalFormIsMeaning(a: seq<string>, b: seq<string>)
    ensures SortedNormalized(a) == SortedNormalized(b) <==> Meant(a) == Meant(b)
  {
    SortedNormalizedMeans(a);
    SortedNormalizedMeans(b);
    if Meant(a) == Meant(b) {
      SortedNormalizedIsCanonical(a);
      SortedNormalizedIsCanonical(b);
      forall x ensures x in SortedNormalized(a) <==> x in SortedNormalized(b) {
        SortedNormalizedMembers(a, x);
        SortedNormalizedMembers(b, x);
      }
      CanonicalUnique(SortedNormalized(a), SortedNormalized(b));
    }
  }

  // ----- contexts -----

  /** What a request may use; an administrator bypasses scopes. */
  datatype Context = Context(allowed: set<string>, denied: set<string>, admin: bool) {
    /** Whether a credential with these scopes and denied scopes is visible. */
    predicate Allows(scopes: seq<string>, deniedScopes: seq<string>) {
      if LEGACY_NO_MATCH in scopes then false
      else if admin then true
      else if HasWildcard(deniedScopes) || WILDCARD in denied || Intersects(allowed, deniedScopes) then false
      else if Intersects(denied, scopes) then false
      else if WILDCARD in allowed then true
      else if scopes == [] then true
      else Intersects(allowed, scopes)
    }
  }

  predicate HasWildcard(values: seq<string>) {
    exists v :: v in values && Normalize(v) == WILDCARD
  }

  /** Some value is in the set; a wildcard on either side matches everything that is there. */
  predicate Intersects(s: set<string>, values: seq<string>) {
    s != {} && values != [] &&
    (WILDCARD in s || exists v :: v in values && (Normalize(v) == WILDCARD || Normalize(v) in s))
  }

  /** The same test on sets of normalised scopes. */
  ghost predicate Hits(s: set<string>, scopes: set<string>) {
    s != {} && scopes != {} && (WILDCARD in s || WILDCARD in scopes || s * scopes != {})
  }

  lemma WildcardMeant(list: seq<string>)
    ensures HasWildcard(list) <==> WILDCARD in Meant(list)
  {
    MeantMembers(list, WILDCARD);
  }

  /** On a list without blank values the test depends on the scopes it stands for alone. */
  lemma IntersectsMeant(s: set<string>, list: seq<string>)
    requires forall v :: v in list ==> Normalize(v) != ""
    ensures Intersects(s, list) <==> Hits(s, Meant(list))
  {
    WildcardMeant(list);
    if list != [] {
      MeantMembers(list, Normalize(list[0]));
    }
    if Intersects(s, list) && WILDCARD !in s && !HasWildcard(list) {
      var v :| v in list && Normalize(v) in s;
      MeantMembers(list, Normalize(v));
      assert Normalize(v) in s * Meant(list);
    }
    if s * Meant(list) != {} {
      var x :| x in s * Meant(list);
      MeantMembers(list, x);
    }
  }
}
