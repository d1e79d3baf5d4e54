/** Normal forms of access expressions (internal/scope/expression.go). */
module ScopeExpression {
  import opened Collections
  import opened Strings
  import opened Scope
  import opened ScopeKeys

  const MAX_ALTERNATIVES := 256

  /** Each requirement is a list of scopes of which one must be held. */
  datatype Alternative = Alternative(requirements: seq<seq<string>>, denied: seq<string>)

  /** Any alternative suffices; no expression at all means no restriction. */
  datatype Expression = Nil | Of(alternatives: seq<Alternative>)

  const TRIVIAL := Alternative([], [])

  // ----- requirements in key order -----

  function Keys(rs: seq<seq<string>>): seq<string> {
    if rs == [] then [] else [KeyValues(rs[0])] + Keys(rs[1..])
  }

  function InsertByKey(r: seq<string>, rs: seq<seq<string>>): seq<seq<string>> {
    if rs == [] || Le(KeyValues(r), KeyValues(rs[0])) then [r] + rs else [rs[0]] + InsertByKey(r, rs[1..])
  }

  function SortByKey(rs: seq<seq<string>>): seq<seq<string>> {
    if rs == [] then [] else InsertByKey(rs[0], SortByKey(rs[1..]))
  }

  lemma {:induction false} InsertByKeyKeys(r: seq<string>, rs: seq<seq<string>>)
    ensures Keys(InsertByKey(r, rs)) == Insert(KeyValues(r), Keys(rs))
  {
    if rs == [] {
      assert [r][1..] == [];
    } else if Le(KeyValues(r), KeyValues(rs[0])) {
      assert ([r] + rs)[1..] == rs;
    } else {
      InsertByKeyKeys(r, rs[1..]);
      assert ([rs[0]] + InsertByKey(r, rs[1..]))[1..] == InsertByKey(r, rs[1..]);
    }
  }

  lemma {:induction false} InsertByKeyMembers(r: seq<string>, rs: seq<seq<string>>)
    ensures multiset(InsertByKey(r, rs)) == multiset([r]) + multiset(rs)
  {
    if rs != [] {
      InsertByKeyMembers(r, rs[1..]);
      assert rs == [rs[0]] + rs[1..];
    }
  }

  lemma {:induction false} SortByKeySorts(rs: seq<seq<string>>)
    ensures Keys(SortByKey(rs)) == Sort(Keys(rs))
    ensures multiset(SortByKey(rs)) == multiset(rs)
  {
    if rs != [] {
      SortByKeySorts(rs[1..]);
      InsertByKeyKeys(rs[0], SortByKey(rs[1..]));
      InsertByKeyMembers(rs[0], SortByKey(rs[1..]));
      assert rs == [rs[0]] + rs[1..];
    }
  }

  /** Keys are faithful, so an order on keys is an order on requirements. */
  lemma {:induction false} KeysInjective(a: seq<seq<string>>, b: seq<seq<string>>)
    requires Keys(a) == Keys(b)
    ensures a == b
  {
    assert |a| == |Keys(a)| && |b| == |Keys(b)| by {
      KeysLength(a);
      KeysLength(b);
    }
    if a != [] {
      assert Keys(a)[0] == Keys(b)[0] && Keys(a)[1..] == Keys(b)[1..];
      KeyValuesInjective(a[0], b[0]);
      KeysInjective(a[1..], b[1..]);
      assert a == [a[0]] + a[1..] && b == [b[0]] + b[1..];
    }
  }

  lemma {:induction false} KeysLength(a: seq<seq<string>>)
    ensures |Keys(a)| == |a|
  {
    if a != [] { KeysLength(a[1..]); }
  }

  lemma SortByKeySorted(rs: seq<seq<string>>)
    requires Sorted(Keys(rs))
    ensures SortByKey(rs) == rs
  {
    SortByKeySorts(rs);
    SortSorted(Keys(rs));
    KeysInjective(SortByKey(rs), rs);
  }

  // ----- one alternative -----

  /** First occurrences of the normalised requirements; none when some requirement names no scope. */
  function NormalRequirements(rs: seq<seq<string>>): Option<seq<seq<string>>> {
    if rs == [] then Some([])
    else
      var r := SortedNormalized(rs[|rs| - 1]);
      match NormalRequirements(rs[..|rs| - 1])
      case None => None
      case Some(done) => if r == [] then None else if r in done then Some(done) else Some(done + [r])
  }

  function NormalAlternative(a: Alternative): Option<Alternative> {
    match NormalRequirements(a.requirements)
    case None => None
    case Some(rs) => Some(Alternative(SortByKey(rs), SortedNormalized(a.denied)))
  }

  lemma {:induction false} UnmeantRequirement(rs: seq<seq<string>>, n: nat)
    requires n <= |rs| && NormalRequirements(rs[..n]).None?
    ensures NormalRequirements(rs).None?
    decreases |rs|
  {
    if n == |rs| {
      assert rs[..n] == rs;
    } else {
      assert rs[..|rs| - 1][..n] == rs[..n];
      UnmeantRequirement(rs[..|rs| - 1], n);
    }
  }

  method SortNormalize(values: seq<string>) returns (normalized: seq<string>)
    ensures normalized == SortedNormalized(values)
  {
    normalized := NormalizeList(values);
    normalized := Sort(normalized);
  }

  method NormalizeAlternative(a: Alternative) returns (result: Alternative, ok: bool)
    ensures NormalAlternative(a) == if ok then Some(result) else None
  {
    var deniedScopes := SortNormalize(a.denied);
    var requirements := [];
    var seen := {};
    var rs := a.requirements;
    for i := 0 to |rs|
      invariant NormalRequirements(rs[..i]) == Some(requirements)
      invariant forall r :: KeyValues(r) in seen <==> r in requirements
    {
      assert rs[..i + 1][..i] == rs[..i];
      var normalized := SortNormalize(rs[i]);
      if |normalized| == 0 {
        UnmeantRequirement(rs, i + 1);
        return TRIVIAL, false;
      }
      var key := EncodeKeyValues(normalized);
      if key in seen {
        continue;
      }
      forall r ensures KeyValues(r) == key <==> r == normalized {
        KeyValuesInjective(r, normalized);
      }
      seen := seen + {key};
      requirements := requirements + [normalized];
    }
    assert rs[..|rs|] == rs;
    result, ok := Alternative(SortByKey(requirements), deniedScopes), true;
  }

  /** What normalisation produces: canonical lists, no requirement twice, in key order. */
  ghost predicate IsNormal(a: Alternative) {
    Canonical(a.denied) && NormalList(a.requirements) && Sorted(Keys(a.requirements))
  }

  ghost predicate NormalList(rs: seq<seq<string>>) {
    Distinct(rs) && forall r :: r in rs ==> r != [] && Canonical(r)
  }

  lemma {:induction false} NormalRequirementsList(rs: seq<seq<string>>)
    requires NormalRequirements(rs).Some?
    ensures NormalList(NormalRequirements(rs).value)
  {
    if rs != [] {
      NormalRequirementsList(rs[..|rs| - 1]);
      SortedNormalizedIsCanonical(rs[|rs| - 1]);
    }
  }

  lemma SortByKeyKeepsList(rs: seq<seq<string>>)
    requires NormalList(rs)
    ensures NormalList(SortByKey(rs))
  {
    SortByKeySorts(rs);
    forall r ensures multiset(SortByKey(rs))[r] <= 1 { DistinctCounts(rs, r); }
    CountsDistinct(SortByKey(rs));
    forall r | r in SortByKey(rs) ensures r in rs {
      assert r in multiset(SortByKey(rs));
    }
  }

  lemma NormalAlternativeIsNormal(a: Alternative)
    requires NormalAlternative(a).Some?
    ensures IsNormal(NormalAlternative(a).value)
  {
    var rs := NormalRequirements(a.requirements).value;
    NormalRequirementsList(a.requirements);
    SortByKeyKeepsList(rs);
    SortByKeySorts(rs);
    SortSorts(Keys(rs));
    SortedNormalizedIsCanonical(a.denied);
  }

  lemma {:induction false} NormalListIsFixed(rs: seq<seq<string>>)
    requires NormalList(rs)
    ensures NormalRequirements(rs) == Some(rs)
  {
    if rs != [] {
      var n := |rs| - 1;
      assert Distinct(rs[..n]) by {
        assert forall i :: 0 <= i < n ==> rs[..n][i] == rs[i];
      }
      assert forall r :: r in rs[..n] ==> r in rs;
      NormalListIsFixed(rs[..n]);
      assert rs[n] in rs;
      CanonicalIsFixed(rs[n]);
      assert rs == rs[..n] + [rs[n]];
      assert rs[n] !in rs[..n];
    }
  }

  lemma NormalIsFixed(a: Alternative)
    requires IsNormal(a)
    ensures NormalAlternative(a) == Some(a)
  {
    NormalListIsFixed(a.requirements);
    SortByKeySorted(a.requirements);
    CanonicalIsFixed(a.denied);
  }

  // ----- the key of an alternative -----

  function Segment(r: seq<string>): string {
    KeyValues(r) + "|"
  }

  function RequirementKeys(rs: seq<seq<string>>): string {
    if rs == [] then "" else Segment(rs[0]) + RequirementKeys(rs[1..])
  }

  function AlternativeKey(a: Alternative): string {
    RequirementKeys(a.requirements) + "!" + KeyValues(a.denied)
  }

  lemma {:induction false} RequirementKeysAppend(rs: seq<seq<string>>, r: seq<string>)
    ensures RequirementKeys(rs + [r]) == RequirementKeys(rs) + Segment(r)
  {
    if rs == [] {
      assert [r][1..] == [];
    } else {
      RequirementKeysAppend(rs[1..], r);
      assert (rs + [r])[1..] == rs[1..] + [r];
      Assoc(Segment(rs[0]), RequirementKeys(rs[1..]), Segment(r));
    }
  }

  method EncodeAlternative(a: Alternative) returns (key: string)
    ensures key == AlternativeKey(a)
  {
    key := "";
    var rs := a.requirements;
    for i := 0 to |rs|
      invariant key == RequirementKeys(rs[..i])
    {
      RequirementKeysAppend(rs[..i], rs[i]);
      assert rs[..i + 1] == rs[..i] + [rs[i]];
      var values := EncodeKeyValues(rs[i]);
      values := values + "|";
      key := key + values;
    }
    assert rs[..|rs|] == rs;
    var denied := EncodeKeyValues(a.denied);
    key := key + "!" + denied;
  }

  /** Requirement keys and what follows their end mark. */
  function Marked(rs: seq<seq<string>>, x: string): string {
    RequirementKeys(rs) + ("!" + x)
  }

  lemma MarkedFront(a: seq<seq<string>>, x: string)
    requires a != []
    ensures Marked(a, x) == KeyValues(a[0]) + ("|" + Marked(a[1..], x))
  {
    Assoc(Segment(a[0]), RequirementKeys(a[1..]), "!" + x);
    Assoc(KeyValues(a[0]), "|", Marked(a[1..], x));
  }

  lemma MarkedEmpty(x: string)
    ensures Marked([], x) == "!" + x
  {
  }

  lemma StartsOtherwise(r: seq<string>, s: string, x: string)
    ensures KeyValues(r) + ("|" + s) != "!" + x
  {
    if r == [] {
      assert "" + ("|" + s) == "|" + s;
      assert ("|" + s)[0] == '|' && ("!" + x)[0] == '!';
    } else {
      KeyValuesFront(r, "|" + s);
    }
  }

  lemma {:induction false} MarkedParses(a: seq<seq<string>>, x: string, b: seq<seq<string>>, y: string)
    requires Marked(a, x) == Marked(b, y)
    ensures a == b && x == y
    decreases |a|
  {
    if a == [] && b == [] {
      MarkedEmpty(x);
      MarkedEmpty(y);
      Cancel("!", x, y);
    } else if a == [] {
      MarkedEmpty(x);
      MarkedFront(b, y);
      StartsOtherwise(b[0], Marked(b[1..], y), x);
    } else if b == [] {
      MarkedEmpty(y);
      MarkedFront(a, x);
      StartsOtherwise(a[0], Marked(a[1..], x), y);
    } else {
      MarkedFront(a, x);
      MarkedFront(b, y);
      var s, t := Marked(a[1..], x), Marked(b[1..], y);
      KeyValuesParses(a[0], "|" + s, b[0], "|" + t);
      Cancel("|", s, t);
      MarkedParses(a[1..], x, b[1..], y);
      assert a == [a[0]] + a[1..] && b == [b[0]] + b[1..];
    }
  }

  /** Distinct alternatives never share a key, whatever their strings contain. */
  lemma AlternativeKeyInjective(a: Alternative, b: Alternative)
    ensures AlternativeKey(a) == AlternativeKey(b) <==> a == b
  {
    if AlternativeKey(a) == AlternativeKey(b) {
      Assoc(RequirementKeys(a.requirements), "!", KeyValues(a.denied));
      Assoc(RequirementKeys(b.requirements), "!", KeyValues(b.denied));
      MarkedParses(a.requirements, KeyValues(a.denied), b.requirements, KeyValues(b.denied));
      KeyValuesInjective(a.denied, b.denied);
    }
  }

  // ----- whole expressions -----

  /** The distinct normal forms of the alternatives that name a scope in every requirement. */
  function Normals(alternatives: seq<Alternative>): seq<Alternative> {
    if alternatives == [] then []
    else
      var done := Normals(alternatives[..|alternatives| - 1]);
      match NormalAlternative(alternatives[|alternatives| - 1])
      case None => done
      case Some(a) => if a in done then done else done + [a]
  }

  /** Too many alternatives deny everything. */
  function Normalized(alternatives: seq<Alternative>): seq<Alternative> {
    if |Normals(alternatives)| > MAX_ALTERNATIVES then [] else Normals(alternatives)
  }

  lemma {:induction false} NormalsGrow(alternatives: seq<Alternative>, n: nat)
    requires n <= |alternatives|
    ensures |Normals(alternatives[..n])| <= |Normals(alternatives)| <= |alternatives|
    decreases |alternatives|
  {
    if n == |alternatives| {
      assert alternatives[..n] == alternatives;
      if n > 0 { NormalsGrow(alternatives[..n - 1], n - 1); }
    } else {
      assert alternatives[..|alternatives| - 1][..n] == alternatives[..n];
      NormalsGrow(alternatives[..|alternatives| - 1], n);
    }
  }

  method NormalizeExpression(expression: Expression) returns (result: Expression)
    ensures expression.Nil? ==> result.Nil?
    ensures expression.Of? ==> result == Of(Normalized(expression.alternatives))
    ensures result.Of? ==> |result.alternatives| <= MAX_ALTERNATIVES
  {
    if expression.Nil? {
      return Nil;
    }
    var given := expression.alternatives;
    var alternatives := [];
    var seen := {};
    for i := 0 to |given|
      invariant alternatives == Normals(given[..i])
      invariant |alternatives| <= MAX_ALTERNATIVES
      invariant forall a :: AlternativeKey(a) in seen <==> a in alternatives
    {
      assert given[..i + 1][..i] == given[..i];
      var normalized, ok := NormalizeAlternative(given[i]);
      if !ok {
        continue;
      }
      var key := EncodeAlternative(normalized);
      if key in seen {
        continue;
      }
      if |alternatives| == MAX_ALTERNATIVES {
        NormalsGrow(given, i + 1);
        return Of([]);
      }
      forall a ensures AlternativeKey(a) == key <==> a == normalized {
        AlternativeKeyInjective(a, normalized);
      }
      seen := seen + {key};
      alternatives := alternatives + [normalized];
    }
    assert given[..|given|] == given;
    result := Of(alternatives);
  }

  /** Nothing is lost and nothing added but duplicates and alternatives that can never hold. */
  lemma {:induction false} NormalsMembers(alternatives: seq<Alternative>, x: Alternative)
    ensures x in Normals(alternatives) <==> exists a :: a in alternatives && NormalAlternative(a) == Some(x)
  {
    if alternatives != [] {
      var n := |alternatives| - 1;
      NormalsMembers(alternatives[..n], x);
      assert alternatives == alternatives[..n] + [alternatives[n]];
    }
  }

  lemma {:induction false} NormalsDistinct(alternatives: seq<Alternative>)
    ensures Distinct(Normals(alternatives))
    ensures forall x :: x in Normals(alternatives) ==> IsNormal(x)
  {
    if alternatives != [] {
      var n := |alternatives| - 1;
      NormalsDistinct(alternatives[..n]);
      if NormalAlternative(alternatives[n]).Some? {
        NormalAlternativeIsNormal(alternatives[n]);
      }
    }
  }

  lemma {:induction false} NormalsFixed(alternatives: seq<Alternative>)
    requires Distinct(alternatives) && forall x :: x in alternatives ==> IsNormal(x)
    ensures Normals(alternatives) == alternatives
  {
    if alternatives != [] {
      var n := |alternatives| - 1;
      assert Distinct(alternatives[..n]) by {
        assert forall i :: 0 <= i < n ==> alternatives[..n][i] == alternatives[i];
      }
      assert alternatives == alternatives[..n] + [alternatives[n]];
      assert alternatives[n] !in alternatives[..n];
      NormalsFixed(alternatives[..n]);
      NormalIsFixed(alternatives[n]);
    }
  }

  /** Normalising a second time changes nothing. */
  lemma NormalizedIdempotent(alternatives: seq<Alternative>)
    ensures Normalized(Normalized(alternatives)) == Normalized(alternatives)
    ensures |Normalized(alternatives)| <= MAX_ALTERNATIVES
  {
    NormalsDistinct(alternatives);
    NormalsFixed(Normals(alternatives));
  }
}
