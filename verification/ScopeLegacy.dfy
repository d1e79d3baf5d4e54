/** Access expressions made from and reduced to a pair of scope lists (internal/scope/expression.go). */
module ScopeLegacy {
  import opened Collections
  import opened Strings
  import opened Scope
  import opened ScopeKeys
  import opened ScopeExpression
  import opened ScopeAlgebra

  /** The pair of lists that older readers understand. */
  datatype Legacy = Legacy(scopes: seq<string>, denied: seq<string>)

  const NO_MATCH := Legacy([LEGACY_NO_MATCH], [])

  predicate AllowsLegacy(c: Context, l: Legacy) {
    c.Allows(l.scopes, l.denied)
  }

  /** Alternatives from some point on, given the scopes gathered before. */
  function Merge(rest: seq<Alternative>, denied: seq<string>, scopes: seq<string>): Legacy {
    if rest == [] then Legacy(SortedNormalized(scopes), denied)
    else if rest[0].denied != denied || |rest[0].requirements| > 1 then NO_MATCH
    else if rest[0].requirements == [] then Legacy([], denied)
    else Merge(rest[1..], denied, scopes + rest[0].requirements[0])
  }

  predicate SomeDeniesAll(alternatives: seq<Alternative>) {
    exists a :: a in alternatives && HasWildcard(a.denied)
  }

  function Single(a: Alternative): Legacy {
    if a.requirements == [] then Legacy([], a.denied)
    else if |a.requirements| == 1 then Legacy(a.requirements[0], a.denied)
    else NO_MATCH
  }

  function Projected(alternatives: seq<Alternative>): Legacy {
    if alternatives == [] || SomeDeniesAll(alternatives) then NO_MATCH
    else if |alternatives| == 1 then Single(alternatives[0])
    else Merge(alternatives, alternatives[0].denied, [])
  }

  function LegacyOf(e: Expression): Legacy {
    if e.Nil? then Legacy([], []) else Projected(Normalized(e.alternatives))
  }

  method MergeAlternatives(alternatives: seq<Alternative>) returns (result: Legacy)
    requires alternatives != []
    ensures result == Merge(alternatives, alternatives[0].denied, [])
  {
    var denied := alternatives[0].denied;
    var scopes := [];
    for i := 0 to |alternatives|
      invariant Merge(alternatives, denied, []) == Merge(alternatives[i..], denied, scopes)
    {
      var a := alternatives[i];
      assert alternatives[i..][1..] == alternatives[i + 1..];
      if denied != a.denied || |a.requirements| > 1 {
        return NO_MATCH;
      }
      if |a.requirements| == 0 {
        return Legacy([], denied);
      }
      scopes := scopes + a.requirements[0];
    }
    var sorted := SortNormalize(scopes);
    result := Legacy(sorted, denied);
  }

  method LegacyProjection(e: Expression) returns (result: Legacy)
    ensures result == LegacyOf(e)
  {
    var normalized := NormalizeExpression(e);
    if normalized.Nil? {
      return Legacy([], []);
    }
    var alternatives := normalized.alternatives;
    if |alternatives| == 0 {
      return NO_MATCH;
    }
    for i := 0 to |alternatives|
      invariant forall j :: 0 <= j < i ==> !HasWildcard(alternatives[j].denied)
    {
      if HasWildcard(alternatives[i].denied) {
        return NO_MATCH;
      }
    }
    if |alternatives| == 1 {
      return Single(alternatives[0]);
    }
    result := MergeAlternatives(alternatives);
  }

  // ----- the projection never grants more -----

  lemma AllowsSplits(c: Context, scopes: seq<string>, denied: seq<string>)
    requires !c.admin
    ensures c.Allows(scopes, denied) <==> c.Allows(scopes, []) && c.Allows([], denied)
  {
  }

  /** The test on two stored lists, in terms of the scopes they stand for. */
  lemma AllowsMeans(c: Context, scopes: seq<string>, denied: seq<string>)
    requires Canonical(scopes) && Canonical(denied)
    ensures c.Allows(scopes, denied) <==>
            LEGACY_NO_MATCH !in scopes && (c.admin || (Tolerates(c, Meant(denied)) && Grants(c, Meant(scopes))))
  {
    if !c.admin {
      AllowsSplits(c, scopes, denied);
      AllowsRequirement(c, scopes);
      AllowsDenied(c, denied);
      CanonicalMembers(scopes, LEGACY_NO_MATCH);
    }
  }

  /** The decision on two stored lists, written out. */
  lemma AllowsWrittenOut(c: Context, scopes: seq<string>, denied: seq<string>)
    requires Canonical(scopes) && Canonical(denied)
    ensures c.Allows(scopes, denied) <==>
      "\0air:no-matching-scope" !in scopes &&
      (c.admin ||
       (&& "*" !in denied && "*" !in c.denied
        && (denied == [] || ("*" !in c.allowed && forall d :: d in denied ==> d !in c.allowed))
        && (c.denied == {} || ("*" !in scopes && forall s :: s in scopes ==> s !in c.denied))
        && (|| scopes == [] || "*" in c.allowed || (c.allowed != {} && "*" in scopes)
            || exists s :: s in scopes && s in c.allowed)))
  {
    CanonicalUnblank(scopes);
    CanonicalUnblank(denied);
    assert forall v :: v in scopes || v in denied ==> Normalize(v) == v;
  }

  lemma AllowsSingle(c: Context, a: Alternative)
    requires !c.admin && |a.requirements| <= 1
    ensures AllowsLegacy(c, Single(a)) <==> AllowsAlternative(c, a)
  {
    if |a.requirements| == 1 {
      AllowsSplits(c, a.requirements[0], a.denied);
      assert forall r :: r in a.requirements ==> r == a.requirements[0];
    }
  }

  /** A granted union grants one of its parts. */
  lemma GrantsSplit(c: Context, d: set<string>, e: set<string>)
    requires d != {} && Grants(c, d + e)
    ensures Grants(c, d) || (e != {} && Grants(c, e))
  {
    HitsUnion(c.denied, d, e);
    HitsUnion(c.allowed, d, e);
  }

  lemma GrantedScopes(c: Context, scopes: seq<string>)
    requires !c.admin && c.Allows(SortedNormalized(scopes), [])
    ensures Grants(c, Meant(scopes))
  {
    SortedNormalizedIsCanonical(scopes);
    SortedNormalizedMeans(scopes);
    AllowsRequirement(c, SortedNormalized(scopes));
  }

  lemma AlternativeByRequirement(c: Context, a: Alternative)
    requires IsNormal(a) && !c.admin && |a.requirements| == 1
    requires c.Allows([], a.denied) && Grants(c, Meant(a.requirements[0]))
    ensures AllowsAlternative(c, a)
  {
    AllowsRequirement(c, a.requirements[0]);
    assert forall r :: r in a.requirements ==> r == a.requirements[0];
  }

  lemma RequirementMeant(a: Alternative)
    requires IsNormal(a) && |a.requirements| == 1
    ensures Meant(a.requirements[0]) != {}
  {
    var r := a.requirements[0];
    assert r in a.requirements;
    CanonicalMembers(r, r[0]);
  }

  lemma {:induction false} MergeGrantsNoMore(c: Context, rest: seq<Alternative>, denied: seq<string>, scopes: seq<string>)
    requires !c.admin && forall a :: a in rest ==> IsNormal(a)
    requires AllowsLegacy(c, Merge(rest, denied, scopes))
    ensures (exists a :: a in rest && AllowsAlternative(c, a)) ||
            (c.Allows([], denied) && Grants(c, Meant(scopes)) && (rest != [] ==> Meant(scopes) != {}))
    decreases |rest|
  {
    if rest == [] {
      AllowsSplits(c, SortedNormalized(scopes), denied);
      GrantedScopes(c, scopes);
    } else {
      var a := rest[0];
      assert a in rest;
      assert a.denied == denied && |a.requirements| <= 1;
      if a.requirements == [] {
        assert AllowsAlternative(c, a);
      } else {
        MergeGrantsNoMore(c, rest[1..], denied, scopes + a.requirements[0]);
        if !(exists b :: b in rest[1..] && AllowsAlternative(c, b)) {
          MeantConcat(scopes, a.requirements[0]);
          RequirementMeant(a);
          assert Meant(scopes) + Meant(a.requirements[0]) == Meant(a.requirements[0]) + Meant(scopes);
          GrantsSplit(c, Meant(a.requirements[0]), Meant(scopes));
          if Grants(c, Meant(a.requirements[0])) {
            AlternativeByRequirement(c, a);
          }
        }
      }
    }
  }

  lemma ProjectedGrantsNoMore(c: Context, alternatives: seq<Alternative>)
    requires !c.admin && forall a :: a in alternatives ==> IsNormal(a)
    requires AllowsLegacy(c, Projected(alternatives))
    ensures exists a :: a in alternatives && AllowsAlternative(c, a)
  {
    if |alternatives| == 1 {
      assert alternatives[0] in alternatives;
      AllowsSingle(c, alternatives[0]);
    } else {
      MergeGrantsNoMore(c, alternatives, alternatives[0].denied, []);
    }
  }

  /** Whoever the projected lists allow, the expression allows. */
  lemma LegacyGrantsNoMore(c: Context, e: Expression)
    requires AllowsLegacy(c, LegacyOf(e))
    ensures AllowsExpression(c, e)
  {
    if e.Of? && !c.admin {
      NormalsDistinct(e.alternatives);
      ProjectedGrantsNoMore(c, Normalized(e.alternatives));
    }
  }

  /** With one alternative of at most one requirement only an administrator can be treated differently. */
  lemma SimpleProjectionIsExact(c: Context, e: Expression, a: Alternative)
    requires e.Of? && Normalized(e.alternatives) == [a] && |a.requirements| <= 1
    ensures AllowsLegacy(c, LegacyOf(e)) <==>
            AllowsExpression(c, e) &&
            !(c.admin && (HasWildcard(a.denied) || (a.requirements != [] && LEGACY_NO_MATCH in a.requirements[0])))
  {
    assert a in [a];
    if !c.admin {
      AllowsSingle(c, a);
    }
  }

  // ----- what is projected -----

  /** Up to position i every alternative has one requirement and the first one's denied scopes. */
  ghost predicate MergesUpTo(alternatives: seq<Alternative>, i: nat)
    requires i <= |alternatives|
  {
    forall j :: 0 <= j < i ==> alternatives[j].denied == alternatives[0].denied && |alternatives[j].requirements| == 1
  }

  /** The scopes gathered from the alternatives before position i. */
  function Gathered(alternatives: seq<Alternative>, i: nat): (scopes: seq<string>)
    requires i <= |alternatives| && MergesUpTo(alternatives, i)
    ensures forall x :: x in scopes <==> exists j :: 0 <= j < i && x in alternatives[j].requirements[0]
  {
    if i == 0 then [] else Gathered(alternatives, i - 1) + alternatives[i - 1].requirements[0]
  }

  lemma {:induction false} MergesOn(alternatives: seq<Alternative>, i: nat)
    requires alternatives != [] && i <= |alternatives| && MergesUpTo(alternatives, i)
    ensures Merge(alternatives, alternatives[0].denied, []) ==
            Merge(alternatives[i..], alternatives[0].denied, Gathered(alternatives, i))
  {
    if i == 0 {
      assert alternatives[0..] == alternatives;
    } else {
      MergesOn(alternatives, i - 1);
      assert alternatives[i - 1..][1..] == alternatives[i..];
    }
  }

  /**
   Several alternatives: the first one that does not have exactly one requirement and the first one's denied scopes decides.
   If it asks for nothing and denies the same, nothing is asked for; otherwise nobody matches. Without one, any scope of any
   alternative suffices.
   */
  lemma SeveralProjected(alternatives: seq<Alternative>, i: nat)
    requires |alternatives| > 1 && forall a :: a in alternatives ==> !HasWildcard(a.denied)
    requires i <= |alternatives| && MergesUpTo(alternatives, i)
    requires i < |alternatives| ==> !MergesUpTo(alternatives, i + 1)
    ensures var l, denied := Projected(alternatives), alternatives[0].denied;
      && (i < |alternatives| && alternatives[i].denied == denied && alternatives[i].requirements == [] ==> l == Legacy([], denied))
      && (i < |alternatives| && !(alternatives[i].denied == denied && alternatives[i].requirements == []) ==>
            l == Legacy(["\0air:no-matching-scope"], []))
      && (i == |alternatives| ==>
            l.denied == denied && forall x :: x in l.scopes <==> x in Meant(Gathered(alternatives, i)))
  {
    MergesOn(alternatives, i);
    if i == |alternatives| {
      var scopes := Gathered(alternatives, i);
      forall x ensures x in SortedNormalized(scopes) <==> x in Meant(scopes) {
        SortedNormalizedMembers(scopes, x);
      }
    }
  }

  /** None at all, one alone, one that denies everybody, and no expression. */
  lemma OthersProjected(e: Expression)
    ensures e.Nil? ==> LegacyOf(e) == Legacy([], [])
    ensures e.Of? && (Normalized(e.alternatives) == [] || exists a :: a in Normalized(e.alternatives) && "*" in Meant(a.denied)) ==>
      LegacyOf(e) == Legacy(["\0air:no-matching-scope"], [])
    ensures e.Of? && |Normalized(e.alternatives)| == 1 && "*" !in Meant(Normalized(e.alternatives)[0].denied) ==>
      var a := Normalized(e.alternatives)[0];
      && (a.requirements == [] ==> LegacyOf(e) == Legacy([], a.denied))
      && (|a.requirements| == 1 ==> LegacyOf(e) == Legacy(a.requirements[0], a.denied))
      && (|a.requirements| > 1 ==> LegacyOf(e) == Legacy(["\0air:no-matching-scope"], []))
  {
    if e.Of? {
      forall a | a in Normalized(e.alternatives) ensures HasWildcard(a.denied) <==> "*" in Meant(a.denied) {
        WildcardMeant(a.denied);
      }
    }
  }

  // ----- expressions made from lists -----

  method FromScopes(scopes: seq<string>, denied: seq<string>) returns (result: Expression)
    ensures result == ExpressionOf(scopes, denied)
  {
    var normalizedScopes := NormalizeList(scopes);
    var normalizedDenied := NormalizeList(denied);
    var requirements := if |normalizedScopes| > 0 then [normalizedScopes] else [];
    result := NormalizeExpression(Of([Alternative(requirements, normalizedDenied)]));
  }

  function ExpressionOf(scopes: seq<string>, denied: seq<string>): Expression {
    var r := NormalizedList(scopes);
    Of(Normalized([Alternative(if r == [] then [] else [r], NormalizedList(denied))]))
  }

  lemma NormalizedListMeans(values: seq<string>)
    ensures SortedNormalized(NormalizedList(values)) == SortedNormalized(values)
    ensures NormalizedList(values) == [] <==> SortedNormalized(values) == []
  {
    forall x ensures x in Meant(NormalizedList(values)) <==> x in Meant(values) {
      NormalizedListFixes(values, x);
    }
    NormalFormIsMeaning(NormalizedList(values), values);
    SortSorts(NormalizedList(values));
    assert |NormalizedList(values)| == |SortedNormalized(values)| by {
      SortMembers(NormalizedList(values), "");
    }
  }

  lemma NormalizedListFixes(values: seq<string>, x: string)
    ensures x in Meant(NormalizedList(values)) <==> x in Meant(values)
  {
    MeantMembers(NormalizedList(values), x);
    NormalizedListMeaning(values, x);
    if x in Meant(values) { MeantClean(values, x); }
    if x in Meant(NormalizedList(values)) {
      var v :| v in NormalizedList(values) && Normalize(v) == x;
      NormalizedListMeaning(values, v);
      MeantClean(values, v);
    }
  }

  function NormalPair(scopes: seq<string>, denied: seq<string>): Alternative {
    var n := SortedNormalized(scopes);
    Alternative(if n == [] then [] else [n], SortedNormalized(denied))
  }

  lemma OneRequirement(r: seq<string>)
    requires SortedNormalized(r) != []
    ensures NormalRequirements([r]) == Some([SortedNormalized(r)])
    ensures SortByKey([SortedNormalized(r)]) == [SortedNormalized(r)]
  {
    var n := SortedNormalized(r);
    var none: seq<seq<string>> := [];
    assert [r][..0] == none && [n][1..] == none;
    assert NormalRequirements(none) == Some(none);
    assert none + [n] == [n];
    assert SortByKey(none) == none && InsertByKey(n, none) == [n];
  }

  lemma NormalPairIsNormal(scopes: seq<string>, denied: seq<string>)
    ensures NormalAlternative(Alternative(if NormalizedList(scopes) == [] then [] else [NormalizedList(scopes)],
                                          NormalizedList(denied))) == Some(NormalPair(scopes, denied))
  {
    NormalizedListMeans(scopes);
    NormalizedListMeans(denied);
    if NormalizedList(scopes) != [] { OneRequirement(NormalizedList(scopes)); }
  }

  lemma OneNormal(a: Alternative)
    requires NormalAlternative(a).Some?
    ensures Normalized([a]) == [NormalAlternative(a).value]
  {
    assert [a][..0] == [];
    assert Normals([]) == [];
  }

  lemma ExpressionOfIsPair(scopes: seq<string>, denied: seq<string>)
    ensures ExpressionOf(scopes, denied) == Of([NormalPair(scopes, denied)])
    ensures Normalized([NormalPair(scopes, denied)]) == [NormalPair(scopes, denied)]
  {
    var r := NormalizedList(scopes);
    var a := Alternative(if r == [] then [] else [r], NormalizedList(denied));
    NormalPairIsNormal(scopes, denied);
    OneNormal(a);
    NormalizedIdempotent([a]);
  }

  /** A pair of lists survives being made an expression and projected back, up to normal form. */
  lemma ScopesRoundTrip(scopes: seq<string>, denied: seq<string>)
    ensures LegacyOf(ExpressionOf(scopes, denied)) ==
            if HasWildcard(denied) then NO_MATCH else Legacy(SortedNormalized(scopes), SortedNormalized(denied))
  {
    ExpressionOfIsPair(scopes, denied);
    WildcardMeant(denied);
    WildcardMeant(SortedNormalized(denied));
    SortedNormalizedMeans(denied);
    assert NormalPair(scopes, denied) in [NormalPair(scopes, denied)];
  }

  /** The expression made from two lists allows what the lists allow; an administrator, always. */
  lemma ExpressionOfMeans(c: Context, scopes: seq<string>, denied: seq<string>)
    ensures AllowsExpression(c, ExpressionOf(scopes, denied)) <==>
            c.admin || c.Allows(SortedNormalized(scopes), SortedNormalized(denied))
  {
    var a := NormalPair(scopes, denied);
    ExpressionOfIsPair(scopes, denied);
    assert a in [a];
    if !c.admin { AllowsSingle(c, a); }
  }

  function OneScope(s: string): Alternative {
    Alternative([[s]], [])
  }

  lemma OneScopeIsNormal(s: string)
    requires Clean(s)
    ensures IsNormal(OneScope(s)) && Canonical([s])
  {
    assert Keys([[s]]) == [KeyValues([s])];
  }

  lemma TwoScopes(s: string, t: string)
    requires Clean(s) && Clean(t) && s != t
    ensures Normalized([OneScope(s), OneScope(t)]) == [OneScope(s), OneScope(t)]
    ensures LegacyOf(Of([OneScope(s), OneScope(t)])) == Legacy(SortedNormalized([s, t]), [])
  {
    var a, b := OneScope(s), OneScope(t);
    OneScopeIsNormal(s);
    OneScopeIsNormal(t);
    assert a.requirements[0][0] != b.requirements[0][0];
    NormalsFixed([a, b]);
    assert [a, b][1..] == [b] && [b][1..] == [];
    assert [] + [s] + [t] == [s, t];
    assert Merge([b], [], [] + [s]) == Legacy(SortedNormalized([s, t]), []);
  }

  /** The projection can grant less: being denied one of two alternatives spoils the list merged from both. */
  lemma ProjectionCanGrantLess(c: Context, s: string, t: string)
    requires Clean(s) && Clean(t) && s != t && s != WILDCARD && t != WILDCARD && s != LEGACY_NO_MATCH
    requires c == Context({s}, {t}, false)
    ensures AllowsExpression(c, Of([OneScope(s), OneScope(t)]))
    ensures !AllowsLegacy(c, LegacyOf(Of([OneScope(s), OneScope(t)])))
  {
    TwoScopes(s, t);
    var merged := SortedNormalized([s, t]);
    assert Intersects(c.denied, merged) by {
      SortedNormalizedMembers([s, t], t);
      MeantMembers([s, t], t);
      assert t in [s, t] && Normalize(t) == t;
    }
    assert AllowsAlternative(c, OneScope(s)) by {
      assert s in [s] && Normalize(s) == s;
    }
    assert OneScope(s) in [OneScope(s), OneScope(t)];
  }
}
