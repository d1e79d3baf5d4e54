/** What access expressions allow, and how And, Or and the legacy projection act on it
    (internal/scope/expression.go). */
module ScopeAlgebra {
  import opened Collections
  import opened Strings
  import opened Scope
  import opened ScopeKeys
  import opened ScopeExpression

  // ----- deciding -----

  predicate AllowsAlternative(c: Context, a: Alternative) {
    c.Allows([], a.denied) && forall r :: r in a.requirements ==> c.Allows(r, [])
  }

  predicate AllowsExpression(c: Context, e: Expression) {
    e.Nil? ||
    var normalized := Normalized(e.alternatives);
    normalized != [] && (c.admin || exists a :: a in normalized && AllowsAlternative(c, a))
  }

  // ----- what an alternative means, without normal forms -----

  /** The credential does not shut the context out. */
  ghost predicate Tolerates(c: Context, denied: set<string>) {
    WILDCARD !in denied && WILDCARD !in c.denied && !Hits(c.allowed, denied)
  }

  /** The context holds one of the scopes and is denied none of them. */
  ghost predicate Grants(c: Context, scopes: set<string>) {
    LEGACY_NO_MATCH !in scopes && WILDCARD !in c.denied && !Hits(c.denied, scopes) &&
    (WILDCARD in c.allowed || scopes == {} || Hits(c.allowed, scopes))
  }

  ghost predicate AllMeant(rs: seq<seq<string>>) {
    forall r :: r in rs ==> Meant(r) != {}
  }

  ghost predicate AllGranted(c: Context, rs: seq<seq<string>>) {
    forall r :: r in rs ==> Grants(c, Meant(r))
  }

  ghost predicate Satisfies(c: Context, a: Alternative) {
    AllMeant(a.requirements) &&
    (c.admin || (Tolerates(c, Meant(a.denied)) && AllGranted(c, a.requirements)))
  }

  ghost predicate SomeSatisfied(c: Context, alternatives: seq<Alternative>) {
    exists a :: a in alternatives && Satisfies(c, a)
  }

  // ----- normal forms keep the meaning -----

  lemma CanonicalUnblank(list: seq<string>)
    requires Canonical(list)
    ensures forall v :: v in list ==> Normalize(v) != ""
  {
    assert forall v :: v in list ==> Clean(v);
  }

  lemma AllowsRequirement(c: Context, r: seq<string>)
    requires Canonical(r) && !c.admin
    ensures c.Allows(r, []) <==> Grants(c, Meant(r))
  {
    CanonicalUnblank(r);
    IntersectsMeant(c.allowed, r);
    IntersectsMeant(c.denied, r);
    CanonicalMembers(r, LEGACY_NO_MATCH);
    if r != [] { CanonicalMembers(r, r[0]); }
  }

  lemma AllowsDenied(c: Context, denied: seq<string>)
    requires Canonical(denied) && !c.admin
    ensures c.Allows([], denied) <==> Tolerates(c, Meant(denied))
  {
    CanonicalUnblank(denied);
    IntersectsMeant(c.allowed, denied);
    WildcardMeant(denied);
  }

  /** On normal alternatives the program's test is the meaning. */
  lemma NormalSatisfies(c: Context, a: Alternative)
    requires IsNormal(a)
    ensures Satisfies(c, a) <==> c.admin || AllowsAlternative(c, a)
  {
    forall r | r in a.requirements ensures Meant(r) != {} {
      CanonicalMembers(r, r[0]);
    }
    if !c.admin {
      AllowsDenied(c, a.denied);
      forall r | r in a.requirements ensures c.Allows(r, []) <==> Grants(c, Meant(r)) {
        AllowsRequirement(c, r);
      }
    }
  }

  lemma {:induction false} NormalRequirementsMean(c: Context, rs: seq<seq<string>>)
    ensures NormalRequirements(rs).Some? <==> AllMeant(rs)
    ensures NormalRequirements(rs).Some? ==>
              AllMeant(NormalRequirements(rs).value) &&
              (AllGranted(c, NormalRequirements(rs).value) <==> AllGranted(c, rs))
  {
    if rs != [] {
      var n := |rs| - 1;
      NormalRequirementsMean(c, rs[..n]);
      SortedNormalizedMeans(rs[n]);
      assert rs == rs[..n] + [rs[n]];
    }
  }

  lemma SortByKeyMembers(rs: seq<seq<string>>, r: seq<string>)
    ensures r in SortByKey(rs) <==> r in rs
  {
    SortByKeySorts(rs);
    assert r in SortByKey(rs) <==> r in multiset(SortByKey(rs));
  }

  /** Normalising an alternative drops it exactly when it can never hold and otherwise keeps its meaning. */
  lemma NormalAlternativeMeans(c: Context, a: Alternative)
    ensures NormalAlternative(a).None? <==> !AllMeant(a.requirements)
    ensures NormalAlternative(a).Some? ==> (Satisfies(c, NormalAlternative(a).value) <==> Satisfies(c, a))
  {
    NormalRequirementsMean(c, a.requirements);
    SortedNormalizedMeans(a.denied);
    if NormalAlternative(a).Some? {
      var rs := NormalRequirements(a.requirements).value;
      forall r ensures r in SortByKey(rs) <==> r in rs { SortByKeyMembers(rs, r); }
    }
  }

  lemma NormalsSatisfied(c: Context, alternatives: seq<Alternative>)
    ensures SomeSatisfied(c, Normals(alternatives)) <==> SomeSatisfied(c, alternatives)
  {
    if SomeSatisfied(c, alternatives) {
      var a :| a in alternatives && Satisfies(c, a);
      NormalAlternativeMeans(c, a);
      NormalsMembers(alternatives, NormalAlternative(a).value);
    }
    if SomeSatisfied(c, Normals(alternatives)) {
      var x :| x in Normals(alternatives) && Satisfies(c, x);
      NormalsMembers(alternatives, x);
      var a :| a in alternatives && NormalAlternative(a) == Some(x);
      NormalAlternativeMeans(c, a);
    }
  }

  /** Too many different alternatives to keep. */
  predicate TooMany(alternatives: seq<Alternative>) {
    |Normals(alternatives)| > MAX_ALTERNATIVES
  }

  /** An expression allows a context exactly when it keeps within the cap and some alternative holds. */
  lemma AllowsExpressionMeans(c: Context, e: Expression)
    ensures AllowsExpression(c, e) <==>
            e.Nil? || (!TooMany(e.alternatives) && SomeSatisfied(c, e.alternatives))
  {
    if e.Of? && !TooMany(e.alternatives) {
      var normals := Normals(e.alternatives);
      NormalsDistinct(e.alternatives);
      NormalsSatisfied(c, e.alternatives);
      forall a | a in normals ensures Satisfies(c, a) <==> c.admin || AllowsAlternative(c, a) {
        NormalSatisfies(c, a);
      }
      if c.admin && normals != [] {
        assert Satisfies(c, normals[0]);
      }
    }
  }

  lemma NormalizedMeans(c: Context, e: Expression)
    requires e.Of?
    ensures AllowsExpression(c, Of(Normalized(e.alternatives))) <==> AllowsExpression(c, e)
    ensures !TooMany(Normalized(e.alternatives))
    ensures AllowsExpression(c, e) <==> SomeSatisfied(c, Normalized(e.alternatives))
  {
    NormalizedIdempotent(e.alternatives);
    NormalsDistinct(e.alternatives);
    NormalsFixed(Normals(e.alternatives));
    AllowsExpressionMeans(c, e);
    AllowsExpressionMeans(c, Of(Normalized(e.alternatives)));
  }

  // ----- conjunction -----

  function Combine(l: Alternative, r: Alternative): Alternative {
    Alternative(l.requirements + r.requirements, l.denied + r.denied)
  }

  function Row(l: Alternative, rs: seq<Alternative>): seq<Alternative> {
    if rs == [] then [] else Row(l, rs[..|rs| - 1]) + [Combine(l, rs[|rs| - 1])]
  }

  function Product(ls: seq<Alternative>, rs: seq<Alternative>): seq<Alternative> {
    if ls == [] then [] else Product(ls[..|ls| - 1], rs) + Row(ls[|ls| - 1], rs)
  }

  function Conjoin(ls: seq<Alternative>, rs: seq<Alternative>): seq<Alternative> {
    if ls == [] || rs == [] || |ls| > MAX_ALTERNATIVES / |rs| then [] else Normalized(Product(ls, rs))
  }

  function Conjoined(es: seq<Expression>): seq<Alternative> {
    if es == [] then [TRIVIAL]
    else
      var e := es[|es| - 1];
      var done := Conjoined(es[..|es| - 1]);
      if e.Nil? then done else Conjoin(done, Normalized(e.alternatives))
  }

  function AndOf(es: seq<Expression>): Expression {
    if forall e :: e in es ==> e.Nil? then Nil else Of(Conjoined(es))
  }

  lemma {:induction false} FalseAbsorbs(es: seq<Expression>, n: nat)
    requires n <= |es| && Conjoined(es[..n]) == []
    ensures Conjoined(es) == []
    decreases |es|
  {
    if n == |es| {
      assert es[..n] == es;
    } else {
      assert es[..|es| - 1][..n] == es[..n];
      FalseAbsorbs(es[..|es| - 1], n);
    }
  }

  method Combinations(ls: seq<Alternative>, rs: seq<Alternative>) returns (combined: seq<Alternative>)
    ensures combined == Product(ls, rs)
  {
    combined := [];
    for i := 0 to |ls|
      invariant combined == Product(ls[..i], rs)
    {
      for j := 0 to |rs|
        invariant combined == Product(ls[..i], rs) + Row(ls[i], rs[..j])
      {
        assert rs[..j + 1][..j] == rs[..j];
        combined := combined + [Combine(ls[i], rs[j])];
      }
      assert rs[..|rs|] == rs;
      assert ls[..i + 1][..i] == ls[..i];
    }
    assert ls[..|ls|] == ls;
  }

  /** One operand; false as soon as nothing can be allowed or too much would have to be combined. */
  method AndOperand(alternatives: seq<Alternative>, normalized: seq<Alternative>)
    returns (combined: seq<Alternative>, ok: bool)
    ensures Conjoin(alternatives, normalized) == if ok then combined else []
  {
    if |alternatives| == 0 || |normalized| == 0 {
      return [], false;
    }
    if |alternatives| > MAX_ALTERNATIVES / |normalized| {
      return [], false;
    }
    var product := Combinations(alternatives, normalized);
    var next := NormalizeExpression(Of(product));
    combined, ok := next.alternatives, true;
  }

  lemma ConjoinedStep(es: seq<Expression>, i: nat)
    requires i < |es|
    ensures Conjoined(es[..i + 1]) ==
            if es[i].Nil? then Conjoined(es[..i]) else Conjoin(Conjoined(es[..i]), Normalized(es[i].alternatives))
  {
    assert es[..i + 1][..i] == es[..i];
  }

  method And(es: seq<Expression>) returns (result: Expression)
    ensures result == AndOf(es)
  {
    var alternatives := [TRIVIAL];
    var used := false;
    for i := 0 to |es|
      invariant alternatives == Conjoined(es[..i])
      invariant !used ==> forall j :: 0 <= j < i ==> es[j].Nil?
      invariant used ==> exists e :: e in es && !e.Nil?
    {
      ConjoinedStep(es, i);
      if es[i].Nil? {
        continue;
      }
      used := true;
      var normalized := NormalizeExpression(es[i]);
      var combined, ok := AndOperand(alternatives, normalized.alternatives);
      if !ok {
        FalseAbsorbs(es, i + 1);
        return Of([]);
      }
      alternatives := combined;
    }
    assert es[..|es|] == es;
    if !used {
      return Nil;
    }
    result := Of(alternatives);
  }

  lemma HitsUnion(s: set<string>, d: set<string>, e: set<string>)
    ensures Hits(s, d + e) <==> Hits(s, d) || Hits(s, e)
  {
    assert s * (d + e) == s * d + s * e;
  }

  lemma CombineMeans(c: Context, l: Alternative, r: Alternative)
    ensures Satisfies(c, Combine(l, r)) <==> Satisfies(c, l) && Satisfies(c, r)
  {
    MeantConcat(l.denied, r.denied);
    HitsUnion(c.allowed, Meant(l.denied), Meant(r.denied));
    assert AllMeant(l.requirements + r.requirements) <==> AllMeant(l.requirements) && AllMeant(r.requirements);
    assert AllGranted(c, l.requirements + r.requirements) <==>
           AllGranted(c, l.requirements) && AllGranted(c, r.requirements);
  }

  lemma SomeSatisfiedConcat(c: Context, a: seq<Alternative>, b: seq<Alternative>)
    ensures SomeSatisfied(c, a + b) <==> SomeSatisfied(c, a) || SomeSatisfied(c, b)
  {
  }

  lemma SomeSatisfiedOne(c: Context, a: Alternative)
    ensures SomeSatisfied(c, [a]) <==> Satisfies(c, a)
  {
    assert a in [a];
  }

  lemma {:induction false} RowMeans(c: Context, l: Alternative, rs: seq<Alternative>)
    ensures SomeSatisfied(c, Row(l, rs)) <==> Satisfies(c, l) && SomeSatisfied(c, rs)
  {
    if rs != [] {
      var n := |rs| - 1;
      RowMeans(c, l, rs[..n]);
      CombineMeans(c, l, rs[n]);
      assert rs == rs[..n] + [rs[n]];
      SomeSatisfiedConcat(c, rs[..n], [rs[n]]);
      SomeSatisfiedOne(c, rs[n]);
      SomeSatisfiedConcat(c, Row(l, rs[..n]), [Combine(l, rs[n])]);
      SomeSatisfiedOne(c, Combine(l, rs[n]));
    }
  }

  lemma {:induction false} ProductMeans(c: Context, ls: seq<Alternative>, rs: seq<Alternative>)
    ensures SomeSatisfied(c, Product(ls, rs)) <==> SomeSatisfied(c, ls) && SomeSatisfied(c, rs)
  {
    if ls != [] {
      var n := |ls| - 1;
      ProductMeans(c, ls[..n], rs);
      RowMeans(c, ls[n], rs);
      assert ls == ls[..n] + [ls[n]];
      SomeSatisfiedConcat(c, ls[..n], [ls[n]]);
      SomeSatisfiedOne(c, ls[n]);
      SomeSatisfiedConcat(c, Product(ls[..n], rs), Row(ls[n], rs));
    }
  }

  lemma {:induction false} RowSize(l: Alternative, rs: seq<Alternative>)
    ensures |Row(l, rs)| == |rs|
  {
    if rs != [] { RowSize(l, rs[..|rs| - 1]); }
  }

  lemma {:induction false} ProductSize(ls: seq<Alternative>, rs: seq<Alternative>)
    ensures |Product(ls, rs)| == PairCount(|ls|, |rs|)
  {
    if ls != [] {
      ProductSize(ls[..|ls| - 1], rs);
      RowSize(ls[|ls| - 1], rs);
    }
  }

  function PairCount(m: nat, n: nat): nat {
    if m == 0 then 0 else PairCount(m - 1, n) + n
  }

  lemma {:induction false} TimesIsProduct(m: nat, n: nat)
    ensures PairCount(m, n) == m * n
  {
    if m > 0 { TimesIsProduct(m - 1, n); }
  }

  lemma WithinCap(m: nat, n: nat)
    requires n > 0 && m <= MAX_ALTERNATIVES / n
    ensures m * n <= MAX_ALTERNATIVES
  {
    assert MAX_ALTERNATIVES / n * n <= MAX_ALTERNATIVES;
    assert m * n <= MAX_ALTERNATIVES / n * n;
  }

  /** The step at which And gives up. */
  predicate Oversize(ls: seq<Alternative>, rs: seq<Alternative>) {
    ls != [] && rs != [] && |ls| > MAX_ALTERNATIVES / |rs|
  }

  lemma ConjoinMeans(c: Context, ls: seq<Alternative>, rs: seq<Alternative>)
    ensures SomeSatisfied(c, Conjoin(ls, rs)) <==>
            !Oversize(ls, rs) && SomeSatisfied(c, ls) && SomeSatisfied(c, rs)
  {
    if ls != [] && rs != [] && !Oversize(ls, rs) {
      var product := Product(ls, rs);
      ProductMeans(c, ls, rs);
      ProductSize(ls, rs);
      TimesIsProduct(|ls|, |rs|);
      WithinCap(|ls|, |rs|);
      NormalsGrow(product, |product|);
      NormalsSatisfied(c, product);
    }
  }

  predicate AndCapped(es: seq<Expression>) {
    es != [] &&
    var e := es[|es| - 1];
    var before := es[..|es| - 1];
    AndCapped(before) || (e.Of? && Oversize(Conjoined(before), Normalized(e.alternatives)))
  }

  ghost predicate AllAllow(c: Context, es: seq<Expression>) {
    forall e :: e in es ==> AllowsExpression(c, e)
  }

  /** The empty alternative holds for everyone but a context that is denied everything. */
  lemma TrivialMeans(c: Context)
    ensures Satisfies(c, TRIVIAL) <==> c.admin || WILDCARD !in c.denied
    ensures SomeSatisfied(c, [TRIVIAL]) <==> c.admin || WILDCARD !in c.denied
  {
    SomeSatisfiedOne(c, TRIVIAL);
  }

  lemma {:induction false} ConjoinedMeans(c: Context, es: seq<Expression>)
    ensures SomeSatisfied(c, Conjoined(es)) <==>
            !AndCapped(es) && SomeSatisfied(c, [TRIVIAL]) && AllAllow(c, es)
  {
    if es != [] {
      var n := |es| - 1;
      assert es == es[..n] + [es[n]];
      assert AllAllow(c, es) <==> AllAllow(c, es[..n]) && AllowsExpression(c, es[n]);
      ConjoinedMeans(c, es[..n]);
      if es[n].Of? {
        NormalizedMeans(c, es[n]);
        ConjoinMeans(c, Conjoined(es[..n]), Normalized(es[n].alternatives));
      }
    }
  }

  lemma {:induction false} ConjoinedSmall(es: seq<Expression>)
    ensures |Conjoined(es)| <= MAX_ALTERNATIVES
  {
    if es != [] { ConjoinedSmall(es[..|es| - 1]); }
  }

  /** Every alternative of every expression needs the context not to be denied everything. */
  lemma SatisfiedNeedsTrivial(c: Context, e: Expression)
    requires e.Of? && AllowsExpression(c, e)
    ensures SomeSatisfied(c, [TRIVIAL])
  {
    AllowsExpressionMeans(c, e);
    TrivialMeans(c);
  }

  /** And allows what all of its operands allow, unless a product outgrew the cap; then it allows nothing. */
  lemma AndMeans(c: Context, es: seq<Expression>)
    ensures AllowsExpression(c, AndOf(es)) <==>
            (forall e :: e in es ==> e.Nil?) || (!AndCapped(es) && AllAllow(c, es))
  {
    if !(forall e :: e in es ==> e.Nil?) {
      var e :| e in es && e.Of?;
      if AllAllow(c, es) { SatisfiedNeedsTrivial(c, e); }
      ConjoinedMeans(c, es);
      ConjoinedSmall(es);
      NormalsGrow(Conjoined(es), 0);
      AllowsExpressionMeans(c, AndOf(es));
    }
  }

  lemma {:induction false} TrivialRow(rs: seq<Alternative>)
    ensures Row(TRIVIAL, rs) == rs
  {
    if rs != [] {
      var n := |rs| - 1;
      TrivialRow(rs[..n]);
      assert Combine(TRIVIAL, rs[n]) == rs[n] by {
        assert [] + rs[n].requirements == rs[n].requirements && [] + rs[n].denied == rs[n].denied;
      }
      assert rs == rs[..n] + [rs[n]];
    }
  }

  /** A single operand comes back in normal form. */
  lemma AndOfOne(e: Expression)
    requires e.Of?
    ensures Conjoined([e]) == Normalized(e.alternatives)
  {
    var rs := Normalized(e.alternatives);
    assert [e][..0] == [] && [TRIVIAL][..0] == [];
    TrivialRow(rs);
    assert Product([TRIVIAL], rs) == [] + rs == rs;
    NormalizedIdempotent(e.alternatives);
    if rs != [] { QuotientPositive(|rs|); }
  }

  lemma QuotientPositive(n: nat)
    requires 0 < n <= MAX_ALTERNATIVES
    ensures 1 <= MAX_ALTERNATIVES / n
  {
  }

  lemma BeyondCap(m: nat, n: nat)
    requires n > 0 && m > MAX_ALTERNATIVES / n
    ensures m * n > MAX_ALTERNATIVES
  {
    var q := MAX_ALTERNATIVES / n;
    assert MAX_ALTERNATIVES == q * n + MAX_ALTERNATIVES % n;
    assert m * n >= (q + 1) * n == q * n + n;
  }

  /** Two operands are capped exactly when the number of pairs exceeds the cap. */
  lemma AndOfTwoCap(a: Expression, b: Expression)
    requires a.Of? && b.Of?
    ensures AndCapped([a, b]) <==> |Normalized(a.alternatives)| * |Normalized(b.alternatives)| > MAX_ALTERNATIVES
  {
    var ls, rs := Normalized(a.alternatives), Normalized(b.alternatives);
    assert [a, b][..1] == [a] && [a][..0] == [];
    AndOfOne(a);
    NormalizedIdempotent(a.alternatives);
    assert !AndCapped([a]) by {
      if ls != [] { QuotientPositive(|ls|); }
    }
    if ls != [] && rs != [] {
      if Oversize(ls, rs) { BeyondCap(|ls|, |rs|); } else { WithinCap(|ls|, |rs|); }
    }
  }

  // ----- disjunction -----

  /** What Or collects: the normal alternatives of each operand, and an empty one for no restriction. */
  function Gathered(es: seq<Expression>): seq<Alternative> {
    if es == [] then []
    else
      var e := es[|es| - 1];
      Gathered(es[..|es| - 1]) + if e.Nil? then [TRIVIAL] else Normalized(e.alternatives)
  }

  function OrOf(es: seq<Expression>): Expression {
    if |Gathered(es)| > MAX_ALTERNATIVES then Of([]) else Of(Normalized(Gathered(es)))
  }

  lemma {:induction false} GatheredGrows(es: seq<Expression>, n: nat)
    requires n <= |es|
    ensures |Gathered(es[..n])| <= |Gathered(es)|
    decreases |es|
  {
    if n == |es| {
      assert es[..n] == es;
    } else {
      assert es[..|es| - 1][..n] == es[..n];
      GatheredGrows(es[..|es| - 1], n);
    }
  }

  method Or(es: seq<Expression>) returns (result: Expression)
    ensures result == OrOf(es)
  {
    if |es| == 0 {
      return Of([]);
    }
    var alternatives := [];
    for i := 0 to |es|
      invariant alternatives == Gathered(es[..i])
      invariant |alternatives| <= MAX_ALTERNATIVES
    {
      assert es[..i + 1][..i] == es[..i];
      GatheredGrows(es, i + 1);
      if es[i].Nil? {
        if |alternatives| == MAX_ALTERNATIVES {
          return Of([]);
        }
        alternatives := alternatives + [TRIVIAL];
        continue;
      }
      var normalized := NormalizeExpression(es[i]);
      if |alternatives| + |normalized.alternatives| > MAX_ALTERNATIVES {
        return Of([]);
      }
      alternatives := alternatives + normalized.alternatives;
    }
    assert es[..|es|] == es;
    result := NormalizeExpression(Of(alternatives));
  }

  /** An absent operand counts as the empty alternative. */
  ghost predicate OperandAllows(c: Context, e: Expression) {
    if e.Nil? then c.admin || WILDCARD !in c.denied else AllowsExpression(c, e)
  }

  ghost predicate SomeOperandAllows(c: Context, es: seq<Expression>) {
    exists e :: e in es && OperandAllows(c, e)
  }

  lemma {:induction false} GatheredMeans(c: Context, es: seq<Expression>)
    ensures SomeSatisfied(c, Gathered(es)) <==> SomeOperandAllows(c, es)
  {
    if es != [] {
      var n := |es| - 1;
      var last := if es[n].Nil? then [TRIVIAL] else Normalized(es[n].alternatives);
      assert es == es[..n] + [es[n]];
      assert SomeOperandAllows(c, es) <==> SomeOperandAllows(c, es[..n]) || OperandAllows(c, es[n]);
      GatheredMeans(c, es[..n]);
      SomeSatisfiedConcat(c, Gathered(es[..n]), last);
      if es[n].Nil? {
        TrivialMeans(c);
      } else {
        NormalizedMeans(c, es[n]);
      }
    }
  }

  /** Or allows what some operand allows, unless the alternatives outgrew the cap; then it allows nothing. */
  lemma OrMeans(c: Context, es: seq<Expression>)
    ensures AllowsExpression(c, OrOf(es)) <==>
            |Gathered(es)| <= MAX_ALTERNATIVES && SomeOperandAllows(c, es)
  {
    if |Gathered(es)| <= MAX_ALTERNATIVES {
      NormalsGrow(Gathered(es), 0);
      GatheredMeans(c, es);
      NormalizedMeans(c, Of(Gathered(es)));
      AllowsExpressionMeans(c, Of(Gathered(es)));
    } else {
      assert Normalized([]) == [];
    }
  }

  /** An unrestricted operand does not make Or unrestricted: denying everything still wins. */
  lemma OrOfNilIsRestricted(c: Context)
    ensures AllowsExpression(c, Nil)
    ensures AllowsExpression(c, OrOf([Nil])) <==> c.admin || WILDCARD !in c.denied
  {
    assert [Nil][..0] == [];
    assert Gathered([Nil]) == [TRIVIAL];
    OrMeans(c, [Nil]);
    assert OperandAllows(c, Nil) <==> SomeOperandAllows(c, [Nil]) by {
      assert Nil in [Nil];
    }
  }
}
