/** Length-prefixed keys for lists of scopes and for request contexts (internal/scope/scope.go, expression.go). */
module ScopeKeys {
  import opened Strings
  import opened Scope

  // ----- lists of arbitrary strings -----

  function Field(value: string): string {
    Itoa(|value|) + ":" + value
  }

  function KeyValues(values: seq<string>): string {
    if values == [] then "" else Field(values[0]) + KeyValues(values[1..])
  }

  lemma {:induction false} KeyValuesAppend(values: seq<string>, v: string)
    ensures KeyValues(values + [v]) == KeyValues(values) + Field(v)
  {
    if values == [] {
      assert [v][1..] == [];
    } else {
      KeyValuesAppend(values[1..], v);
      assert (values + [v])[1..] == values[1..] + [v];
      assert Field(values[0]) + (KeyValues(values[1..]) + Field(v)) == KeyValues(values) + Field(v);
    }
  }

  method EncodeKeyValues(values: seq<string>) returns (key: string)
    ensures key == KeyValues(values)
  {
    key := "";
    for i := 0 to |values|
      invariant key == KeyValues(values[..i])
    {
      KeyValuesAppend(values[..i], values[i]);
      assert values[..i + 1] == values[..i] + [values[i]];
      key := key + Itoa(|values[i]|);
      key := key + ":";
      key := key + values[i];
    }
    assert values[..|values|] == values;
  }

  /** The text after a list: nothing, or something that cannot continue a length. */
  predicate Stops(s: string) {
    s == "" || !IsDigit(s[0])
  }

  lemma {:induction false} NumeralEnds(a: string, x: string, b: string, y: string)
    requires AllDigits(a) && AllDigits(b) && Stops(x) && Stops(y)
    requires a + x == b + y
    ensures a == b && x == y
  {
    if a == "" {
      assert a + x == x;
    } else if b != "" {
      assert (a + x)[1..] == a[1..] + x && (b + y)[1..] == b[1..] + y;
      NumeralEnds(a[1..], x, b[1..], y);
      assert a == [(a + x)[0]] + a[1..] && b == [(b + y)[0]] + b[1..];
    }
  }

  /** A field can be read back from the front of any text. */
  lemma FieldParses(v: string, x: string, w: string, y: string)
    requires Field(v) + x == Field(w) + y
    ensures v == w && x == y
  {
    var left, right := ":" + v + x, ":" + w + y;
    assert Itoa(|v|) + left == Field(v) + x;
    assert Itoa(|w|) + right == Field(w) + y;
    NumeralEnds(Itoa(|v|), left, Itoa(|w|), right);
    ItoaInjective(|v|, |w|);
    assert v == left[1..|v| + 1] && w == right[1..|w| + 1];
    assert x == left[|v| + 1..] && y == right[|w| + 1..];
  }

  lemma KeyValuesFront(values: seq<string>, x: string)
    requires values != []
    ensures KeyValues(values) + x == Field(values[0]) + (KeyValues(values[1..]) + x)
    ensures !Stops(KeyValues(values) + x)
  {
    assert Itoa(|values[0]|) != "";
  }

  /** Whatever follows, the list can be read back: no value can imitate a separator or a length. */
  lemma {:induction false} KeyValuesParses(a: seq<string>, x: string, b: seq<string>, y: string)
    requires Stops(x) && Stops(y)
    requires KeyValues(a) + x == KeyValues(b) + y
    ensures a == b && x == y
    decreases |a|
  {
    if a == [] || b == [] {
      assert "" + x == x && "" + y == y;
      if a != [] { KeyValuesFront(a, x); }
      if b != [] { KeyValuesFront(b, y); }
    } else {
      KeyValuesFront(a, x);
      KeyValuesFront(b, y);
      FieldParses(a[0], KeyValues(a[1..]) + x, b[0], KeyValues(b[1..]) + y);
      KeyValuesParses(a[1..], x, b[1..], y);
      assert a == [a[0]] + a[1..] && b == [b[0]] + b[1..];
    }
  }

  lemma KeyValuesInjective(a: seq<string>, b: seq<string>)
    ensures KeyValues(a) == KeyValues(b) <==> a == b
  {
    if KeyValues(a) == KeyValues(b) {
      KeyValuesParses(a, "", b, "");
    }
  }

  // ----- contexts -----

  lemma ListedInjective(s: set<string>, t: set<string>)
    ensures Listed(s) == Listed(t) <==> s == t
  {
    ListedLists(s);
    ListedLists(t);
    if Listed(s) == Listed(t) {
      forall x ensures x in s <==> x in t {
        assert multiset(s)[x] == multiset(t)[x];
      }
    }
  }

  ghost function ContextKey(c: Context): string {
    if c.admin then "admin"
    else if c.allowed == {} && c.denied == {} then "public"
    else PairKey(Listed(c.allowed), Listed(c.denied))
  }

  method Key(c: Context) returns (key: string)
    ensures key == ContextKey(c)
  {
    if c.admin {
      return "admin";
    }
    var allowed := SetToList(c.allowed);
    var denied := SetToList(c.denied);
    ListedInjective(c.allowed, {});
    ListedInjective(c.denied, {});
    if |allowed| == 0 && |denied| == 0 {
      return "public";
    }
    var a := EncodeKeyValues(allowed);
    var d := EncodeKeyValues(denied);
    key := "a:" + a + "|d:" + d;
    assert key == PairKey(allowed, denied);
  }

  lemma Cancel(p: string, s: string, t: string)
    requires p + s == p + t
    ensures s == t
  {
    assert s == (p + s)[|p|..] && t == (p + t)[|p|..];
  }

  function PairKey(allowed: seq<string>, denied: seq<string>): string {
    "a:" + (KeyValues(allowed) + ("|d:" + KeyValues(denied)))
  }

  lemma PairKeyInjective(a: seq<string>, d: seq<string>, b: seq<string>, e: seq<string>)
    requires PairKey(a, d) == PairKey(b, e)
    ensures a == b && d == e
  {
    var x, y := "|d:" + KeyValues(d), "|d:" + KeyValues(e);
    Cancel("a:", KeyValues(a) + x, KeyValues(b) + y);
    KeyValuesParses(a, x, b, y);
    Cancel("|d:", KeyValues(d), KeyValues(e));
    KeyValuesInjective(d, e);
  }

  /** Two contexts share a key exactly when both are administrators or neither is and their scopes agree. */
  lemma ContextKeyIsFaithful(c: Context, e: Context)
    ensures ContextKey(c) == ContextKey(e) <==>
            (c.admin && e.admin) || (!c.admin && !e.admin && c.allowed == e.allowed && c.denied == e.denied)
  {
    var k, l := ContextKey(c), ContextKey(e);
    assert k[1] == (if c.admin then 'd' else if c.allowed == {} && c.denied == {} then 'u' else ':');
    assert l[1] == (if e.admin then 'd' else if e.allowed == {} && e.denied == {} then 'u' else ':');
    if k == l && k[1] == ':' {
      PairKeyInjective(Listed(c.allowed), Listed(c.denied), Listed(e.allowed), Listed(e.denied));
      ListedInjective(c.allowed, e.allowed);
      ListedInjective(c.denied, e.denied);
    }
  }

  /** Results cached under a context's key serve every context with that key. */
  lemma SameKeySameDecision(c: Context, e: Context, scopes: seq<string>, denied: seq<string>)
    requires ContextKey(c) == ContextKey(e)
    ensures c.Allows(scopes, denied) == e.Allows(scopes, denied)
  {
    ContextKeyIsFaithful(c, e);
  }
}
