/** The double index between credentials and models (internal/models/manager.go): which models a credential lists,
    which credentials a model lists, and how the operations keep the two in step. */
module ModelIndex {
  import opened Collections
  import opened Strings

  type Lists = map<string, seq<string>>

  datatype Index = Index(forward: Lists, reverse: Lists)

  function Get(lists: Lists, key: string): seq<string> {
    if key in lists then lists[key] else []
  }

  predicate Has(lists: Lists, key: string, v: string) {
    v in Get(lists, key)
  }

  ghost predicate DistinctLists(lists: Lists) {
    forall k :: k in lists ==> Distinct(lists[k])
  }

  ghost predicate NoEmptyList(lists: Lists) {
    forall k :: k in lists ==> lists[k] != []
  }

  /** Every model listed for a credential lists that credential back. */
  ghost predicate ListedBack(ix: Index) {
    forall c, m :: Has(ix.forward, c, m) ==> Has(ix.reverse, m, c)
  }

  /** And the other way round, which not every operation keeps. */
  ghost predicate Matching(ix: Index) {
    forall c, m :: Has(ix.reverse, m, c) ==> Has(ix.forward, c, m)
  }

  ghost predicate Sound(ix: Index) {
    DistinctLists(ix.forward) && DistinctLists(ix.reverse) && NoEmptyList(ix.reverse) && ListedBack(ix)
  }

  // ----- adding one entry -----

  function AddTo(lists: Lists, key: string, v: string): Lists {
    if Has(lists, key, v) then lists else lists[key := Get(lists, key) + [v]]
  }

  lemma AddToHas(lists: Lists, key: string, v: string, k: string, x: string)
    ensures Has(AddTo(lists, key, v), k, x) <==> Has(lists, k, x) || (k == key && x == v)
  {
  }

  lemma AddToDistinct(lists: Lists, key: string, v: string)
    requires DistinctLists(lists)
    ensures DistinctLists(AddTo(lists, key, v))
    ensures NoEmptyList(lists) ==> NoEmptyList(AddTo(lists, key, v))
  {
    if !Has(lists, key, v) {
      assert Distinct(Get(lists, key) + [v]);
    }
  }

  function Added(ix: Index, c: string, m: string): Index {
    Index(AddTo(ix.forward, c, m), AddTo(ix.reverse, m, c))
  }

  lemma AddedKeepsSound(ix: Index, c: string, m: string)
    requires Sound(ix)
    ensures Sound(Added(ix, c, m))
    ensures Matching(ix) ==> Matching(Added(ix, c, m))
  {
    AddToDistinct(ix.forward, c, m);
    AddToDistinct(ix.reverse, m, c);
    forall d, x
      ensures Has(AddTo(ix.forward, c, m), d, x) <==> Has(ix.forward, d, x) || (d == c && x == m)
      ensures Has(AddTo(ix.reverse, m, c), x, d) <==> Has(ix.reverse, x, d) || (d == c && x == m)
    {
      AddToHas(ix.forward, c, m, d, x);
      AddToHas(ix.reverse, m, c, x, d);
    }
  }

  // ----- replacing the models of one credential -----

  /** A credential taken out of every list; lists that become empty disappear. */
  function Dropped(reverse: Lists, c: string): Lists {
    map m | m in reverse && Without(reverse[m], c) != [] :: Without(reverse[m], c)
  }

  lemma DroppedHas(reverse: Lists, c: string, m: string, d: string)
    ensures Has(Dropped(reverse, c), m, d) <==> Has(reverse, m, d) && d != c
  {
    assert m in reverse ==> (d in Without(reverse[m], c) <==> d in reverse[m] && d != c);
  }

  lemma DroppedDistinct(reverse: Lists, c: string)
    requires DistinctLists(reverse)
    ensures DistinctLists(Dropped(reverse, c)) && NoEmptyList(Dropped(reverse, c))
  {
    forall m | m in Dropped(reverse, c) ensures Distinct(Dropped(reverse, c)[m]) {
      WithoutDistinct(reverse[m], c);
    }
  }

  /** The credential appended to the list of each of these models. */
  function Claimed(reverse: Lists, models: seq<string>, c: string): Lists {
    if models == [] then reverse
    else AddTo(Claimed(reverse, models[..|models| - 1], c), models[|models| - 1], c)
  }

  lemma {:induction false} ClaimedHas(reverse: Lists, models: seq<string>, c: string, m: string, d: string)
    ensures Has(Claimed(reverse, models, c), m, d) <==> Has(reverse, m, d) || (d == c && m in models)
  {
    if models != [] {
      var front, last := models[..|models| - 1], models[|models| - 1];
      ClaimedHas(reverse, front, c, m, d);
      AddToHas(Claimed(reverse, front, c), last, c, m, d);
      assert models == front + [last];
    }
  }

  lemma {:induction false} ClaimedDistinct(reverse: Lists, models: seq<string>, c: string)
    requires DistinctLists(reverse)
    ensures DistinctLists(Claimed(reverse, models, c))
    ensures NoEmptyList(reverse) ==> NoEmptyList(Claimed(reverse, models, c))
  {
    if models != [] {
      var front := models[..|models| - 1];
      ClaimedDistinct(reverse, front, c);
      AddToDistinct(Claimed(reverse, front, c), models[|models| - 1], c);
    }
  }

  function Replaced(ix: Index, c: string, replacement: seq<string>): Index {
    Index(ix.forward[c := replacement], Claimed(Dropped(ix.reverse, c), replacement, c))
  }

  /** After a replace both maps say the same about the credential, and nothing changed for any other. */
  lemma ReplacedAgrees(ix: Index, c: string, replacement: seq<string>, d: string, m: string)
    ensures var r := Replaced(ix, c, replacement);
            && (Has(r.forward, c, m) <==> m in replacement)
            && (Has(r.reverse, m, c) <==> m in replacement)
            && (d != c ==> (Has(r.forward, d, m) <==> Has(ix.forward, d, m)))
            && (d != c ==> (Has(r.reverse, m, d) <==> Has(ix.reverse, m, d)))
  {
    DroppedHas(ix.reverse, c, m, c);
    DroppedHas(ix.reverse, c, m, d);
    ClaimedHas(Dropped(ix.reverse, c), replacement, c, m, c);
    ClaimedHas(Dropped(ix.reverse, c), replacement, c, m, d);
  }

  lemma ReplacedKeepsSound(ix: Index, c: string, replacement: seq<string>)
    requires Sound(ix) && Distinct(replacement)
    ensures Sound(Replaced(ix, c, replacement))
    ensures Matching(ix) ==> Matching(Replaced(ix, c, replacement))
  {
    var r := Replaced(ix, c, replacement);
    DroppedDistinct(ix.reverse, c);
    ClaimedDistinct(Dropped(ix.reverse, c), replacement, c);
    forall d, m ensures Has(r.forward, d, m) ==> Has(r.reverse, m, d) {
      ReplacedAgrees(ix, c, replacement, d, m);
    }
    if Matching(ix) {
      forall d, m ensures Has(r.reverse, m, d) ==> Has(r.forward, d, m) {
        ReplacedAgrees(ix, c, replacement, d, m);
      }
    }
  }

  /** First occurrences of the non-blank names. */
  function Desired(ids: seq<string>): seq<string> {
    if ids == [] then []
    else
      var front, last := Desired(ids[..|ids| - 1]), ids[|ids| - 1];
      if last == "" || last in front then front else front + [last]
  }

  lemma {:induction false} DesiredMembers(ids: seq<string>, x: string)
    ensures x in Desired(ids) <==> x in ids && x != ""
    ensures Distinct(Desired(ids))
  {
    if ids != [] {
      DesiredMembers(ids[..|ids| - 1], x);
      assert ids == ids[..|ids| - 1] + [ids[|ids| - 1]];
    }
  }

  /** The credentials each configured model is limited to; the blank name stands for every credential. */
  type Limits = map<string, seq<string>>

  predicate IsConfigured(limits: Limits, m: string, c: string) {
    m in limits && exists l :: l in limits[m] && (l == "" || l == c)
  }

  ghost function Configured(limits: Limits, c: string): set<string> {
    set m | m in limits && IsConfigured(limits, m, c)
  }

  /** The reported models in their order, then the configured ones it does not report. */
  ghost function Replacement(limits: Limits, c: string, ids: seq<string>): seq<string> {
    Desired(ids) + Listed(Unreported(limits, c, ids))
  }

  lemma ListedMembers(s: set<string>, x: string)
    ensures x in Listed(s) <==> x in s
    ensures Distinct(Listed(s))
  {
    ListedLists(s);
    assert x in Listed(s) <==> x in multiset(Listed(s));
    CountsDistinct(Listed(s));
  }

  lemma DistinctConcat(a: seq<string>, b: seq<string>)
    requires Distinct(a) && Distinct(b) && forall x :: x in b ==> x !in a
    ensures Distinct(a + b)
  {
    forall i, j | 0 <= i < j < |a + b| ensures (a + b)[i] != (a + b)[j] {
      assert (a + b)[i] == if i < |a| then a[i] else b[i - |a|];
      assert (a + b)[j] == if j < |a| then a[j] else b[j - |a|];
      if i < |a| <= j { assert b[j - |a|] in b; }
    }
  }

  function Members(s: seq<string>): set<string> {
    set m | m in s
  }

  ghost function Unreported(limits: Limits, c: string, ids: seq<string>): set<string> {
    Configured(limits, c) - Members(Desired(ids))
  }

  lemma ReplacementMembers(limits: Limits, c: string, ids: seq<string>, m: string)
    ensures m in Replacement(limits, c, ids) <==> (m in ids && m != "") || IsConfigured(limits, m, c)
  {
    DesiredMembers(ids, m);
    ListedMembers(Unreported(limits, c, ids), m);
  }

  lemma ReplacementDistinct(limits: Limits, c: string, ids: seq<string>)
    ensures Distinct(Replacement(limits, c, ids))
  {
    var desired, others := Desired(ids), Listed(Unreported(limits, c, ids));
    DesiredMembers(ids, "");
    ListedMembers(Unreported(limits, c, ids), "");
    forall m | m in others ensures m !in desired {
      ListedMembers(Unreported(limits, c, ids), m);
    }
    DistinctConcat(desired, others);
  }
}
