/** Optional values, lists without repetition, and concatenation. */
module Collections {

  datatype Option<T> = None | Some(value: T)

  ghost predicate Distinct<T>(s: seq<T>) {
    forall i, j :: 0 <= i < j < |s| ==> s[i] != s[j]
  }

  lemma {:induction false} DistinctCounts<T>(a: seq<T>, x: T)
    requires Distinct(a)
    ensures multiset(a)[x] == if x in a then 1 else 0
  {
    if a != [] {
      var n := |a| - 1;
      DistinctCounts(a[..n], x);
      assert a == a[..n] + [a[n]];
    }
  }

  lemma {:induction false} CountsDistinct<T>(a: seq<T>)
    requires forall x :: multiset(a)[x] <= 1
    ensures Distinct(a)
  {
    if a != [] {
      var n := |a| - 1;
      assert a == a[..n] + [a[n]];
      assert forall x :: multiset(a[..n])[x] <= multiset(a)[x];
      CountsDistinct(a[..n]);
      assert a[n] !in multiset(a[..n]);
    }
  }

  function Without<T(==,!new)>(s: seq<T>, v: T): (r: seq<T>)
    ensures forall x :: x in r <==> x in s && x != v
  {
    if s == [] then []
    else
      var n := |s| - 1;
      assert s == s[..n] + [s[n]];
      Without(s[..n], v) + if s[n] != v then [s[n]] else []
  }

  lemma {:induction false} WithoutDistinct<T(!new)>(s: seq<T>, v: T)
    requires Distinct(s)
    ensures Distinct(Without(s, v))
  {
    if s != [] {
      var n := |s| - 1;
      WithoutDistinct(s[..n], v);
      assert s[n] !in s[..n];
    }
  }

  lemma {:induction false} WithoutAbsent<T(!new)>(s: seq<T>, v: T)
    requires v !in s
    ensures Without(s, v) == s
  {
    if s != [] {
      var n := |s| - 1;
      assert s == s[..n] + [s[n]];
      WithoutAbsent(s[..n], v);
    }
  }

  lemma Assoc<T>(a: seq<T>, b: seq<T>, c: seq<T>)
    ensures a + b + c == a + (b + c)
  {
  }
}
