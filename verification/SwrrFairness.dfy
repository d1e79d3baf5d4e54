/**
 Fairness of smooth weighted round-robin over whole runs: a fixed live set, a fresh cycle,
 and the leftmost largest counter committed in every round.
 */
module SwrrFairness {
  import opened Swrr

  function Sum(s: seq<int>): int {
    if s == [] then 0 else s[0] + Sum(s[1..])
  }

  ghost predicate Weights(w: seq<int>) {
    |w| > 0 && forall i :: 0 <= i < |w| ==> w[i] >= 1
  }

  ghost predicate IsLeftmostMax(s: seq<int>, p: nat) {
    && p < |s|
    && (forall i :: 0 <= i < |s| ==> s[i] <= s[p])
    && (forall i :: 0 <= i < p ==> s[i] < s[p])
  }

  /** The index of the leftmost largest element: the head of a stable descending sort. */
  function LeftmostMax(s: seq<int>): (p: nat)
    requires |s| > 0
    ensures p < |s|
  {
    LeftmostMaxOf(s, |s|)
  }

  function LeftmostMaxOf(s: seq<int>, n: nat): (p: nat)
    requires 0 < n <= |s|
    ensures p < n
  {
    if n == 1 then 0
    else
      var q := LeftmostMaxOf(s, n - 1);
      if s[n - 1] > s[q] then n - 1 else q
  }

  lemma {:induction false} LeftmostMaxOfPrefix(s: seq<int>, n: nat)
    requires 0 < n <= |s|
    ensures forall i :: 0 <= i < n ==> s[i] <= s[LeftmostMaxOf(s, n)]
    ensures forall i :: 0 <= i < LeftmostMaxOf(s, n) ==> s[i] < s[LeftmostMaxOf(s, n)]
  {
    if n > 1 {
      LeftmostMaxOfPrefix(s, n - 1);
    }
  }

  /** LeftmostMax finds the leftmost maximum, and there is only one. */
  lemma LeftmostMaxIsUnique(s: seq<int>, p: nat)
    requires |s| > 0
    ensures IsLeftmostMax(s, p) <==> p == LeftmostMax(s)
  {
    LeftmostMaxOfPrefix(s, |s|);
    if IsLeftmostMax(s, p) {
      var q := LeftmostMax(s);
      assert s[p] <= s[q] && s[q] <= s[p];
    }
  }

  function Credit(cur: seq<int>, w: seq<int>): (c: seq<int>)
    requires |cur| == |w|
    ensures |c| == |w|
  {
    seq(|w|, i requires 0 <= i < |w| => cur[i] + w[i])
  }

  /** One selection round: credit everyone, charge the leftmost maximum the total weight. */
  function Step(cur: seq<int>, w: seq<int>): (c: seq<int>)
    requires |cur| == |w| > 0
    ensures |c| == |w|
  {
    var c := Credit(cur, w);
    var p := LeftmostMax(c);
    c[p := c[p] - Sum(w)]
  }

  /** The counters after k rounds of a fresh cycle. */
  function After(w: seq<int>, k: nat): (c: seq<int>)
    requires |w| > 0
    ensures |c| == |w|
  {
    if k == 0 then seq(|w|, _ => 0) else Step(After(w, k - 1), w)
  }

  /** The index picked in round k, counting rounds from zero. */
  function PickAt(w: seq<int>, k: nat): (p: nat)
    requires |w| > 0
    ensures p < |w|
  {
    LeftmostMax(Credit(After(w, k), w))
  }

  /** How often index i is picked in the rounds start..stop. */
  function Picks(w: seq<int>, i: nat, start: nat, stop: nat): nat
    requires |w| > 0 && start <= stop
    decreases stop
  {
    if start == stop then 0
    else Picks(w, i, start, stop - 1) + if PickAt(w, stop - 1) == i then 1 else 0
  }

  // ----- sums -----

  lemma {:induction false} SumCredit(cur: seq<int>, w: seq<int>)
    requires |cur| == |w|
    ensures Sum(Credit(cur, w)) == Sum(cur) + Sum(w)
  {
    if |w| == 0 {
    } else {
      assert Credit(cur, w)[1..] == Credit(cur[1..], w[1..]);
      SumCredit(cur[1..], w[1..]);
    }
  }

  lemma {:induction false} SumUpdate(s: seq<int>, p: nat, v: int)
    requires p < |s|
    ensures Sum(s[p := v]) == Sum(s) - s[p] + v
  {
    if p == 0 {
      assert s[p := v][1..] == s[1..];
    } else {
      assert s[p := v][1..] == s[1..][p - 1 := v];
      SumUpdate(s[1..], p - 1, v);
    }
  }

  lemma {:induction false} SumZeros(n: nat)
    ensures Sum(seq(n, _ => 0)) == 0
  {
    if n > 0 {
      assert seq(n, _ => 0)[1..] == seq(n - 1, _ => 0);
      SumZeros(n - 1);
    }
  }

  lemma {:induction false} SumAtMost(s: seq<int>, bound: int)
    requires forall i :: 0 <= i < |s| ==> s[i] <= bound
    ensures Sum(s) <= |s| * bound
  {
    if s != [] {
      SumAtMost(s[1..], bound);
    }
  }

  lemma {:induction false} SumNonNegative(s: seq<int>)
    requires forall i :: 0 <= i < |s| ==> s[i] >= 0
    ensures Sum(s) >= 0
    ensures Sum(s) == 0 ==> forall i :: 0 <= i < |s| ==> s[i] == 0
  {
    if s != [] {
      SumNonNegative(s[1..]);
      assert forall i :: 0 < i < |s| ==> s[i] == s[1..][i - 1];
    }
  }

  lemma {:induction false} SumPositive(w: seq<int>)
    requires Weights(w)
    ensures Sum(w) >= |w|
  {
    if |w| > 1 {
      SumPositive(w[1..]);
    }
  }

  // ----- invariants of every run -----

  ghost predicate Balanced(cur: seq<int>, w: seq<int>) {
    && |cur| == |w|
    && Sum(cur) == 0
    && forall i :: 0 <= i < |cur| ==> cur[i] > -Sum(w)
  }

  lemma MaximumIsPositive(c: seq<int>)
    requires |c| > 0 && Sum(c) > 0
    ensures c[LeftmostMax(c)] > 0
  {
    LeftmostMaxIsUnique(c, LeftmostMax(c));
    if c[LeftmostMax(c)] <= 0 {
      SumAtMost(c, 0);
    }
  }

  /** A round keeps the counters balanced, whatever they were. */
  lemma StepKeepsBalance(cur: seq<int>, w: seq<int>)
    requires Weights(w) && Balanced(cur, w)
    ensures Balanced(Step(cur, w), w)
  {
    var c := Credit(cur, w);
    var p := LeftmostMax(c);
    SumCredit(cur, w);
    SumPositive(w);
    MaximumIsPositive(c);
    SumUpdate(c, p, c[p] - Sum(w));
  }

  /** Counters always add up to zero, and none ever falls a whole cycle behind. */
  lemma {:induction false} EveryRunIsBalanced(w: seq<int>, k: nat)
    requires Weights(w)
    ensures Balanced(After(w, k), w)
  {
    if k == 0 {
      SumZeros(|w|);
      SumPositive(w);
    } else {
      EveryRunIsBalanced(w, k - 1);
      StepKeepsBalance(After(w, k - 1), w);
    }
  }

  /** A counter records exactly the credit earned minus the charges for picks. */
  lemma {:induction false} Ledger(w: seq<int>, cycle: nat, k: nat, i: nat)
    requires Weights(w) && cycle == Sum(w) && i < |w|
    ensures After(w, k)[i] == k * w[i] - cycle * Picks(w, i, 0, k)
  {
    if k == 0 {
      assert 0 * w[i] == 0 == cycle * 0;
    } else {
      Ledger(w, cycle, k - 1, i);
      LedgerStep(w, cycle, k, i);
      LedgerEntry(k, w[i], cycle, Picks(w, i, 0, k - 1));
    }
  }

  lemma LedgerStep(w: seq<int>, cycle: nat, k: nat, i: nat)
    requires Weights(w) && cycle == Sum(w) && i < |w| && k > 0
    ensures PickAt(w, k - 1) == i ==>
              After(w, k)[i] == After(w, k - 1)[i] + w[i] - cycle && Picks(w, i, 0, k) == Picks(w, i, 0, k - 1) + 1
    ensures PickAt(w, k - 1) != i ==>
              After(w, k)[i] == After(w, k - 1)[i] + w[i] && Picks(w, i, 0, k) == Picks(w, i, 0, k - 1)
  {
  }

  lemma LedgerEntry(k: nat, weight: int, cycle: nat, before: nat)
    ensures k * weight - cycle * before == (k - 1) * weight - cycle * before + weight
    ensures k * weight - cycle * (before + 1) == (k - 1) * weight - cycle * before + weight - cycle
  {
    Distribute(weight, k, 1);
    Distribute(cycle, before, 1);
  }

  lemma {:induction false} PicksSplit(w: seq<int>, i: nat, a: nat, b: nat, c: nat)
    requires |w| > 0 && a <= b <= c
    ensures Picks(w, i, a, c) == Picks(w, i, a, b) + Picks(w, i, b, c)
    decreases c
  {
    if b < c {
      PicksSplit(w, i, a, b, c - 1);
    }
  }

  // ----- main results -----

  lemma MulStrict(c: int, x: int, y: int)
    requires c > 0 && x < y
    ensures c * x < c * y
  {
    assert c * (y - x) > 0;
  }

  lemma MulCancel(c: int, x: int, y: int)
    requires c > 0 && c * x == c * y
    ensures x == y
  {
    if x < y { MulStrict(c, x, y); }
    if y < x { MulStrict(c, y, x); }
  }

  lemma MultipleAboveMinusOne(c: int, x: int)
    requires c > 0 && c * x > -c
    ensures x >= 0 && c * x >= 0
  {
    if x < 0 {
      MulStrict(c, x, 0);
      if x < -1 { MulStrict(c, x, -1); }
    }
  }

  /** After one full cycle of W = Sum(w) rounds every counter is back at zero. */
  lemma {:induction false} CycleReturnsToZero(w: seq<int>, cycle: nat)
    requires Weights(w) && cycle == Sum(w)
    ensures After(w, cycle) == After(w, 0)
  {
    SumPositive(w);
    var end := After(w, cycle);
    EveryRunIsBalanced(w, cycle);
    forall i | 0 <= i < |w| ensures end[i] >= 0 {
      Ledger(w, cycle, cycle, i);
      var picks := Picks(w, i, 0, cycle);
      assert end[i] == cycle * (w[i] - picks) by { Distribute(cycle, w[i], picks); }
      MultipleAboveMinusOne(cycle, w[i] - picks);
    }
    SumNonNegative(end);
  }

  lemma Distribute(c: int, x: int, y: int)
    ensures c * (x - y) == c * x - c * y
    ensures c * (x + y) == c * x + c * y
  {
  }

  /** The schedule repeats with period W. */
  lemma {:induction false} Periodic(w: seq<int>, cycle: nat, k: nat)
    requires Weights(w) && cycle == Sum(w)
    ensures After(w, k + cycle) == After(w, k)
  {
    if k == 0 {
      CycleReturnsToZero(w, cycle);
    } else {
      Periodic(w, cycle, k - 1);
      assert k + cycle - 1 == k - 1 + cycle;
      assert After(w, k + cycle) == Step(After(w, k + cycle - 1), w);
    }
  }

  /** Every window of W consecutive rounds, wherever it starts, picks each index exactly its weight times. */
  lemma {:induction false} EveryWindowIsExact(w: seq<int>, cycle: nat, start: nat, i: nat)
    requires Weights(w) && cycle == Sum(w) && i < |w|
    ensures Picks(w, i, start, start + cycle) == w[i]
  {
    SumPositive(w);
    Periodic(w, cycle, start);
    Ledger(w, cycle, start, i);
    Ledger(w, cycle, start + cycle, i);
    PicksSplit(w, i, 0, start, start + cycle);
    WindowArithmetic(cycle, start, w[i], After(w, start)[i],
      Picks(w, i, 0, start), Picks(w, i, start, start + cycle), Picks(w, i, 0, start + cycle));
  }

  lemma WindowArithmetic(cycle: nat, start: nat, weight: int, owed: int, before: int, inside: int, all: int)
    requires cycle > 0 && all == before + inside
    requires owed == start * weight - cycle * before
    requires owed == (start + cycle) * weight - cycle * all
    ensures inside == weight
  {
    Distribute(cycle, before, inside);
    Distribute(weight, start, cycle);
    MulCancel(cycle, weight, inside);
  }

  /** No prefix of k rounds gives an index more than its share k * w[i] / W plus one pick. */
  lemma {:induction false} PrefixNeverAheadByOne(w: seq<int>, cycle: nat, k: nat, i: nat)
    requires Weights(w) && cycle == Sum(w) && i < |w|
    ensures cycle * Picks(w, i, 0, k) < k * w[i] + cycle
  {
    Ledger(w, cycle, k, i);
    EveryRunIsBalanced(w, k);
  }

  lemma {:induction false} SumConstant(w: seq<int>, c: int)
    requires forall i :: 0 <= i < |w| ==> w[i] == c
    ensures Sum(w) == c * |w|
  {
    if w != [] {
      SumConstant(w[1..], c);
      Distribute(c, |w| - 1, 1);
    }
  }

  /** Counters of n equal weights: the first r indices have been charged the total once. */
  ghost predicate Levels(cur: seq<int>, level: int, total: int, r: nat) {
    forall i :: 0 <= i < |cur| ==> cur[i] == level - if i < r then total else 0
  }

  lemma LevelsPick(cur: seq<int>, w: seq<int>, c: int, r: nat, level: int, total: int)
    requires r < |cur| == |w| && total > 0 && Levels(cur, level, total, r)
    requires forall j :: 0 <= j < |w| ==> w[j] == c
    ensures LeftmostMax(Credit(cur, w)) == r
  {
    LeftmostMaxIsUnique(Credit(cur, w), r);
  }

  lemma LevelsStep(cur: seq<int>, w: seq<int>, c: int, r: nat, level: int, total: int)
    requires r < |cur| == |w| && Sum(w) == total > 0 && Levels(cur, level, total, r)
    requires forall j :: 0 <= j < |w| ==> w[j] == c
    ensures Levels(Step(cur, w), level + c, total, r + 1)
    ensures r + 1 == |w| ==> Levels(Step(cur, w), level + c - total, total, 0)
  {
    LevelsPick(cur, w, c, r, level, total);
  }

  /** k mod n, by counting. */
  ghost function Phase(k: nat, n: nat): (r: nat)
    requires n > 0
    ensures r < n
  {
    if k == 0 || Phase(k - 1, n) + 1 == n then 0 else Phase(k - 1, n) + 1
  }

  lemma {:induction false} PhaseIsRemainder(k: nat, n: nat)
    requires n > 0
    ensures Phase(k, n) == k % n
  {
    if k == 0 {
    } else {
      PhaseIsRemainder(k - 1, n);
      NextRemainder(k - 1, n);
    }
  }

  lemma {:induction false} EqualWeightsRun(w: seq<int>, c: int, k: nat)
    requires Weights(w)
    requires forall j :: 0 <= j < |w| ==> w[j] == c
    ensures Levels(After(w, k), c * Phase(k, |w|), Sum(w), Phase(k, |w|))
  {
    if k == 0 {
      assert c * 0 == 0;
    } else {
      var q := Phase(k - 1, |w|);
      EqualWeightsRun(w, c, k - 1);
      SumPositive(w);
      SumConstant(w, c);
      PhaseLevel(c, q, |w|, Sum(w));
      LevelsStep(After(w, k - 1), w, c, q, c * q, Sum(w));
    }
  }

  lemma PhaseLevel(c: int, q: nat, n: nat, total: int)
    requires total == c * n
    ensures c * (q + 1) == c * q + c
    ensures q + 1 == n ==> c * 0 == c * q + c - total
  {
    Distribute(c, q, 1);
  }

  lemma NextRemainder(k: nat, n: nat)
    requires n > 0
    ensures (k + 1) % n == if k % n + 1 == n then 0 else k % n + 1
  {
    var q, r := k / n, k % n;
    if r + 1 == n {
      Distribute(n, q, 1);
      RemainderOf(k + 1, n, q + 1, 0);
    } else {
      RemainderOf(k + 1, n, q, r + 1);
    }
  }

  /** Quotient and remainder are unique. */
  lemma RemainderOf(a: nat, n: nat, q: int, r: nat)
    requires r < n && a == q * n + r
    ensures a % n == r
  {
    var d := a / n - q;
    assert n * d == r - a % n by { Distribute(n, a / n, q); }
    if d > 0 { MultipleAtLeastOne(n, d); }
    if d < 0 { MultipleAtLeastOne(n, -d); }
  }

  lemma MultipleAtLeastOne(n: int, d: int)
    requires n > 0 && d >= 1
    ensures n * d >= n && n * -d <= -n
  {
    assert n * -d == -(n * d);
  }

  /** Equal weights reproduce plain ascending round-robin. */
  lemma EqualWeightsAreRoundRobin(w: seq<int>, c: int, k: nat)
    requires Weights(w)
    requires forall j :: 0 <= j < |w| ==> w[j] == c
    ensures PickAt(w, k) == k % |w|
  {
    var r := Phase(k, |w|);
    EqualWeightsRun(w, c, k);
    SumPositive(w);
    LevelsPick(After(w, k), w, c, r, c * r, Sum(w));
    PhaseIsRemainder(k, |w|);
  }
}
