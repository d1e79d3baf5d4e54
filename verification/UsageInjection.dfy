/** What setCurrentUsage promises: injected totals read back exactly for the next second. */
module UsageInjection {
  import opened Window
  import opened LocalBackend

  lemma SpreadTimeInside(now: int, i: nat, n: nat)
    requires i < n
    ensures now - 59_000 <= SpreadTime(now, i, n) < now
    ensures i == 0 ==> SpreadTime(now, i, n) == now - 59_000
  {
    assert i * 59_000 < n * 59_000;
    DivBounds(i * 59_000, n, 59_000);
  }

  lemma DivBounds(a: nat, n: nat, bound: nat)
    requires n > 0 && a < n * bound
    ensures 0 <= a / n < bound
  {
    if a / n >= bound {
      assert n * (a / n) >= n * bound by { MulAtLeast(n, a / n, bound); }
    }
  }

  lemma MulAtLeast(n: nat, x: int, y: int)
    requires x >= y
    ensures n * x >= n * y
  {
    assert n * (x - y) >= 0;
  }

  lemma DivMonotone(a: nat, b: nat, n: nat)
    requires n > 0 && a <= b
    ensures a / n <= b / n
  {
    if b / n < a / n {
      MulAtLeast(n, a / n, b / n + 1);
    }
  }

  /** Injected timestamps never go back, and all lie inside the window, before now. */
  lemma InjectedInOrder(rpm: int, now: int, i: nat, j: nat)
    requires i <= j < |InjectedRequests(rpm, now)|
    ensures var h := InjectedRequests(rpm, now); now - WINDOW < h[i] <= h[j] < now
  {
    SpreadTimeInside(now, i, rpm);
    SpreadTimeInside(now, j, rpm);
    DivMonotone(i * 59_000, j * 59_000, rpm);
  }

  lemma {:induction false} AllRecent(h: seq<int>, now: int)
    requires forall i :: 0 <= i < |h| ==> InWindow(h[i], now)
    ensures Recent(h, now) == h
  {
    if h != [] {
      AllRecent(h[..|h| - 1], now);
    }
  }

  lemma {:induction false} FirstExpired(h: seq<int>, now: int)
    requires h != [] && !InWindow(h[0], now)
    ensures |Recent(h, now)| < |h|
  {
    if |h| > 1 {
      FirstExpired(h[..|h| - 1], now);
    }
  }

  lemma {:induction false} AllTokensRecent(h: seq<TokenUse>, now: int)
    requires forall i :: 0 <= i < |h| ==> InWindow(h[i].timestamp, now)
    ensures RecentTokens(h, now) == h
  {
    if h != [] {
      AllTokensRecent(h[..|h| - 1], now);
    }
  }

  lemma {:induction false} FirstTokensExpired(h: seq<TokenUse>, now: int)
    requires h != [] && !InWindow(h[0].timestamp, now)
    requires forall i :: 0 <= i < |h| ==> h[i].count >= 0
    ensures TokenSum(RecentTokens(h, now)) <= TokenSum(h) - h[0].count
  {
    var n := |h| - 1;
    if n > 0 {
      FirstTokensExpired(h[..n], now);
      var kept := RecentTokens(h[..n], now);
      assert (kept + [h[n]])[..|kept|] == kept;
      assert kept + [] == kept;
    } else {
      assert RecentTokens(h, now) == [];
      assert TokenSum(h) == TokenSum([]) + h[0].count;
    }
  }

  /** For any injected request count, reads give exactly that count until a full second has passed, and not after. */
  lemma RequestsReadBackForASecond(rpm: nat, now: int, later: int)
    requires later >= now
    ensures |Recent(InjectedRequests(rpm, now), later)| == rpm <==> rpm == 0 || later < now + 1_000
  {
    var h := InjectedRequests(rpm, now);
    if rpm > 0 {
      if later < now + 1_000 {
        forall i | 0 <= i < |h| ensures InWindow(h[i], later) {
          SpreadTimeInside(now, i, rpm);
        }
        AllRecent(h, later);
      } else {
        SpreadTimeInside(now, 0, rpm);
        FirstExpired(h, later);
      }
    }
  }

  /** Buckets differ by at most one token. */
  lemma BucketsAreEven(tpm: nat, now: int, i: nat, j: nat)
    requires i < |InjectedTokens(tpm, now)| && j < |InjectedTokens(tpm, now)|
    ensures var h := InjectedTokens(tpm, now); h[i].count - h[j].count <= 1 && h[i].count >= 1
  {
    QuotientAtLeastOne(tpm, Buckets(tpm));
  }

  lemma QuotientAtLeastOne(total: nat, n: nat)
    requires total >= n > 0
    ensures total / n >= 1
  {
  }

  lemma {:induction false} PrefixSum(h: seq<TokenUse>, k: nat, q: int, r: int)
    requires k <= |h|
    requires forall i :: 0 <= i < |h| ==> h[i].count == q + if i < r then 1 else 0
    requires r >= 0
    ensures TokenSum(h[..k]) == q * k + if k < r then k else r
  {
    if k == 0 {
      assert q * 0 == 0;
    } else {
      PrefixSum(h, k - 1, q, r);
      assert h[..k][..k - 1] == h[..k - 1];
      assert q * k == q * (k - 1) + q;
    }
  }

  /** No injected token is lost or invented by the bucketing. */
  lemma BucketsSumToTotal(tpm: nat, now: int)
    ensures TokenSum(InjectedTokens(tpm, now)) == tpm
  {
    if tpm > 0 {
      var h := InjectedTokens(tpm, now);
      var n := Buckets(tpm);
      PrefixSum(h, n, tpm / n, tpm % n);
      assert h[..n] == h;
      assert tpm / n * n + tpm % n == tpm;
    }
  }

  /** The same second of exact reads for injected tokens. */
  lemma TokensReadBackForASecond(tpm: nat, now: int, later: int)
    requires later >= now
    ensures TokenSum(RecentTokens(InjectedTokens(tpm, now), later)) == tpm <==> tpm == 0 || later < now + 1_000
  {
    var h := InjectedTokens(tpm, now);
    BucketsSumToTotal(tpm, now);
    if tpm > 0 {
      forall i | 0 <= i < |h| ensures h[i].count >= 1 && now - 59_000 <= h[i].timestamp {
        BucketsAreEven(tpm, now, i, i);
        SpreadTimeInside(now, i, Buckets(tpm));
      }
      if later < now + 1_000 {
        AllTokensRecent(h, later);
      } else {
        SpreadTimeInside(now, 0, Buckets(tpm));
        FirstTokensExpired(h, later);
      }
    }
  }
}
