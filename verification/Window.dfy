/**
 The sliding 60-second window over a full, unpruned history of events
 (the quantity every rate-limit backend of internal/ratelimit decides by).
 Times are milliseconds.
 */
module Window {

  const WINDOW := 60_000
  const MAX_REQUESTS := 10_000_000
  const MAX_TOKENS := 10_000_000
  const UNLIMITED := -1

  datatype TokenUse = TokenUse(timestamp: int, count: int)

  /** Everything ever recorded for one key. */
  datatype Usage = Usage(requests: seq<int>, tokens: seq<TokenUse>)

  const UNUSED := Usage([], [])

  predicate InWindow(timestamp: int, now: int) {
    timestamp > now - WINDOW
  }

  /** The timestamps still inside the window that ends now. */
  function Recent(h: seq<int>, now: int): seq<int> {
    if h == [] then []
    else
      var n := |h| - 1;
      Recent(h[..n], now) + if InWindow(h[n], now) then [h[n]] else []
  }

  function RecentTokens(h: seq<TokenUse>, now: int): seq<TokenUse> {
    if h == [] then []
    else
      var n := |h| - 1;
      RecentTokens(h[..n], now) + if InWindow(h[n].timestamp, now) then [h[n]] else []
  }

  function TokenSum(h: seq<TokenUse>): int {
    if h == [] then 0 else TokenSum(h[..|h| - 1]) + h[|h| - 1].count
  }

  /** The two checks: -1 means unlimited, otherwise usage must be strictly below the limit. */
  predicate RequestsBelow(u: Usage, limit: int, now: int) {
    limit == UNLIMITED || |Recent(u.requests, now)| < limit
  }

  predicate TokensBelow(u: Usage, limit: int, now: int) {
    limit == UNLIMITED || TokenSum(RecentTokens(u.tokens, now)) < limit
  }

  /** Recording appends the event, unless the window alone already fills the bounded buffer. */
  function RecordRequest(u: Usage, now: int): Usage {
    if |Recent(u.requests, now)| < MAX_REQUESTS then u.(requests := u.requests + [now]) else u
  }

  function RecordTokens(u: Usage, count: int, now: int): Usage {
    if |RecentTokens(u.tokens, now)| < MAX_TOKENS then u.(tokens := u.tokens + [TokenUse(now, count)]) else u
  }

  /** How many requests a decision counts: those of the last sixty seconds. */
  lemma {:induction false} RecentCounts(h: seq<int>, now: int)
    ensures |Recent(h, now)| == |set i: nat | i < |h| && h[i] > now - 60_000|
  {
    var all := set i: nat | i < |h| && h[i] > now - 60_000;
    if h == [] {
      assert all == {};
    } else {
      var n := |h| - 1;
      RecentCounts(h[..n], now);
      var before := set i: nat | i < n && h[..n][i] > now - 60_000;
      assert all == if h[n] > now - 60_000 then before + {n} else before;
      assert n !in before;
    }
  }

  // ----- pruning loses nothing that a later check could see -----

  lemma {:induction false} RecentTwice(h: seq<int>, a: int, b: int)
    requires a <= b
    ensures Recent(Recent(h, a), b) == Recent(h, b)
  {
    if h != [] {
      var n := |h| - 1;
      RecentTwice(h[..n], a, b);
      var kept := Recent(h[..n], a);
      assert (kept + [h[n]])[..|kept|] == kept;
      assert kept + [] == kept;
    }
  }

  lemma {:induction false} RecentTokensTwice(h: seq<TokenUse>, a: int, b: int)
    requires a <= b
    ensures RecentTokens(RecentTokens(h, a), b) == RecentTokens(h, b)
  {
    if h != [] {
      var n := |h| - 1;
      RecentTokensTwice(h[..n], a, b);
      var kept := RecentTokens(h[..n], a);
      assert (kept + [h[n]])[..|kept|] == kept;
      assert kept + [] == kept;
    }
  }

  lemma {:induction false} RecentShrinks(h: seq<int>, a: int, b: int)
    requires a <= b
    ensures |Recent(h, b)| <= |Recent(h, a)| <= |h|
  {
    if h != [] {
      RecentShrinks(h[..|h| - 1], a, b);
    }
  }

  lemma {:induction false} RecentTokensShrinks(h: seq<TokenUse>, now: int)
    ensures |RecentTokens(h, now)| <= |h|
  {
    if h != [] {
      RecentTokensShrinks(h[..|h| - 1], now);
    }
  }

  lemma RecentAppend(h: seq<int>, t: int, now: int)
    ensures Recent(h + [t], now) == Recent(h, now) + if InWindow(t, now) then [t] else []
  {
    assert (h + [t])[..|h|] == h;
  }

  lemma RecentTokensAppend(h: seq<TokenUse>, t: TokenUse, now: int)
    ensures RecentTokens(h + [t], now) == RecentTokens(h, now) + if InWindow(t.timestamp, now) then [t] else []
  {
    assert (h + [t])[..|h|] == h;
  }

  // ----- safety over runs -----

  /** A key's recorded usage together with the log of every admission, recorded or not. */
  datatype Ledger = Ledger(usage: Usage, admitted: seq<int>)

  /** One admission attempt at a limit. */
  function Attempt(s: Ledger, limit: int, now: int): Ledger {
    if RequestsBelow(s.usage, limit, now)
    then Ledger(RecordRequest(s.usage, now), s.admitted + [now])
    else s
  }

  /** The state after attempts at the given times, from an unused key. */
  function AfterAttempts(times: seq<int>, limit: int): Ledger {
    if times == [] then Ledger(UNUSED, [])
    else Attempt(AfterAttempts(times[..|times| - 1], limit), limit, times[|times| - 1])
  }

  /** What each attempt was answered. */
  function Answers(times: seq<int>, limit: int): seq<bool> {
    if times == [] then []
    else
      var before := times[..|times| - 1];
      Answers(before, limit) + [RequestsBelow(AfterAttempts(before, limit).usage, limit, times[|times| - 1])]
  }

  ghost predicate Ascending(times: seq<int>) {
    forall i, j :: 0 <= i < j < |times| ==> times[i] <= times[j]
  }

  /** How many events fall in the half-open window (end - 60s, end]. */
  function CountWithin(h: seq<int>, end: int): nat {
    if h == [] then 0
    else CountWithin(h[..|h| - 1], end) + if end - WINDOW < h[|h| - 1] <= end then 1 else 0
  }

  lemma {:induction false} WithinIsRecent(h: seq<int>, end: int)
    ensures CountWithin(h, end) <= |Recent(h, end)|
  {
    if h != [] {
      WithinIsRecent(h[..|h| - 1], end);
    }
  }

  /** While the limit fits the buffer, nothing is lost from the recorded history. */
  lemma {:induction false} RecordedIsAdmitted(times: seq<int>, limit: int)
    requires limit != UNLIMITED && limit <= MAX_REQUESTS
    ensures AfterAttempts(times, limit).usage.requests == AfterAttempts(times, limit).admitted
  {
    if times != [] {
      RecordedIsAdmitted(times[..|times| - 1], limit);
    }
  }

  /** No 60-second window, wherever it ends, ever contains more admissions than the limit. */
  lemma {:induction false} NoWindowOverLimit(times: seq<int>, limit: int, end: int)
    requires Ascending(times) && limit != UNLIMITED && limit <= MAX_REQUESTS
    ensures CountWithin(AfterAttempts(times, limit).admitted, end) <= if limit < 0 then 0 else limit
  {
    if times != [] {
      var before, now := times[..|times| - 1], times[|times| - 1];
      NoWindowOverLimit(before, limit, end);
      RecordedIsAdmitted(before, limit);
      var h := AfterAttempts(before, limit).admitted;
      assert (h + [now])[..|h|] == h;
      if now <= end {
        WithinIsRecent(h, end);
        RecentShrinks(h, now, end);
      }
    }
  }

  /** An attempt is refused only when the full log already fills the window. */
  lemma RefusedOnlyWhenFull(times: seq<int>, limit: int, now: int)
    requires limit != UNLIMITED && 0 <= limit <= MAX_REQUESTS
    ensures var s := AfterAttempts(times, limit);
      Attempt(s, limit, now).admitted == s.admitted <==> |Recent(s.admitted, now)| >= limit
  {
    RecordedIsAdmitted(times, limit);
    var s := AfterAttempts(times, limit);
    assert |s.admitted + [now]| > |s.admitted|;
  }

  /** n attempts at one instant. */
  function Burst(n: nat, now: int): (times: seq<int>)
    ensures |times| == n && forall i :: 0 <= i < n ==> times[i] == now
  {
    seq(n, _ => now)
  }

  lemma BurstGrows(n: nat, now: int)
    ensures Burst(n + 1, now) == Burst(n, now) + [now]
    ensures Burst(n + 1, now)[..n] == Burst(n, now)
  {
  }

  lemma {:induction false} BurstAllRecent(n: nat, now: int)
    ensures Recent(Burst(n, now), now) == Burst(n, now)
    ensures CountWithin(Burst(n, now), now) == n
  {
    if n > 0 {
      BurstGrows(n - 1, now);
      BurstAllRecent(n - 1, now);
    }
  }

  /** What n attempts at one instant leave behind when nothing is refused. */
  function Flooded(n: nat, now: int): Ledger {
    Ledger(Usage(Burst(if n < MAX_REQUESTS then n else MAX_REQUESTS, now), []), Burst(n, now))
  }

  lemma FloodedStep(limit: int, n: nat, now: int)
    requires limit > MAX_REQUESTS
    ensures Attempt(Flooded(n, now), limit, now) == Flooded(n + 1, now)
  {
    var kept := if n < MAX_REQUESTS then n else MAX_REQUESTS;
    BurstAllRecent(kept, now);
    BurstGrows(n, now);
    BurstGrows(kept, now);
  }

  /** A limit above the buffer size is not enforced: once the buffer is full, every attempt is admitted. */
  lemma {:induction false} LimitAboveBufferIsNotEnforced(limit: int, n: nat, now: int)
    requires limit > MAX_REQUESTS
    ensures AfterAttempts(Burst(n, now), limit) == Flooded(n, now)
  {
    if n > 0 {
      LimitAboveBufferIsNotEnforced(limit, n - 1, now);
      BurstGrows(n - 1, now);
      FloodedStep(limit, n - 1, now);
    }
  }

  /** The limit holds in every window of every run exactly when it fits the buffer. */
  lemma EnforcedExactlyWhenLimitFitsBuffer(limit: int)
    requires limit >= 0
    ensures limit <= MAX_REQUESTS <==>
      (forall times, end | Ascending(times) :: CountWithin(AfterAttempts(times, limit).admitted, end) <= limit)
  {
    if limit <= MAX_REQUESTS {
      forall times, end | Ascending(times)
        ensures CountWithin(AfterAttempts(times, limit).admitted, end) <= limit
      {
        NoWindowOverLimit(times, limit, end);
      }
    } else {
      BurstExceedsLimit(limit);
      assert Ascending(Burst(limit + 1, 0));
    }
  }

  lemma BurstExceedsLimit(limit: int)
    requires limit > MAX_REQUESTS
    ensures CountWithin(AfterAttempts(Burst(limit + 1, 0), limit).admitted, 0) == limit + 1
  {
    LimitAboveBufferIsNotEnforced(limit, limit + 1, 0);
    BurstAllRecent(limit + 1, 0);
  }
}
