/** How long the shared store and the in-process backend stay in step: up to the capacity of the in-process buffers
    (internal/ratelimit/redis_backend.go, local_backend.go, rpm.go). */
module RedisRunLength {
  import opened Collections
  import opened Window
  import opened RedisScripts
  import opened RedisAdmission
  import opened RedisRefinement
  import R = RedisRuns
  import L = LocalBackend

  // ----- short runs -----

  lemma StepAddsOne(usage: map<string, Usage>, op: R.Op, key: string)
    ensures var (u, u') := (L.UsageOf(usage, key), L.UsageOf(R.LocalStep(usage, op), key));
      |u'.requests| <= |u.requests| + 1 && |u'.tokens| <= |u.tokens| + 1
  {
    match op
    case ConsumeOp(k, e) =>
    case AttemptOp(q, at) =>
  }

  lemma {:induction false} UsageIsShort(ops: seq<R.Op>, key: string)
    ensures |L.UsageOf(R.LocalAfter(ops), key).requests| <= |ops|
    ensures |L.UsageOf(R.LocalAfter(ops), key).tokens| <= |ops|
  {
    if ops != [] {
      UsageIsShort(ops[..|ops| - 1], key);
      StepAddsOne(R.LocalAfter(ops[..|ops| - 1]), ops[|ops| - 1], key);
    }
  }

  /** A run no longer than the buffers drops nothing. */
  lemma {:induction false} ShortRunFits(ops: seq<R.Op>)
    requires |ops| <= MAX_REQUESTS
    ensures R.RunFits(ops)
  {
    if ops != [] {
      var before, op := ops[..|ops| - 1], ops[|ops| - 1];
      ShortRunFits(before);
      forall key, now
        ensures |Recent(L.UsageOf(R.LocalAfter(before), key).requests, now)| < MAX_REQUESTS
        ensures |RecentTokens(L.UsageOf(R.LocalAfter(before), key).tokens, now)| < MAX_TOKENS
      {
        UsageIsShort(before, key);
        RecentShrinks(L.UsageOf(R.LocalAfter(before), key).requests, now, now);
        RecentTokensShrinks(L.UsageOf(R.LocalAfter(before), key).tokens, now);
      }
    }
  }

  // ----- runs under limits that the buffer can hold -----

  predicate HasLimit(limit: int) {
    limit != UNLIMITED && limit <= MAX_REQUESTS
  }

  /** Every attempt asks for request limits that the buffer can hold. */
  predicate Limited(ops: seq<R.Op>) {
    forall i :: 0 <= i < |ops| && ops[i].AttemptOp? ==>
      HasLimit(ops[i].q.credRPM) && (ops[i].q.modelKey != "" ==> HasLimit(ops[i].q.modelRPM))
  }

  function TokenRecords(ops: seq<R.Op>): (n: nat)
    ensures n <= |ops|
  {
    if ops == [] then 0 else TokenRecords(ops[..|ops| - 1]) + if ops[|ops| - 1].ConsumeOp? then 1 else 0
  }

  lemma {:induction false} TokensAreFew(ops: seq<R.Op>, key: string)
    ensures |L.UsageOf(R.LocalAfter(ops), key).tokens| <= TokenRecords(ops)
  {
    if ops != [] {
      var before, op := ops[..|ops| - 1], ops[|ops| - 1];
      TokensAreFew(before, key);
      StepAddsOne(R.LocalAfter(before), op, key);
      AttemptAddsNoTokens(R.LocalAfter(before), op, key);
    }
  }

  lemma AttemptAddsNoTokens(usage: map<string, Usage>, op: R.Op, key: string)
    ensures op.AttemptOp? ==> L.UsageOf(R.LocalStep(usage, op), key).tokens == L.UsageOf(usage, key).tokens
  {
  }

  /** Under such limits attempts never overfill the buffer, however many there are; only token records count. */
  lemma {:induction false} LimitedRunFits(ops: seq<R.Op>)
    requires Limited(ops) && TokenRecords(ops) <= MAX_TOKENS
    ensures R.RunFits(ops)
  {
    if ops != [] {
      var before, op := ops[..|ops| - 1], ops[|ops| - 1];
      LimitedRunFits(before);
      if op.AttemptOp? {
        if R.LocalAnswer(R.LocalAfter(before), op) {
          LimitedAdmissionFits(R.LocalAfter(before), op.q, op.at);
        }
      } else {
        TokensAreFew(before, op.key);
        RecentTokensShrinks(L.UsageOf(R.LocalAfter(before), op.key).tokens, op.e.at);
      }
    }
  }

  /** With limits the buffer can hold, runs of any number of attempts are answered alike, up to its capacity of token records. */
  lemma LimitedRunAgrees(ops: seq<R.Op>, ttl: int)
    requires R.FreshRun(ops) && Limited(ops) && TokenRecords(ops) <= MAX_TOKENS && ttl >= WINDOW
    ensures R.StoreAnswers(ops, ttl) == R.LocalAnswers(ops)
  {
    LimitedRunFits(ops);
    R.SameAnswers(ops, ttl);
  }

  lemma ShortRunAgrees(ops: seq<R.Op>, ttl: int)
    requires R.FreshRun(ops) && |ops| <= MAX_REQUESTS + 1 && ttl >= WINDOW
    ensures R.StoreAnswers(ops, ttl) == R.LocalAnswers(ops)
  {
    if ops != [] {
      var before, op := ops[..|ops| - 1], ops[|ops| - 1];
      ShortRunFits(before);
      R.RunInStep(before, ttl);
      if op.AttemptOp? {
        DecisionsRefine(R.StoreAfter(before, ttl), R.HistoryAfter(before), R.LocalAfter(before), R.LastTime(before), op.q, op.at);
      }
    }
  }

  // ----- a run that fills the token buffer -----

  const KEY := "key"

  function Id(n: nat): string {
    seq(n, _ => 'a')
  }

  /** n single-token records at the start. */
  function Flood(n: nat): (ops: seq<R.Op>)
    ensures |ops| == n
  {
    if n == 0 then [] else Flood(n - 1) + [R.ConsumeOp(KEY, TokenEvent(Id(n), 1, 0))]
  }

  /** One more record than the buffer takes, and an attempt at the instant the first records leave the window. */
  const LATE_RECORD := R.ConsumeOp(KEY, TokenEvent(Id(MAX_TOKENS + 1), 1, 1))
  const LATE_ATTEMPT := R.AttemptOp(Query(KEY, UNLIMITED, 1, "member", "", UNLIMITED, UNLIMITED, ""), WINDOW)

  function OverfullRun(): (ops: seq<R.Op>)
    ensures |ops| == MAX_TOKENS + 2
  {
    Flood(MAX_TOKENS) + [LATE_RECORD] + [LATE_ATTEMPT]
  }

  function Ones(n: nat): (h: seq<TokenUse>)
    ensures |h| == n
  {
    seq(n, _ => TokenUse(0, 1))
  }

  lemma {:induction false} OnesRecent(n: nat, now: int)
    ensures RecentTokens(Ones(n), now) == if now < WINDOW then Ones(n) else []
  {
    if n > 0 {
      OnesRecent(n - 1, now);
      assert Ones(n) == Ones(n - 1) + [TokenUse(0, 1)];
      RecentTokensAppend(Ones(n - 1), TokenUse(0, 1), now);
    }
  }

  lemma {:induction false} FloodIds(n: nat, id: string)
    requires |id| > n
    ensures id !in R.UsedIds(Flood(n))
  {
    if n > 0 {
      FloodIds(n - 1, id);
      assert Flood(n)[..n - 1] == Flood(n - 1);
    }
  }

  lemma {:induction false} FloodIsFresh(n: nat)
    ensures R.FreshRun(Flood(n)) && R.UsedMembers(Flood(n)) == {} && R.LastTime(Flood(n)) == 0
  {
    if n > 0 {
      FloodIsFresh(n - 1);
      FloodIds(n - 1, Id(n));
      assert Flood(n)[..n - 1] == Flood(n - 1);
    }
  }

  lemma OnesGrow(n: nat)
    requires n < MAX_TOKENS
    ensures RecordTokens(Usage([], Ones(n)), 1, 0) == Usage([], Ones(n + 1))
  {
    OnesRecent(n, 0);
    assert Ones(n + 1) == Ones(n) + [TokenUse(0, 1)];
  }

  lemma FloodStep(n: nat)
    ensures R.LocalAfter(Flood(n + 1)) ==
            R.LocalStep(R.LocalAfter(Flood(n)), R.ConsumeOp(KEY, TokenEvent(Id(n + 1), 1, 0)))
  {
    assert Flood(n + 1)[..n] == Flood(n);
  }

  lemma {:induction false} FloodUsage(n: nat)
    requires n <= MAX_TOKENS
    ensures L.UsageOf(R.LocalAfter(Flood(n)), KEY) == Usage([], Ones(n))
  {
    if n > 0 {
      FloodUsage(n - 1);
      FloodStep(n - 1);
      OnesGrow(n - 1);
    }
  }

  lemma OverfullRunIsFresh()
    ensures R.FreshRun(OverfullRun())
  {
    var flood := Flood(MAX_TOKENS);
    FloodIsFresh(MAX_TOKENS);
    FloodIds(MAX_TOKENS, Id(MAX_TOKENS + 1));
    assert (flood + [LATE_RECORD])[..|flood|] == flood;
    assert OverfullRun()[..|flood| + 1] == flood + [LATE_RECORD];
  }

  /** The in-process buffer has dropped the record, so the attempt is admitted. */
  lemma OverfullLocal()
    ensures R.LocalAnswer(R.LocalAfter(Flood(MAX_TOKENS) + [LATE_RECORD]), LATE_ATTEMPT)
  {
    var flood := Flood(MAX_TOKENS);
    FloodUsage(MAX_TOKENS);
    assert (flood + [LATE_RECORD])[..|flood|] == flood;
    OnesRecent(MAX_TOKENS, 1);
    OnesRecent(MAX_TOKENS, WINDOW);
  }

  /** The stored set still has it, so the script refuses. */
  lemma OverfullStore(ttl: int)
    requires ttl >= WINDOW
    ensures !R.StoreAnswer(R.StoreAfter(Flood(MAX_TOKENS) + [LATE_RECORD], ttl), LATE_ATTEMPT)
  {
    var flood, run := Flood(MAX_TOKENS), Flood(MAX_TOKENS) + [LATE_RECORD];
    OverfullRunIsFresh();
    FloodIsFresh(MAX_TOKENS);
    ShortRunFits(flood);
    R.RunInStep(flood, ttl);
    FloodUsage(MAX_TOKENS);
    assert run[..|flood|] == flood;
    assert OverfullRun()[..|flood| + 1] == run;
    R.FreshTokens(flood, LATE_RECORD);
    StoreAfterTokens(R.StoreAfter(flood, ttl), R.HistoryAfter(flood), 0, KEY, LATE_RECORD.e, ttl);
    LateHistory(HistoryOf(R.HistoryAfter(flood), KEY));
    var hist := WithTokens(R.HistoryAfter(flood), KEY, LATE_RECORD.e);
    assert KeyShows(R.StoreAfter(run, ttl), HistoryOf(hist, KEY), KEY, 1);
    ChecksRefine(R.StoreAfter(run, ttl), HistoryOf(hist, KEY), KEY, 1, UNLIMITED, 1, WINDOW);
  }

  lemma LateHistory(h: KeyHistory)
    requires Shown(h) == Usage([], Ones(MAX_TOKENS))
    ensures !TokensBelow(Shown(h.(tokens := h.tokens + [LATE_RECORD.e])), 1, WINDOW)
  {
    var tokens := h.tokens + [LATE_RECORD.e];
    assert tokens[..|h.tokens|] == h.tokens;
    assert Uses(tokens) == Ones(MAX_TOKENS) + [TokenUse(1, 1)];
    RecentTokensAppend(Ones(MAX_TOKENS), TokenUse(1, 1), WINDOW);
    OnesRecent(MAX_TOKENS, WINDOW);
    assert RecentTokens(Uses(tokens), WINDOW) == [TokenUse(1, 1)];
    assert TokenSum([TokenUse(1, 1)][..0]) == 0;
  }

  lemma OverfullRunDiffers(ttl: int)
    requires ttl >= WINDOW
    ensures R.StoreAnswers(OverfullRun(), ttl) != R.LocalAnswers(OverfullRun())
  {
    var ops := OverfullRun();
    assert ops[..|ops| - 1] == Flood(MAX_TOKENS) + [LATE_RECORD];
    OverfullLocal();
    OverfullStore(ttl);
    assert R.StoreAnswers(ops, ttl)[|R.StoreAnswers(ops, ttl)| - 1] != R.LocalAnswers(ops)[|R.LocalAnswers(ops)| - 1];
  }

  /** Fresh runs of at most n operations are all answered alike exactly when n is at most the buffers' capacity plus one. */
  lemma SameAnswersUpTo(n: nat, ttl: int)
    requires ttl >= WINDOW
    ensures n <= MAX_TOKENS + 1 <==>
      (forall ops | R.FreshRun(ops) && |ops| <= n :: R.StoreAnswers(ops, ttl) == R.LocalAnswers(ops))
  {
    if n <= MAX_TOKENS + 1 {
      forall ops | R.FreshRun(ops) && |ops| <= n ensures R.StoreAnswers(ops, ttl) == R.LocalAnswers(ops) {
        ShortRunAgrees(ops, ttl);
      }
    } else {
      OverfullRunIsFresh();
      OverfullRunDiffers(ttl);
    }
  }
}
