/** The backend objects over whole runs (internal/ratelimit/local_backend.go, redis_backend.go). */
module BackendRuns {
  import opened Window
  import opened RedisRuns
  import L = LocalBackend
  import R = RedisBackend
  import S = RedisScripts

  // ----- one key of the in-process backend -----

  /** The instants whose attempts were admitted. */
  function AdmittedTimes(times: seq<int>, answers: seq<bool>): seq<int>
    requires |answers| == |times|
  {
    if times == [] then []
    else
      var n := |times| - 1;
      AdmittedTimes(times[..n], answers[..n]) + if answers[n] then [times[n]] else []
  }

  /** The answers tell which attempts the log of admissions holds. */
  lemma {:induction false} AdmittedIsLogged(times: seq<int>, limit: int)
    ensures |Answers(times, limit)| == |times|
    ensures AdmittedTimes(times, Answers(times, limit)) == AfterAttempts(times, limit).admitted
  {
    if times != [] {
      var before := times[..|times| - 1];
      AdmittedIsLogged(before, limit);
      assert Answers(times, limit)[..|before|] == Answers(before, limit);
    }
  }

  /**
   Attempts on one key of a new backend, at instants that never go back: whatever window of 60 seconds is looked at,
   the answers admitted no more than the limit in it.
   */
  method RunAttempts(key: string, limit: int, times: seq<int>) returns (answers: seq<bool>)
    requires Ascending(times) && (times != [] ==> 0 <= times[0])
    ensures answers == Answers(times, limit) && |answers| == |times|
    ensures limit != UNLIMITED && limit <= MAX_REQUESTS ==>
      forall end :: CountWithin(AdmittedTimes(times, answers), end) <= if limit < 0 then 0 else limit
  {
    var b := new L.LocalBackend();
    answers := [];
    for n := 0 to |times|
      invariant b.Valid() && fresh(b.Repr) && (n < |times| ==> b.clock <= times[n])
      invariant answers == Answers(times[..n], limit)
      invariant L.UsageOf(b.usage, key) == AfterAttempts(times[..n], limit).usage
    {
      assert times[..n + 1][..n] == times[..n];
      var ok := b.TryAllowRPM(key, limit, times[n]);
      answers := answers + [ok];
    }
    assert times[..|times|] == times;
    AdmittedIsLogged(times, limit);
    if limit != UNLIMITED && limit <= MAX_REQUESTS {
      forall end ensures CountWithin(AdmittedTimes(times, answers), end) <= if limit < 0 then 0 else limit {
        NoWindowOverLimit(times, limit, end);
      }
    }
  }

  // ----- token recordings and attempts over all keys -----

  lemma {:induction false} OrderlyAt(ops: seq<Op>, n: nat)
    requires Orderly(ops) && n < |ops|
    ensures OrderlyOp(ops[..n], ops[n])
  {
    var last := |ops| - 1;
    if n < last {
      OrderlyAt(ops[..last], n);
      assert ops[..last][..n] == ops[..n];
    }
  }

  lemma {:induction false} FreshIsOrderly(ops: seq<Op>)
    requires FreshRun(ops)
    ensures Orderly(ops)
  {
    if ops != [] {
      FreshIsOrderly(ops[..|ops| - 1]);
    }
  }

  predicate Charges(op: Op, key: string) {
    op.AttemptOp? && (op.q.credKey == key || (op.q.modelKey != "" && op.q.modelKey == key))
  }

  /** Every attempt that charges the key asks for it with this limit, which the buffer can hold. */
  ghost predicate AskedWith(ops: seq<Op>, key: string, limit: int) {
    && limit != UNLIMITED && limit <= MAX_REQUESTS
    && forall op :: op in ops && Charges(op, key) ==>
         (op.q.credKey == key ==> op.q.credRPM == limit) && (op.q.modelKey == key ==> op.q.modelRPM == limit)
  }

  /** The instants of the admitted attempts that charge a key. */
  function AdmittedFor(ops: seq<Op>, answers: seq<bool>, key: string): seq<int>
    requires |answers| == |ops|
  {
    if ops == [] then []
    else
      var n := |ops| - 1;
      AdmittedFor(ops[..n], answers[..n], key) + if answers[n] && Charges(ops[n], key) then [TimeOf(ops[n])] else []
  }

  lemma StepRecords(usage: map<string, Usage>, op: Op, key: string, limit: int)
    requires AskedWith([op], key, limit) && (op.AttemptOp? ==> op.q.credKey != op.q.modelKey)
    ensures L.UsageOf(LocalStep(usage, op), key).requests
         == L.UsageOf(usage, key).requests + if LocalAnswer(usage, op) && Charges(op, key) then [TimeOf(op)] else []
    ensures LocalAnswer(usage, op) && Charges(op, key) ==> RequestsBelow(L.UsageOf(usage, key), limit, TimeOf(op))
  {
    assert op in [op];
  }

  /** While the limit fits the buffer, the key's history is the log of its admissions. */
  lemma {:induction false} RecordedIsAdmittedFor(ops: seq<Op>, key: string, limit: int)
    requires Orderly(ops) && AskedWith(ops, key, limit)
    ensures |LocalAnswers(ops)| == |ops|
    ensures L.UsageOf(LocalAfter(ops), key).requests == AdmittedFor(ops, LocalAnswers(ops), key)
  {
    if ops != [] {
      var before, op := ops[..|ops| - 1], ops[|ops| - 1];
      RecordedIsAdmittedFor(before, key, limit);
      assert op in ops && AskedWith([op], key, limit);
      StepRecords(LocalAfter(before), op, key, limit);
      assert LocalAnswers(ops)[..|before|] == LocalAnswers(before);
    }
  }

  /** No 60-second window contains more admissions charged to a key than the limit the key is asked with. */
  ghost predicate KeepsLimit(ops: seq<Op>, answers: seq<bool>, key: string, limit: int)
    requires |answers| == |ops|
  {
    forall end :: CountWithin(AdmittedFor(ops, answers, key), end) <= if limit < 0 then 0 else limit
  }

  lemma {:induction false} NoKeyOverLimit(ops: seq<Op>, key: string, limit: int)
    requires Orderly(ops) && AskedWith(ops, key, limit)
    ensures |LocalAnswers(ops)| == |ops| && KeepsLimit(ops, LocalAnswers(ops), key, limit)
  {
    if ops != [] {
      var before, op := ops[..|ops| - 1], ops[|ops| - 1];
      NoKeyOverLimit(before, key, limit);
      assert LocalAnswers(ops)[..|before|] == LocalAnswers(before);
      RecordedIsAdmittedFor(before, key, limit);
      assert op in ops && AskedWith([op], key, limit);
      StepRecords(LocalAfter(before), op, key, limit);
      var log := AdmittedFor(before, LocalAnswers(before), key);
      forall end ensures CountWithin(AdmittedFor(ops, LocalAnswers(ops), key), end) <= if limit < 0 then 0 else limit {
        OneMore(log, TimeOf(op), limit, end);
      }
    }
  }

  /** One admission below the limit at the end of a log keeps every window within it. */
  lemma OneMore(log: seq<int>, now: int, limit: int, end: int)
    requires CountWithin(log, end) <= if limit < 0 then 0 else limit
    ensures |Recent(log, now)| < limit ==> CountWithin(log + [now], end) <= limit
  {
    assert (log + [now])[..|log|] == log;
    if now <= end {
      WithinIsRecent(log, end);
      RecentShrinks(log, now, end);
    }
  }

  /** A run on a new in-process backend, and the limits it keeps. */
  method RunLocal(ops: seq<Op>) returns (answers: seq<bool>)
    requires Orderly(ops)
    ensures answers == LocalAnswers(ops) && |answers| == |ops|
    ensures forall key, limit | AskedWith(ops, key, limit) :: KeepsLimit(ops, answers, key, limit)
  {
    var b := new L.LocalBackend();
    answers := [];
    for n := 0 to |ops|
      invariant b.Valid() && fresh(b.Repr) && b.clock == LastTime(ops[..n])
      invariant |answers| == n && answers == LocalAnswers(ops[..n]) && b.usage == LocalAfter(ops[..n])
    {
      assert ops[..n + 1][..n] == ops[..n];
      OrderlyAt(ops, n);
      var ok := LocalOp(b, ops[n]);
      answers := answers + [ok];
    }
    assert ops[..|ops|] == ops;
    forall key, limit | AskedWith(ops, key, limit) ensures KeepsLimit(ops, answers, key, limit) {
      NoKeyOverLimit(ops, key, limit);
    }
  }

  method LocalOp(b: L.LocalBackend, op: Op) returns (ok: bool)
    requires b.Valid() && b.clock <= TimeOf(op) && (op.AttemptOp? ==> op.q.credKey != op.q.modelKey)
    modifies b.Repr
    ensures b.Valid() && b.clock == TimeOf(op) && fresh(b.Repr - old(b.Repr))
    ensures ok == LocalAnswer(old(b.usage), op) && b.usage == LocalStep(old(b.usage), op)
  {
    match op {
      case ConsumeOp(key, e) =>
        b.ConsumeTokens(key, e.count, e.at);
        ok := true;
      case AttemptOp(q, at) =>
        ok := b.TryAllowAll(q.credKey, q.credRPM, q.credTPM, q.modelKey, q.modelRPM, q.modelTPM, at);
    }
  }

  /** The configured time to live in milliseconds; 0 seconds stand for two minutes. */
  function TTLOf(keyTTL: int): int {
    1_000 * if keyTTL == 0 then 120 else keyTTL
  }

  /** The same run on a new shared store, every call answered. */
  method RunRedis(ops: seq<Op>, keyTTL: int) returns (answers: seq<bool>)
    requires Orderly(ops)
    ensures answers == StoreAnswers(ops, TTLOf(keyTTL))
  {
    var r := new R.RedisBackend(keyTTL);
    answers := [];
    for n := 0 to |ops|
      invariant answers == StoreAnswers(ops[..n], r.lifetime) && r.Stored() == StoreAfter(ops[..n], r.lifetime)
    {
      assert ops[..n + 1][..n] == ops[..n];
      OrderlyAt(ops, n);
      var ok := RedisOp(r, ops[n]);
      answers := answers + [ok];
    }
    assert ops[..|ops|] == ops;
  }

  method RedisOp(r: R.RedisBackend, op: Op) returns (ok: bool)
    requires op.AttemptOp? ==> op.q.credKey != op.q.modelKey
    modifies r
    ensures ok == StoreAnswer(old(r.Stored()), op) && r.Stored() == StoreStep(old(r.Stored()), op, r.lifetime)
  {
    match op {
      case ConsumeOp(key, e) =>
        r.EvalConsumeTokens(key, S.TokenMember(e.uuid, e.count), e.at, r.lifetime);
        ok := true;
      case AttemptOp(q, at) =>
        ok := r.EvalTryAllowAll(q, at, r.lifetime);
    }
  }

  /** Both backends answer every run alike, while the in-process buffers drop nothing and keys outlive the window. */
  method RunBoth(ops: seq<Op>, keyTTL: int) returns (onRedis: seq<bool>, inProcess: seq<bool>)
    requires FreshRun(ops) && RunFits(ops) && TTLOf(keyTTL) >= WINDOW
    ensures onRedis == inProcess == LocalAnswers(ops)
  {
    FreshIsOrderly(ops);
    onRedis := RunRedis(ops, keyTTL);
    inProcess := RunLocal(ops);
    SameAnswers(ops, TTLOf(keyTTL));
  }
}
