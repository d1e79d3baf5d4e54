/** The shared Redis backend: scripts over stored sorted sets, and their retries (internal/ratelimit/redis_backend.go). */
module RedisBackend {
  import opened Collections
  import opened Window
  import opened RedisScripts
  import opened RedisAdmission
  import opened RedisInterference
  import opened Swrr

  const MAX_RETRIES := 2

  datatype NetError = NoError | Transient | Permanent

  /** One attempt on the network: what other callers ran before it, whether it ran itself, even when its answer was lost,
      and the server's clock. */
  datatype Attempt = Attempt(meanwhile: seq<Run>, executed: bool, error: NetError, clock: int)

  /** Everything that ran on the server during the first n attempts, in order; the retried script always has its
      captured time. */
  function Trace(script: Script, now: int, network: seq<Attempt>, n: nat): seq<Run>
    requires n <= |network|
  {
    if n == 0 then []
    else Trace(script, now, network, n - 1) + network[n - 1].meanwhile + OwnRun(script, now, network[n - 1])
  }

  function OwnRun(script: Script, now: int, a: Attempt): seq<Run> {
    if a.executed then [Run(script, now, a.clock)] else []
  }

  /** Nobody else ran anything, and no time passed. */
  ghost predicate Undisturbed(network: seq<Attempt>, clock: int) {
    forall i :: 0 <= i < |network| ==> network[i].meanwhile == [] && network[i].clock == clock
  }

  lemma {:induction false} RunsAppend(s: Store, a: seq<Run>, b: seq<Run>, ttl: int)
    ensures AfterRuns(s, a + b, ttl) == AfterRuns(AfterRuns(s, a, ttl), b, ttl)
  {
    if b == [] {
      assert a + b == a;
    } else {
      RunsAppend(s, a, b[..|b| - 1], ttl);
      assert (a + b)[..|a + b| - 1] == a + b[..|b| - 1];
    }
  }

  lemma OneMoreAttempt(s: Store, script: Script, now: int, network: seq<Attempt>, n: nat, ttl: int)
    requires n < |network|
    ensures var (a, before) := (network[n], Trace(script, now, network, n));
      var t := AfterRuns(s, before, ttl);
      && AfterRuns(s, Trace(script, now, network, n + 1), ttl) == AfterRuns(t, a.meanwhile + OwnRun(script, now, a), ttl)
      && AfterRuns(s, before + a.meanwhile, ttl) == AfterRuns(t, a.meanwhile, ttl)
  {
    var a, before := network[n], Trace(script, now, network, n);
    Assoc(before, a.meanwhile, OwnRun(script, now, a));
    RunsAppend(s, before, a.meanwhile + OwnRun(script, now, a), ttl);
    RunsAppend(s, before, a.meanwhile, ttl);
  }

  /** The store after a script ran once, or not at all. */
  ghost predicate RanAtMostOnce(s: Store, runs: seq<Run>, r: Run, ttl: int) {
    AfterRuns(s, runs, ttl) == if runs == [] then s else Execute(s, r, ttl)
  }

  lemma RunAgain(s: Store, before: seq<Run>, r: Run, ttl: int)
    requires r.now <= r.clock && ttl >= WINDOW
    requires RanAtMostOnce(s, before, r, ttl)
    ensures RanAtMostOnce(s, before + [r], r, ttl)
  {
    RunsAppend(s, before, [r], ttl);
    OneRun(AfterRuns(s, before, ttl), r, ttl);
    ExecuteTwice(s, r, ttl);
  }

  lemma MaybeAgain(s: Store, before: seq<Run>, after: seq<Run>, executed: bool, r: Run, ttl: int)
    requires r.now <= r.clock && ttl >= WINDOW && RanAtMostOnce(s, before, r, ttl)
    requires after == before + if executed then [r] else []
    ensures RanAtMostOnce(s, after, r, ttl)
  {
    if executed {
      RunAgain(s, before, r, ttl);
    } else {
      assert after == before;
    }
  }

  lemma UndisturbedTrace(script: Script, now: int, network: seq<Attempt>, n: nat, clock: int)
    requires n < |network| && Undisturbed(network, clock)
    ensures Trace(script, now, network, n + 1) ==
            Trace(script, now, network, n) + if network[n].executed then [Run(script, now, clock)] else []
  {
    assert Trace(script, now, network, n) + network[n].meanwhile == Trace(script, now, network, n);
  }

  /** Silent successes of an undisturbed call add up to one run. */
  lemma {:induction false} UndisturbedIsOneRun(s: Store, script: Script, now: int, network: seq<Attempt>, n: nat, clock: int, ttl: int)
    requires n <= |network| && Undisturbed(network, clock) && now <= clock && ttl >= WINDOW
    ensures RanAtMostOnce(s, Trace(script, now, network, n), Run(script, now, clock), ttl)
  {
    if n > 0 {
      UndisturbedIsOneRun(s, script, now, network, n - 1, clock, ttl);
      UndisturbedTrace(script, now, network, n - 1, clock);
      MaybeAgain(s, Trace(script, now, network, n - 1), Trace(script, now, network, n), network[n - 1].executed,
                 Run(script, now, clock), ttl);
    }
  }

  /** How many attempts a call makes once it has made n: it goes on after a transient error only, and not beyond the maximum. */
  function Tries(network: seq<Attempt>, n: nat): (tries: nat)
    requires n <= |network|
    ensures n <= tries <= |network| && (n <= 3 ==> tries <= 3)
    ensures forall i :: n <= i < tries - 1 ==> network[i].error == Transient
    ensures tries < 3 && tries < |network| ==> tries > n && network[tries - 1].error != Transient
    decreases |network| - n
  {
    if n > MAX_RETRIES || n == |network| then n
    else if network[n].error == Transient then Tries(network, n + 1)
    else n + 1
  }

  class RedisBackend {
    var rpm: map<string, ZSet>
    var tpm: map<string, ZSet>
    /** How long a key lives after it was written, in milliseconds. */
    const lifetime: int

    ghost function Stored(): Store
      reads this
    {
      Store(rpm, tpm)
    }

    constructor (keyTTL: int)
      ensures lifetime == 1_000 * (if keyTTL == 0 then 120 else keyTTL) && rpm == map[] && tpm == map[]
    {
      lifetime := 1_000 * if keyTTL == 0 then 120 else keyTTL;
      rpm, tpm := map[], map[];
    }

    /** One run of luaTryAllowRPM on the server; what it writes lives for the given time from now on. */
    method EvalTryAllowRPM(key: string, limit: int, member: string, now: int, life: int) returns (ok: bool)
      modifies this`rpm
      ensures ok == TryAllowRPM(SetOf(old(rpm), key), limit, member, now, life).0
      ensures rpm == old(rpm)[key := TryAllowRPM(SetOf(old(rpm), key), limit, member, now, life).1]
    {
      var entries := Entries(SetOf(rpm, key), now);
      if limit != UNLIMITED && |entries| >= limit {
        rpm := rpm[key := ZSet(entries, SetOf(rpm, key).deadline)];
        return false;
      }
      rpm := rpm[key := ZSet(entries[member := now], now + life)];
      return true;
    }

    /** luaConsumeTokens */
    method EvalConsumeTokens(key: string, member: string, now: int, life: int)
      modifies this`tpm
      ensures Stored() == Consumed(old(Stored()), key, member, now, life)
    {
      var entries := Entries(SetOf(tpm, key), now);
      tpm := tpm[key := ZSet(entries[member := now], now + life)];
    }

    /** check_rpm inside luaTryAllowAll: prunes, then compares. */
    method PruneAndCheckRPM(key: string, limit: int, now: int) returns (ok: bool)
      modifies this`rpm
      ensures ok == CheckRPM(SetOf(old(rpm), key), limit, now)
      ensures rpm == PrunedAt(old(rpm), key, now)
    {
      var z := SetOf(rpm, key);
      rpm := rpm[key := PrunedSet(z, now)];
      ok := limit == UNLIMITED || |Entries(z, now)| < limit;
    }

    /** check_tpm inside luaTryAllowAll: an unlimited key is not pruned. */
    method PruneAndCheckTPM(key: string, limit: int, now: int) returns (ok: bool)
      modifies this`tpm
      ensures ok == CheckTPM(SetOf(old(tpm), key), limit, now)
      ensures tpm == if limit == UNLIMITED then old(tpm) else PrunedAt(old(tpm), key, now)
    {
      if limit == UNLIMITED {
        return true;
      }
      var z := SetOf(tpm, key);
      tpm := tpm[key := PrunedSet(z, now)];
      var total := TotalTokens(Entries(z, now));
      ok := total < limit;
    }

    /** Both checks of one key. */
    method CheckKey(key: string, rpmLimit: int, tpmLimit: int, now: int) returns (ok: bool)
      modifies this`rpm, this`tpm
      ensures ok == KeyBelow(old(Stored()), key, rpmLimit, tpmLimit, now)
      ensures Stored() == KeyChecked(old(Stored()), key, rpmLimit, tpmLimit, now)
    {
      ok := PruneAndCheckRPM(key, rpmLimit, now);
      if ok {
        ok := PruneAndCheckTPM(key, tpmLimit, now);
      }
    }

    /** The checking half of luaTryAllowAll. */
    method CheckAll(q: Query, now: int) returns (ok: bool)
      requires q.credKey != q.modelKey
      modifies this`rpm, this`tpm
      ensures ok == AllHold(old(Stored()), q, now)
      ensures Stored() == AllChecked(old(Stored()), q, now)
    {
      ghost var before := Stored();
      ok := CheckKey(q.credKey, q.credRPM, q.credTPM, now);
      if ok && q.modelKey != "" {
        CheckedElsewhere(before, q.credKey, q.credRPM, q.credTPM, now, q.modelKey, q.modelRPM, q.modelTPM);
        ok := CheckKey(q.modelKey, q.modelRPM, q.modelTPM, now);
      }
    }

    /** record_rpm inside luaTryAllowAll. */
    method Record(key: string, member: string, now: int, life: int)
      modifies this`rpm
      ensures rpm == Zadd(old(rpm), key, member, now, life)
    {
      rpm := rpm[key := ZSet(SetOf(rpm, key).entries[member := now], now + life)];
    }

    /** luaTryAllowAll: every check first, then one recorded event per key, or none. */
    method EvalTryAllowAll(q: Query, now: int, life: int) returns (ok: bool)
      requires q.credKey != q.modelKey
      modifies this`rpm, this`tpm
      ensures ok == AllHold(old(Stored()), q, now)
      ensures Stored() == AllowedAll(old(Stored()), q, now, life)
    {
      ok := CheckAll(q, now);
      if ok {
        Record(q.credKey, q.credMember, now, life);
        if q.modelKey != "" {
          Record(q.modelKey, q.modelMember, now, life);
        }
      }
    }

    // ----- the server, and the retries of one caller -----

    /** Deletes the keys whose time is up. */
    method Expire(clock: int)
      modifies this`rpm, this`tpm
      ensures Stored() == At(old(Stored()), clock)
    {
      rpm := Unexpired(rpm, clock);
      tpm := Unexpired(tpm, clock);
    }

    /** One script on the server, whoever sent it. */
    method RunScript(r: Run) returns (ok: bool)
      modifies this`rpm, this`tpm
      ensures ok == SaysYes(old(Stored()), r)
      ensures Stored() == Execute(old(Stored()), r, lifetime)
    {
      Expire(r.clock);
      match r.script {
        case AllowRPM(key, limit, member) =>
          ok := EvalTryAllowRPM(key, limit, member, r.now, Life(r, lifetime));
        case AllowAll(q) =>
          ok := EvalTryAllowAll(q, r.now, Life(r, lifetime));
        case Consume(key, member) =>
          EvalConsumeTokens(key, member, r.now, Life(r, lifetime));
          ok := true;
      }
    }

    /** The scripts of other callers. */
    method RunAll(runs: seq<Run>)
      modifies this`rpm, this`tpm
      ensures Stored() == AfterRuns(old(Stored()), runs, lifetime)
    {
      for i := 0 to |runs|
        invariant Stored() == AfterRuns(old(Stored()), runs[..i], lifetime)
      {
        assert runs[..i + 1][..i] == runs[..i];
        var _ := RunScript(runs[i]);
      }
      assert runs[..|runs|] == runs;
    }

    /** One attempt: the others first, then the script, if it arrives. */
    method RunAttempt(script: Script, now: int, a: Attempt) returns (ok: bool)
      modifies this`rpm, this`tpm
      ensures Stored() == AfterRuns(old(Stored()), a.meanwhile + OwnRun(script, now, a), lifetime)
      ensures ok <==> a.executed && SaysYes(AfterRuns(old(Stored()), a.meanwhile, lifetime), Run(script, now, a.clock))
    {
      RunAll(a.meanwhile);
      RunsAppend(old(Stored()), a.meanwhile, OwnRun(script, now, a), lifetime);
      ok := false;
      if a.executed {
        OneRun(Stored(), Run(script, now, a.clock), lifetime);
        ok := RunScript(Run(script, now, a.clock));
      }
    }

    /** One turn of the retry loop; a transient error asks for another. */
    method NextAttempt(script: Script, now: int, network: seq<Attempt>, n: nat, ghost before: Store) returns (again: bool, ok: bool)
      requires n < |network|
      requires Stored() == AfterRuns(before, Trace(script, now, network, n), lifetime)
      modifies this`rpm, this`tpm
      ensures Stored() == AfterRuns(before, Trace(script, now, network, n + 1), lifetime)
      ensures again <==> network[n].error == Transient
      ensures ok <==> Succeeds(before, script, now, network, n)
    {
      OneMoreAttempt(before, script, now, network, n, lifetime);
      ok := RunAttempt(script, now, network[n]);
      ok := ok && network[n].error == NoError;
      again := network[n].error == Transient;
    }

    /**
     The retried call. Member and time are fixed before the first attempt; transient errors are retried, at most
     MAX_RETRIES times, and a short network sequence is a caller that gave up. The answer is that of the last attempt,
     and an error admits nothing.
     */
    method DoWithRetry(script: Script, now: int, network: seq<Attempt>) returns (ok: bool, tries: nat)
      modifies this`rpm, this`tpm
      ensures tries == Tries(network, 0)
      ensures Stored() == AfterRuns(old(Stored()), Trace(script, now, network, tries), lifetime)
      ensures ok <==> tries > 0 && Succeeds(old(Stored()), script, now, network, tries - 1)
      ensures ok ==> network[tries - 1].executed && network[tries - 1].error == NoError
    {
      ok, tries := false, 0;
      var again := true;
      while again && tries <= MAX_RETRIES && tries < |network|
        invariant tries <= |network| && Tries(network, 0) == if again then Tries(network, tries) else tries
        invariant ok <==> tries > 0 && Succeeds(old(Stored()), script, now, network, tries - 1)
        invariant Stored() == AfterRuns(old(Stored()), Trace(script, now, network, tries), lifetime)
      {
        again, ok := NextAttempt(script, now, network, tries, old(Stored()));
        tries := tries + 1;
      }
    }

    /** The attempt ran without an error, and its script answered 1. */
    ghost predicate Succeeds(s: Store, script: Script, now: int, network: seq<Attempt>, i: nat)
      requires i < |network|
    {
      && network[i].executed && network[i].error == NoError
      && SaysYes(AfterRuns(s, Trace(script, now, network, i) + network[i].meanwhile, lifetime), Run(script, now, network[i].clock))
    }

    /** DEL of both sets of a key. */
    method DeleteKey(key: string)
      modifies this`rpm, this`tpm
      ensures Stored() == Store(old(rpm) - {key}, old(tpm) - {key})
    {
      rpm := rpm - {key};
      tpm := tpm - {key};
    }

    method TryAllowRPMWithRetry(key: string, limit: int, member: string, now: int, network: seq<Attempt>)
      returns (ok: bool, tries: nat)
      modifies this`rpm, this`tpm
      ensures tries == Tries(network, 0)
      ensures Stored() == AfterRuns(old(Stored()), Trace(AllowRPM(key, limit, member), now, network, tries), lifetime)
      ensures ok <==> tries > 0 && Succeeds(old(Stored()), AllowRPM(key, limit, member), now, network, tries - 1)
      ensures OnceUndisturbed(old(Stored()), AllowRPM(key, limit, member), now, network, tries)
    {
      ghost var before := Stored();
      ok, tries := DoWithRetry(AllowRPM(key, limit, member), now, network);
      UndisturbedOnce(before, AllowRPM(key, limit, member), now, network, tries);
    }

    method TryAllowAllWithRetry(q: Query, now: int, network: seq<Attempt>) returns (ok: bool, tries: nat)
      requires q.credKey != q.modelKey
      modifies this`rpm, this`tpm
      ensures tries == Tries(network, 0)
      ensures Stored() == AfterRuns(old(Stored()), Trace(AllowAll(q), now, network, tries), lifetime)
      ensures ok <==> tries > 0 && Succeeds(old(Stored()), AllowAll(q), now, network, tries - 1)
      ensures OnceUndisturbed(old(Stored()), AllowAll(q), now, network, tries)
    {
      ghost var before := Stored();
      ok, tries := DoWithRetry(AllowAll(q), now, network);
      UndisturbedOnce(before, AllowAll(q), now, network, tries);
    }

    /** Whether the tokens could be recorded is not reported. */
    method ConsumeTokensWithRetry(key: string, member: string, now: int, network: seq<Attempt>) returns (tries: nat)
      modifies this`rpm, this`tpm
      ensures tries == Tries(network, 0)
      ensures Stored() == AfterRuns(old(Stored()), Trace(Consume(key, member), now, network, tries), lifetime)
      ensures OnceUndisturbed(old(Stored()), Consume(key, member), now, network, tries)
    {
      ghost var before := Stored();
      var ok;
      ok, tries := DoWithRetry(Consume(key, member), now, network);
      UndisturbedOnce(before, Consume(key, member), now, network, tries);
    }

    /** While nobody else ran anything, the store is as after one run at most. */
    ghost predicate OnceUndisturbed(before: Store, script: Script, now: int, network: seq<Attempt>, n: nat)
      requires n <= |network|
    {
      forall clock | Undisturbed(network, clock) && now <= clock && lifetime >= WINDOW ::
        RanAtMostOnce(before, Trace(script, now, network, n), Run(script, now, clock), lifetime)
    }

    lemma UndisturbedOnce(before: Store, script: Script, now: int, network: seq<Attempt>, n: nat)
      requires n <= |network|
      ensures OnceUndisturbed(before, script, now, network, n)
    {
      forall clock | Undisturbed(network, clock) && now <= clock && lifetime >= WINDOW
        ensures RanAtMostOnce(before, Trace(script, now, network, n), Run(script, now, clock), lifetime)
      {
        UndisturbedIsOneRun(before, script, now, network, n, clock, lifetime);
      }
    }
  }

  /** Adds up the token counts of all members, in any order. */
  method TotalTokens(entries: map<string, int>) returns (total: int)
    ensures total == SumValues(Counts(entries))
  {
    total := 0;
    var pending := entries.Keys;
    assert Counts(entries - pending) == map[];
    while pending != {}
      invariant pending <= entries.Keys
      invariant total == SumValues(Counts(entries - pending))
      decreases pending
    {
      var m :| m in pending;
      ghost var before := Counts(entries - pending);
      pending := pending - {m};
      SumValuesStep(Counts(entries - pending), m);
      assert Counts(entries - pending) - {m} == before;
      total := total + MemberCount(m);
    }
    assert entries - {} == entries;
  }
}
