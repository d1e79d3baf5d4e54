/** The in-process rate-limit backend (internal/ratelimit/local_backend.go). */
module LocalBackend {
  import opened Window

  /** The in-place buffers of one key show the same window as its full history, now and at any later time. */
  ghost predicate Represents(requests: seq<int>, tokens: seq<TokenUse>, u: Usage, clock: int) {
    && (forall now :: now >= clock ==> Recent(requests, now) == Recent(u.requests, now))
    && (forall now :: now >= clock ==> RecentTokens(tokens, now) == RecentTokens(u.tokens, now))
  }

  lemma PruneRequests(requests: seq<int>, tokens: seq<TokenUse>, u: Usage, now: int)
    requires Represents(requests, tokens, u, now)
    ensures Represents(Recent(requests, now), tokens, u, now)
  {
    forall later | later >= now ensures Recent(Recent(requests, now), later) == Recent(u.requests, later) {
      RecentTwice(requests, now, later);
    }
  }

  lemma PruneTokens(requests: seq<int>, tokens: seq<TokenUse>, u: Usage, now: int)
    requires Represents(requests, tokens, u, now)
    ensures Represents(requests, RecentTokens(tokens, now), u, now)
  {
    forall later | later >= now ensures RecentTokens(RecentTokens(tokens, now), later) == RecentTokens(u.tokens, later) {
      RecentTokensTwice(tokens, now, later);
    }
  }

  lemma AppendRequest(requests: seq<int>, tokens: seq<TokenUse>, u: Usage, now: int)
    requires Represents(requests, tokens, u, now)
    ensures Represents(requests + [now], tokens, u.(requests := u.requests + [now]), now)
  {
    forall later | later >= now ensures Recent(requests + [now], later) == Recent(u.requests + [now], later) {
      RecentAppend(requests, now, later);
      RecentAppend(u.requests, now, later);
    }
  }

  lemma AppendTokens(requests: seq<int>, tokens: seq<TokenUse>, u: Usage, t: TokenUse)
    requires Represents(requests, tokens, u, t.timestamp)
    ensures Represents(requests, tokens + [t], u.(tokens := u.tokens + [t]), t.timestamp)
  {
    forall later | later >= t.timestamp
      ensures RecentTokens(tokens + [t], later) == RecentTokens(u.tokens + [t], later)
    {
      RecentTokensAppend(tokens, t, later);
      RecentTokensAppend(u.tokens, t, later);
    }
  }

  /** The usage of a key; a key never touched is unused. */
  function UsageOf(usage: map<string, Usage>, key: string): Usage {
    if key in usage then usage[key] else UNUSED
  }

  // ----- injected usage -----

  /** Entry i of n spread over the 59 seconds before now. */
  function SpreadTime(now: int, i: nat, n: nat): int
    requires n > 0
  {
    now - 59_000 + i * 59_000 / n
  }

  function BucketCount(total: nat, buckets: nat, i: nat): int
    requires buckets > 0
  {
    total / buckets + if i < total % buckets then 1 else 0
  }

  function Buckets(total: nat): nat {
    if total > 60 then 60 else total
  }

  function InjectedRequests(rpm: int, now: int): seq<int> {
    if rpm <= 0 then [] else seq(rpm, i requires 0 <= i < rpm => SpreadTime(now, i, rpm))
  }

  function InjectedTokens(tpm: int, now: int): seq<TokenUse> {
    if tpm <= 0 then []
    else
      var n := Buckets(tpm);
      seq(n, i requires 0 <= i < n => TokenUse(SpreadTime(now, i, n), BucketCount(tpm, n, i)))
  }

  /** The sliding-window state of one key. */
  class LocalCounter {
    ghost const key: string
    var requests: seq<int>
    var tokens: seq<TokenUse>

    constructor (ghost key: string)
      ensures this.key == key && requests == [] && tokens == []
    {
      this.key := key;
      requests, tokens := [], [];
    }

    method CleanOldRequests(now: int) returns (count: nat)
      modifies this`requests
      ensures requests == Recent(old(requests), now) && count == |requests|
    {
      var valid := [];
      for i := 0 to |requests|
        invariant requests == old(requests)
        invariant valid == Recent(requests[..i], now)
      {
        assert requests[..i + 1][..i] == requests[..i];
        if InWindow(requests[i], now) {
          valid := valid + [requests[i]];
        }
      }
      assert requests[..|requests|] == requests;
      requests := valid;
      count := |valid|;
    }

    method CleanOldTokens(now: int) returns (total: int)
      modifies this`tokens
      ensures tokens == RecentTokens(old(tokens), now) && total == TokenSum(tokens)
    {
      var valid := [];
      total := 0;
      for i := 0 to |tokens|
        invariant tokens == old(tokens)
        invariant valid == RecentTokens(tokens[..i], now) && total == TokenSum(valid)
      {
        assert tokens[..i + 1][..i] == tokens[..i];
        if InWindow(tokens[i].timestamp, now) {
          assert (valid + [tokens[i]])[..|valid|] == valid;
          valid := valid + [tokens[i]];
          total := total + tokens[i].count;
        }
      }
      assert tokens[..|tokens|] == tokens;
      tokens := valid;
    }

    method RecordRequest(now: int, ghost u: Usage)
      requires Represents(requests, tokens, u, now)
      modifies this`requests
      ensures Represents(requests, tokens, Window.RecordRequest(u, now), now)
    {
      assert Recent(requests, now) == Recent(u.requests, now);
      RecentShrinks(requests, now, now);
      if |requests| >= MAX_REQUESTS {
        PruneRequests(requests, tokens, u, now);
        var _ := CleanOldRequests(now);
      }
      if |requests| < MAX_REQUESTS {
        AppendRequest(requests, tokens, u, now);
        requests := requests + [now];
      }
    }

    /** Prunes, then decides by the number of requests left; records when asked to and allowed. */
    method CheckRPM(limit: int, record: bool, now: int, ghost u: Usage) returns (ok: bool)
      requires Represents(requests, tokens, u, now)
      modifies this`requests
      ensures ok == RequestsBelow(u, limit, now)
      ensures Represents(requests, tokens, if ok && record then Window.RecordRequest(u, now) else u, now)
    {
      PruneRequests(requests, tokens, u, now);
      var count := CleanOldRequests(now);
      if limit != UNLIMITED && count >= limit {
        return false;
      }
      if record {
        RecordRequest(now, u);
      }
      return true;
    }

    /** An unlimited key is not even pruned. */
    method CheckTPM(limit: int, now: int, ghost u: Usage) returns (ok: bool)
      requires Represents(requests, tokens, u, now)
      modifies this`tokens
      ensures ok == TokensBelow(u, limit, now)
      ensures Represents(requests, tokens, u, now)
    {
      if limit == UNLIMITED {
        return true;
      }
      PruneTokens(requests, tokens, u, now);
      var total := CleanOldTokens(now);
      return total < limit;
    }

    method ConsumeTokens(count: int, now: int, ghost u: Usage)
      requires Represents(requests, tokens, u, now)
      modifies this`tokens
      ensures Represents(requests, tokens, RecordTokens(u, count, now), now)
    {
      assert RecentTokens(tokens, now) == RecentTokens(u.tokens, now);
      RecentTokensShrinks(tokens, now);
      if |tokens| >= MAX_TOKENS {
        PruneTokens(requests, tokens, u, now);
        var _ := CleanOldTokens(now);
      }
      if |tokens| < MAX_TOKENS {
        AppendTokens(requests, tokens, u, TokenUse(now, count));
        tokens := tokens + [TokenUse(now, count)];
      }
    }

    /** Rebuilds both buffers, spreading the given totals over the window. */
    method SetCurrentUsage(rpm: int, tpm: int, now: int)
      modifies this
      ensures requests == InjectedRequests(rpm, now)
      ensures tokens == InjectedTokens(tpm, now)
    {
      var windowStart := now - 59_000;
      requests := [];
      if rpm > 0 {
        for i := 0 to rpm
          invariant |requests| == i
          invariant forall j :: 0 <= j < i ==> requests[j] == SpreadTime(now, j, rpm)
        {
          requests := requests + [windowStart + i * 59_000 / rpm];
        }
      }
      tokens := [];
      if tpm > 0 {
        var numBuckets := if tpm > 60 then 60 else tpm;
        for i := 0 to numBuckets
          invariant requests == InjectedRequests(rpm, now)
          invariant |tokens| == i
          invariant forall j :: 0 <= j < i ==>
            tokens[j] == TokenUse(SpreadTime(now, j, numBuckets), BucketCount(tpm, numBuckets, j))
        {
          var count := tpm / numBuckets;
          if i < tpm % numBuckets {
            count := count + 1;
          }
          tokens := tokens + [TokenUse(windowStart + i * 59_000 / numBuckets, count)];
        }
      }
    }
  }

  class LocalBackend {
    var counters: map<string, LocalCounter>
    /** The full history of every key since it was last created, injected or deleted. */
    ghost var usage: map<string, Usage>
    /** The instant of the latest operation. */
    ghost var clock: int

    ghost var Repr: set<object>

    ghost predicate Valid()
      reads this, Repr
      ensures Valid() ==> this in Repr
    {
      && this in Repr
      && usage.Keys <= counters.Keys
      && (forall key :: key in counters ==> counters[key] in Repr && counters[key].key == key)
      && (forall key :: key in counters ==>
           Represents(counters[key].requests, counters[key].tokens, UsageOf(usage, key), clock))
    }

    constructor ()
      ensures Valid() && fresh(Repr)
      ensures usage == map[] && clock == 0
    {
      counters, usage, clock, Repr := map[], map[], 0, {this};
    }

    /** Time moves forward; every buffer still stands for its key's window. */
    ghost method Tick(now: int)
      requires Valid() && clock <= now
      modifies this`clock
      ensures Valid() && clock == now
    {
      clock := now;
    }

    /** Everything but the usage recorded for one key is in order. */
    ghost predicate ValidExcept(key: string)
      reads this, Repr
    {
      && this in Repr
      && usage.Keys <= counters.Keys
      && (forall k :: k in counters ==> counters[k] in Repr && counters[k].key == k)
      && (forall k :: k in counters && k != key ==>
           Represents(counters[k].requests, counters[k].tokens, UsageOf(usage, k), clock))
    }

    ghost method Record(key: string, u: Usage)
      requires ValidExcept(key) && key in counters
      requires Represents(counters[key].requests, counters[key].tokens, u, clock)
      modifies this`usage
      ensures Valid() && usage == old(usage)[key := u]
    {
      usage := usage[key := u];
    }

    method GetOrCreate(key: string) returns (c: LocalCounter)
      requires Valid()
      modifies this`counters, this`Repr
      ensures Valid() && fresh(Repr - old(Repr)) && old(Repr) <= Repr
      ensures key in counters && c == counters[key]
      ensures forall k :: k in old(counters) ==> k in counters && counters[k] == old(counters[k])
    {
      if key in counters {
        return counters[key];
      }
      c := new LocalCounter(key);
      counters, Repr := counters[key := c], Repr + {c};
    }

    method TryAllowRPM(key: string, limit: int, now: int) returns (ok: bool)
      requires Valid() && clock <= now
      modifies Repr
      ensures Valid() && clock == now && fresh(Repr - old(Repr))
      ensures ok == RequestsBelow(UsageOf(old(usage), key), limit, now)
      ensures usage == if ok then old(usage)[key := RecordRequest(UsageOf(old(usage), key), now)] else old(usage)
    {
      var c := GetOrCreate(key);
      Tick(now);
      ghost var u := UsageOf(usage, key);
      ok := c.CheckRPM(limit, true, now, u);
      if ok {
        Record(key, RecordRequest(u, now));
      }
    }

    method CanAllowRPM(key: string, limit: int, now: int) returns (ok: bool)
      requires Valid() && clock <= now
      modifies Repr
      ensures Valid() && clock == now && fresh(Repr - old(Repr))
      ensures ok == RequestsBelow(UsageOf(usage, key), limit, now) && usage == old(usage)
    {
      var c := GetOrCreate(key);
      Tick(now);
      ok := c.CheckRPM(limit, false, now, UsageOf(usage, key));
    }

    method CanAllowTPM(key: string, limit: int, now: int) returns (ok: bool)
      requires Valid() && clock <= now
      modifies Repr
      ensures Valid() && clock == now && fresh(Repr - old(Repr))
      ensures ok == TokensBelow(UsageOf(usage, key), limit, now) && usage == old(usage)
    {
      var c := GetOrCreate(key);
      Tick(now);
      ok := c.CheckTPM(limit, now, UsageOf(usage, key));
    }

    method ConsumeTokens(key: string, count: int, now: int)
      requires Valid() && clock <= now
      modifies Repr
      ensures Valid() && clock == now && fresh(Repr - old(Repr))
      ensures usage == old(usage)[key := RecordTokens(UsageOf(old(usage), key), count, now)]
    {
      var c := GetOrCreate(key);
      Tick(now);
      ghost var u := UsageOf(usage, key);
      c.ConsumeTokens(count, now, u);
      Record(key, RecordTokens(u, count, now));
    }

    method CurrentRPM(key: string, now: int) returns (count: nat)
      requires Valid() && clock <= now
      modifies Repr
      ensures Valid() && clock == now && fresh(Repr - old(Repr))
      ensures count == |Recent(UsageOf(usage, key).requests, now)| && usage == old(usage)
    {
      var c := GetOrCreate(key);
      Tick(now);
      PruneRequests(c.requests, c.tokens, UsageOf(usage, key), now);
      count := c.CleanOldRequests(now);
    }

    method CurrentTPM(key: string, now: int) returns (total: int)
      requires Valid() && clock <= now
      modifies Repr
      ensures Valid() && clock == now && fresh(Repr - old(Repr))
      ensures total == TokenSum(RecentTokens(UsageOf(usage, key).tokens, now)) && usage == old(usage)
    {
      var c := GetOrCreate(key);
      Tick(now);
      PruneTokens(c.requests, c.tokens, UsageOf(usage, key), now);
      total := c.CleanOldTokens(now);
    }

    /**
     Checks the credential, then the model when there is one, and only then records.
     An empty model key means no model limits; the two keys differ (locking one twice would deadlock).
     */
    method TryAllowAll(credKey: string, credRPM: int, credTPM: int,
                       modelKey: string, modelRPM: int, modelTPM: int, now: int) returns (ok: bool)
      requires Valid() && clock <= now && credKey != modelKey
      modifies Repr
      ensures Valid() && clock == now && fresh(Repr - old(Repr))
      ensures ok == AllBelow(old(usage), credKey, credRPM, credTPM, modelKey, modelRPM, modelTPM, now)
      ensures usage == if ok then RecordAll(old(usage), credKey, modelKey, now) else old(usage)
    {
      var cred := GetOrCreate(credKey);
      var mod := cred;
      if modelKey != "" {
        mod := GetOrCreate(modelKey);
      }
      Tick(now);
      ok := CheckCounters(cred, credRPM, credTPM, modelKey, mod, modelRPM, modelTPM, now);
      if ok {
        RecordCounters(cred, modelKey, mod, now);
      }
    }

    method RecordCounters(cred: LocalCounter, modelKey: string, mod: LocalCounter, now: int)
      requires Valid() && clock == now
      requires cred.key in counters && counters[cred.key] == cred
      requires modelKey != "" ==> modelKey in counters && counters[modelKey] == mod && modelKey != cred.key
      modifies cred, mod, this`usage
      ensures Valid()
      ensures usage == RecordAll(old(usage), cred.key, modelKey, now)
    {
      RecordCounter(cred, now);
      if modelKey != "" {
        RecordCounter(mod, now);
      }
    }

    method CheckCounters(cred: LocalCounter, credRPM: int, credTPM: int,
                         modelKey: string, mod: LocalCounter, modelRPM: int, modelTPM: int, now: int) returns (ok: bool)
      requires Valid() && clock == now
      requires cred.key in counters && counters[cred.key] == cred
      requires modelKey != "" ==> modelKey in counters && counters[modelKey] == mod
      modifies cred, mod
      ensures Valid()
      ensures ok == AllBelow(usage, cred.key, credRPM, credTPM, modelKey, modelRPM, modelTPM, now)
    {
      ok := CheckCounter(cred, credRPM, credTPM, now);
      if ok && modelKey != "" {
        ok := CheckCounter(mod, modelRPM, modelTPM, now);
      }
    }

    /** The non-recording request and token checks of one counter. */
    method CheckCounter(c: LocalCounter, rpm: int, tpm: int, now: int) returns (ok: bool)
      requires Valid() && clock == now && c.key in counters && counters[c.key] == c
      modifies c
      ensures Valid()
      ensures ok == (RequestsBelow(UsageOf(usage, c.key), rpm, now) && TokensBelow(UsageOf(usage, c.key), tpm, now))
    {
      ghost var u := UsageOf(usage, c.key);
      ok := c.CheckRPM(rpm, false, now, u);
      if ok {
        ok := c.CheckTPM(tpm, now, u);
      }
    }

    method RecordCounter(c: LocalCounter, now: int)
      requires Valid() && clock == now && c.key in counters && counters[c.key] == c
      modifies c, this`usage
      ensures Valid()
      ensures usage == old(usage)[c.key := RecordRequest(UsageOf(old(usage), c.key), now)]
    {
      ghost var u := UsageOf(usage, c.key);
      c.RecordRequest(now, u);
      usage := usage[c.key := RecordRequest(u, now)];
    }

    method SetCurrentUsage(key: string, rpm: int, tpm: int, now: int)
      requires Valid() && clock <= now
      modifies Repr
      ensures Valid() && clock == now && fresh(Repr - old(Repr))
      ensures usage == old(usage)[key := Usage(InjectedRequests(rpm, now), InjectedTokens(tpm, now))]
    {
      var c := GetOrCreate(key);
      Tick(now);
      c.SetCurrentUsage(rpm, tpm, now);
      Record(key, Usage(c.requests, c.tokens));
    }

    method DeleteKey(key: string)
      requires Valid()
      modifies this
      ensures Valid() && clock == old(clock) && Repr == old(Repr)
      ensures usage == old(usage) - {key}
    {
      counters := counters - {key};
      usage := usage - {key};
    }
  }

  /** All four checks of TryAllowAll; the model's only when a model key is given. */
  ghost predicate AllBelow(usage: map<string, Usage>, credKey: string, credRPM: int, credTPM: int,
                           modelKey: string, modelRPM: int, modelTPM: int, now: int)
  {
    && RequestsBelow(UsageOf(usage, credKey), credRPM, now)
    && TokensBelow(UsageOf(usage, credKey), credTPM, now)
    && (modelKey != "" ==>
          && RequestsBelow(UsageOf(usage, modelKey), modelRPM, now)
          && TokensBelow(UsageOf(usage, modelKey), modelTPM, now))
  }

  /** One request recorded under the credential, and one under the model when there is one. */
  ghost function RecordAll(usage: map<string, Usage>, credKey: string, modelKey: string, now: int): map<string, Usage> {
    var recorded := usage[credKey := RecordRequest(UsageOf(usage, credKey), now)];
    if modelKey == "" then recorded
    else recorded[modelKey := RecordRequest(UsageOf(usage, modelKey), now)]
  }

  /** The requests of the last sixty seconds and the sum of their tokens are below both limits of a key. */
  ghost predicate KeyHasRoom(u: Usage, rpm: int, tpm: int, now: int) {
    && (rpm == -1 || |set i: nat | i < |u.requests| && u.requests[i] > now - 60_000| < rpm)
    && (tpm == -1 || TokenSum(RecentTokens(u.tokens, now)) < tpm)
  }

  /** An admission asks that both keys have room, or the credential's alone without a model key, and records one request
      under each of them. */
  lemma AdmissionWrittenOut(usage: map<string, Usage>, credKey: string, credRPM: int, credTPM: int,
                            modelKey: string, modelRPM: int, modelTPM: int, now: int)
    requires credKey != modelKey
    ensures AllBelow(usage, credKey, credRPM, credTPM, modelKey, modelRPM, modelTPM, now) <==>
      && KeyHasRoom(UsageOf(usage, credKey), credRPM, credTPM, now)
      && (modelKey == "" || KeyHasRoom(UsageOf(usage, modelKey), modelRPM, modelTPM, now))
    ensures forall key ::
      var before, after := UsageOf(usage, key), UsageOf(RecordAll(usage, credKey, modelKey, now), key);
      after == if key == credKey || (modelKey != "" && key == modelKey) then RecordRequest(before, now) else before
  {
    RecentCounts(UsageOf(usage, credKey).requests, now);
    RecentCounts(UsageOf(usage, modelKey).requests, now);
  }
}
