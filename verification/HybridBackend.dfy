/**
 The hybrid backend: local decisions corrected by an estimate of remote traffic, with asynchronous
 writes to Redis (internal/ratelimit/hybrid_backend.go).
 */
module HybridBackend {
  import opened Window
  import opened LocalBackend

  const WRITE_QUEUE_SIZE := 10_000
  const WRITE_BATCH_SIZE := 200

  datatype OpKind = OpRPM | OpTPM

  datatype AsyncOp = AsyncOp(kind: OpKind, key: string, member: string, at: int)

  /** Requests and tokens per minute. */
  datatype Stats = Stats(rpm: int, tpm: int)

  const NO_STATS := Stats(0, 0)

  function StatsOf(stats: map<string, Stats>, key: string): Stats {
    if key in stats then stats[key] else NO_STATS
  }

  function Max(a: int, b: int): int {
    if a < b then b else a
  }

  /** The limit left for local traffic; -1 stays unlimited. */
  function EffectiveLimit(limit: int, remote: int): int {
    if limit == UNLIMITED then UNLIMITED
    else if limit - remote <= 0 then 0
    else limit - remote
  }

  /** A configured limit is never turned into the unlimited marker, and local usage is held to what remote traffic leaves;
      a negative local total always fits, because the clamp stops at 0. */
  lemma EffectiveLimitIsExact(limit: int, remote: int, local: int)
    requires limit != UNLIMITED && remote >= 0
    ensures EffectiveLimit(limit, remote) != UNLIMITED
    ensures local < EffectiveLimit(limit, remote) <==> local < 0 || local + remote < limit
  {
  }

  /** Without the clamp the marker could appear: one request over the limit would lift it. */
  lemma UnclampedLimitWouldLift(limit: nat)
    ensures limit - (limit + 1) == UNLIMITED && EffectiveLimit(limit, limit + 1) == 0
  {
  }

  lemma HeadMoves(flushed: seq<AsyncOp>, batch: seq<AsyncOp>, queue: seq<AsyncOp>)
    requires queue != []
    ensures flushed + (batch + [queue[0]]) + queue[1..] == flushed + batch + queue
    ensures flushed + (batch + [queue[0]]) == flushed + batch + [queue[0]]
    ensures (flushed + (batch + [queue[0]])) + [] == flushed + (batch + [queue[0]])
  {
    assert queue == [queue[0]] + queue[1..];
  }

  /** The write queue and its worker's batch. */
  class WriteQueue {
    var writeQueue: seq<AsyncOp>
    var batch: seq<AsyncOp>
    /** Every operation offered for writing, and what became of it. */
    ghost var offered: seq<AsyncOp>
    ghost var accepted: seq<AsyncOp>
    ghost var dropped: seq<AsyncOp>
    ghost var flushed: seq<AsyncOp>

    /** Accepted operations are flushed, batched or queued, in the order they were offered; the rest were dropped. */
    ghost predicate Valid()
      reads this
    {
      && |writeQueue| <= WRITE_QUEUE_SIZE && |batch| < WRITE_BATCH_SIZE
      && flushed + batch + writeQueue == accepted
      && multiset(offered) == multiset(accepted) + multiset(dropped)
    }

    constructor ()
      ensures Valid() && offered == []
    {
      writeQueue, batch := [], [];
      offered, accepted, dropped, flushed := [], [], [], [];
    }

    /** Queues an operation, or drops it when the queue is full. */
    method Enqueue(op: AsyncOp)
      requires Valid()
      modifies this`writeQueue, this`offered, this`accepted, this`dropped
      ensures Valid() && offered == old(offered) + [op]
      ensures if |old(writeQueue)| < WRITE_QUEUE_SIZE
        then writeQueue == old(writeQueue) + [op] && accepted == old(accepted) + [op] && dropped == old(dropped)
        else writeQueue == old(writeQueue) && accepted == old(accepted) && dropped == old(dropped) + [op]
    {
      offered := offered + [op];
      if |writeQueue| < WRITE_QUEUE_SIZE {
        writeQueue := writeQueue + [op];
        accepted := accepted + [op];
        assert flushed + batch + writeQueue == flushed + batch + old(writeQueue) + [op];
      } else {
        dropped := dropped + [op];
      }
    }

    /** One write per recorded counter. */
    method OfferAdmission(credKey: string, credMember: string, modelKey: string, modelMember: string, now: int)
      requires Valid()
      modifies this
      ensures Valid() && offered == old(offered) + Offers(true, credKey, credMember, modelKey, modelMember, now)
    {
      Enqueue(AsyncOp(OpRPM, credKey, credMember, now));
      if modelKey != "" {
        Enqueue(AsyncOp(OpRPM, modelKey, modelMember, now));
      }
    }

    /** Hands the batch to Redis; what Redis does with it is not awaited. */
    method Flush()
      modifies this`batch, this`flushed
      ensures batch == [] && flushed == old(flushed) + old(batch)
    {
      flushed := flushed + batch;
      batch := [];
    }

    /** The worker takes one operation and flushes a full batch at once. */
    method WorkerReceive()
      requires Valid() && writeQueue != []
      modifies this`writeQueue, this`batch, this`flushed
      ensures Valid() && writeQueue == old(writeQueue)[1..]
      ensures flushed + batch == old(flushed) + old(batch) + [old(writeQueue)[0]]
    {
      HeadMoves(flushed, batch, writeQueue);
      batch := batch + [writeQueue[0]];
      writeQueue := writeQueue[1..];
      if |batch| >= WRITE_BATCH_SIZE {
        Flush();
      }
    }

    method WorkerTick()
      requires Valid()
      modifies this`batch, this`flushed
      ensures Valid() && batch == [] && flushed == old(flushed) + old(batch)
    {
      Flush();
      assert flushed + batch == flushed;
    }

    /** On shutdown everything accepted so far is flushed, in order. */
    method WorkerDrain()
      requires Valid()
      modifies this`writeQueue, this`batch, this`flushed
      ensures Valid() && writeQueue == [] && batch == [] && flushed == accepted
    {
      while writeQueue != []
        invariant Valid()
        decreases |writeQueue|
      {
        WorkerReceive();
      }
      WorkerTick();
      assert flushed + [] + [] == flushed;
    }
  }

  class HybridBackend {
    const local: LocalBackend
    const queue: WriteQueue
    var tracked: set<string>
    /** Estimated traffic of the other instances. */
    var remoteStats: map<string, Stats>
    /** The keys whose deletion was sent to Redis. */
    ghost var deletions: seq<string>

    ghost predicate Valid()
      reads this, queue, local, local.Repr
    {
      && this !in local.Repr && queue !in local.Repr
      && local.Valid() && queue.Valid()
      && (forall key :: key in remoteStats ==> remoteStats[key].rpm >= 0 && remoteStats[key].tpm >= 0)
    }

    constructor ()
      ensures Valid() && fresh(local) && fresh(local.Repr) && fresh(queue)
      ensures tracked == {} && remoteStats == map[] && queue.offered == [] && local.usage == map[]
    {
      local := new LocalBackend();
      queue := new WriteQueue();
      tracked, remoteStats, deletions := {}, map[], [];
    }

    // ----- decisions -----

    ghost function LocalRPM(key: string, now: int): nat
      reads this, local
    {
      |Recent(UsageOf(local.usage, key).requests, now)|
    }

    ghost function LocalTPM(key: string, now: int): int
      reads this, local
    {
      TokenSum(RecentTokens(UsageOf(local.usage, key).tokens, now))
    }

    function RemoteRPM(key: string): int
      reads this
    {
      StatsOf(remoteStats, key).rpm
    }

    function RemoteTPM(key: string): int
      reads this
    {
      StatsOf(remoteStats, key).tpm
    }

    /** Local plus remote tokens are below the limit; a local total below 0 passes any limit. */
    ghost predicate TokensFit(key: string, limit: int, now: int)
      reads this, local
    {
      limit == UNLIMITED || LocalTPM(key, now) < 0 || LocalTPM(key, now) + RemoteTPM(key) < limit
    }

    method TryAllowRPM(key: string, limit: int, member: string, now: int) returns (ok: bool)
      requires Valid() && local.clock <= now
      modifies this`tracked, queue, local.Repr
      ensures Valid() && old(local.clock) <= local.clock <= now && fresh(local.Repr - old(local.Repr))
      ensures ok <==> limit == UNLIMITED || old(LocalRPM(key, now)) + RemoteRPM(key) < limit
      ensures local.usage == if ok then old(local.usage)[key := RecordRequest(UsageOf(old(local.usage), key), now)]
                             else old(local.usage)
      ensures queue.offered == if ok then old(queue.offered) + [AsyncOp(OpRPM, key, member, now)] else old(queue.offered)
      ensures tracked == old(tracked) + {key}
    {
      ok := DecideRPM(key, limit, now);
      if ok {
        queue.Enqueue(AsyncOp(OpRPM, key, member, now));
      }
    }

    /** The local half of TryAllowRPM, under the effective limit. */
    method DecideRPM(key: string, limit: int, now: int) returns (ok: bool)
      requires Valid() && local.clock <= now
      modifies this`tracked, local.Repr
      ensures Valid() && old(local.clock) <= local.clock <= now && fresh(local.Repr - old(local.Repr))
      ensures ok <==> limit == UNLIMITED || old(LocalRPM(key, now)) + RemoteRPM(key) < limit
      ensures local.usage == if ok then old(local.usage)[key := RecordRequest(UsageOf(old(local.usage), key), now)]
                             else old(local.usage)
      ensures tracked == old(tracked) + {key}
    {
      tracked := tracked + {key};
      var effLimit := EffectiveLimit(limit, RemoteRPM(key));
      if limit != UNLIMITED {
        EffectiveLimitIsExact(limit, RemoteRPM(key), LocalRPM(key, now));
      }
      if effLimit == 0 {
        return false;
      }
      ok := local.TryAllowRPM(key, effLimit, now);
    }

    method CanAllowRPM(key: string, limit: int, now: int) returns (ok: bool)
      requires Valid() && local.clock <= now
      modifies this`tracked, local.Repr
      ensures Valid() && local.clock == now && fresh(local.Repr - old(local.Repr))
      ensures ok <==> limit == UNLIMITED || LocalRPM(key, now) + RemoteRPM(key) < limit
      ensures local.usage == old(local.usage) && tracked == old(tracked) + {key}
    {
      tracked := tracked + {key};
      if limit != UNLIMITED {
        EffectiveLimitIsExact(limit, RemoteRPM(key), LocalRPM(key, now));
      }
      ok := local.CanAllowRPM(key, EffectiveLimit(limit, RemoteRPM(key)), now);
    }

    method CanAllowTPM(key: string, limit: int, now: int) returns (ok: bool)
      requires Valid() && local.clock <= now
      modifies this`tracked, local.Repr
      ensures Valid() && old(local.clock) <= local.clock <= now && fresh(local.Repr - old(local.Repr))
      ensures ok <==> TokensFit(key, limit, now)
      ensures local.usage == old(local.usage)
    {
      if limit == UNLIMITED {
        return true;
      }
      tracked := tracked + {key};
      EffectiveLimitIsExact(limit, RemoteTPM(key), LocalTPM(key, now));
      ok := local.CanAllowTPM(key, EffectiveLimit(limit, RemoteTPM(key)), now);
    }

    method ConsumeTokens(key: string, count: int, member: string, now: int)
      requires Valid() && local.clock <= now
      modifies this`tracked, queue, local.Repr
      ensures Valid() && local.clock == now && fresh(local.Repr - old(local.Repr))
      ensures local.usage == old(local.usage)[key := RecordTokens(UsageOf(old(local.usage), key), count, now)]
      ensures queue.offered == old(queue.offered) + [AsyncOp(OpTPM, key, member, now)]
    {
      tracked := tracked + {key};
      local.ConsumeTokens(key, count, now);
      queue.Enqueue(AsyncOp(OpTPM, key, member, now));
    }

    method CurrentRPM(key: string, now: int) returns (count: int)
      requires Valid() && local.clock <= now
      modifies local.Repr
      ensures Valid() && local.clock == now && fresh(local.Repr - old(local.Repr)) && local.usage == old(local.usage)
      ensures count == LocalRPM(key, now) + RemoteRPM(key)
    {
      count := local.CurrentRPM(key, now);
      count := count + RemoteRPM(key);
    }

    method CurrentTPM(key: string, now: int) returns (total: int)
      requires Valid() && local.clock <= now
      modifies local.Repr
      ensures Valid() && local.clock == now && fresh(local.Repr - old(local.Repr)) && local.usage == old(local.usage)
      ensures total == LocalTPM(key, now) + RemoteTPM(key)
    {
      total := local.CurrentTPM(key, now);
      total := total + RemoteTPM(key);
    }

    /** All four checks against local plus remote traffic; one write offered per recorded counter. */
    method TryAllowAll(credKey: string, credRPM: int, credTPM: int, credMember: string,
                       modelKey: string, modelRPM: int, modelTPM: int, modelMember: string, now: int) returns (ok: bool)
      requires Valid() && local.clock <= now && credKey != modelKey
      modifies this`tracked, queue, local.Repr
      ensures Valid() && local.clock == now && fresh(local.Repr - old(local.Repr))
      ensures ok == old(BelowAll(credKey, credRPM, credTPM, modelKey, modelRPM, modelTPM, now))
      ensures local.usage == if ok then RecordAll(old(local.usage), credKey, modelKey, now) else old(local.usage)
      ensures queue.offered == old(queue.offered) + Offers(ok, credKey, credMember, modelKey, modelMember, now)
    {
      ok := DecideAll(credKey, credRPM, credTPM, modelKey, modelRPM, modelTPM, now);
      if ok {
        queue.OfferAdmission(credKey, credMember, modelKey, modelMember, now);
      }
    }

    /** The local half of TryAllowAll, under the effective limits. */
    method DecideAll(credKey: string, credRPM: int, credTPM: int,
                     modelKey: string, modelRPM: int, modelTPM: int, now: int) returns (ok: bool)
      requires Valid() && local.clock <= now && credKey != modelKey
      modifies this`tracked, local.Repr
      ensures Valid() && local.clock == now && fresh(local.Repr - old(local.Repr))
      ensures ok == old(BelowAll(credKey, credRPM, credTPM, modelKey, modelRPM, modelTPM, now))
      ensures local.usage == if ok then RecordAll(old(local.usage), credKey, modelKey, now) else old(local.usage)
    {
      EffectiveAllBelow(credKey, credRPM, credTPM, modelKey, modelRPM, modelTPM, now);
      var effCredRPM, effCredTPM := EffectiveLimit(credRPM, RemoteRPM(credKey)), EffectiveLimit(credTPM, RemoteTPM(credKey));
      tracked := tracked + {credKey};
      var effModelRPM, effModelTPM := 0, 0;
      if modelKey != "" {
        tracked := tracked + {modelKey};
        effModelRPM := EffectiveLimit(modelRPM, RemoteRPM(modelKey));
        effModelTPM := EffectiveLimit(modelTPM, RemoteTPM(modelKey));
      }
      ok := local.TryAllowAll(credKey, effCredRPM, effCredTPM, modelKey, effModelRPM, effModelTPM, now);
    }

    /** Local plus remote traffic is below both limits of a key. */
    ghost predicate BelowBoth(key: string, rpm: int, tpm: int, now: int)
      reads this, local
    {
      && (rpm == UNLIMITED || LocalRPM(key, now) + RemoteRPM(key) < rpm)
      && TokensFit(key, tpm, now)
    }

    /** Both keys are; the model's only when there is one. */
    ghost predicate BelowAll(credKey: string, credRPM: int, credTPM: int, modelKey: string, modelRPM: int, modelTPM: int, now: int)
      reads this, local
    {
      && BelowBoth(credKey, credRPM, credTPM, now)
      && (modelKey != "" ==> BelowBoth(modelKey, modelRPM, modelTPM, now))
    }

    lemma EffectiveAllBelow(credKey: string, credRPM: int, credTPM: int, modelKey: string, modelRPM: int, modelTPM: int, now: int)
      requires Valid()
      ensures BelowAll(credKey, credRPM, credTPM, modelKey, modelRPM, modelTPM, now) <==>
        AllBelow(local.usage, credKey, EffectiveLimit(credRPM, RemoteRPM(credKey)), EffectiveLimit(credTPM, RemoteTPM(credKey)), modelKey,
                 if modelKey == "" then 0 else EffectiveLimit(modelRPM, RemoteRPM(modelKey)),
                 if modelKey == "" then 0 else EffectiveLimit(modelTPM, RemoteTPM(modelKey)), now)
    {
      EffectiveBelow(credKey, credRPM, credTPM, now);
      EffectiveBelow(modelKey, modelRPM, modelTPM, now);
    }

    lemma EffectiveBelow(key: string, rpm: int, tpm: int, now: int)
      requires Valid()
      ensures BelowBoth(key, rpm, tpm, now) <==>
        && RequestsBelow(UsageOf(local.usage, key), EffectiveLimit(rpm, RemoteRPM(key)), now)
        && TokensBelow(UsageOf(local.usage, key), EffectiveLimit(tpm, RemoteTPM(key)), now)
    {
    }

    // ----- synchronisation -----

    /** The first step of a sync: which keys it is for. */
    method TrackedKeys() returns (keys: set<string>)
      ensures keys == tracked
    {
      keys := tracked;
    }

    /** The second step: the local counts of these keys, now. */
    method ReadLocal(keys: set<string>, now: int) returns (counts: map<string, Stats>)
      requires Valid() && local.clock <= now
      modifies local.Repr
      ensures Valid() && local.clock <= now && fresh(local.Repr - old(local.Repr)) && local.usage == old(local.usage)
      ensures counts.Keys == keys && forall key :: key in keys ==> counts[key] == LocalStats(key, now)
    {
      counts := map[];
      var pending := keys;
      while pending != {}
        invariant pending <= keys && counts.Keys == keys - pending
        invariant Valid() && local.clock <= now && fresh(local.Repr - old(local.Repr)) && local.usage == old(local.usage)
        invariant forall key :: key in counts ==> counts[key] == LocalStats(key, now)
        decreases pending
      {
        var key :| key in pending;
        pending := pending - {key};
        var stats := ReadKey(key, now);
        counts := counts[key := stats];
      }
    }

    ghost function LocalStats(key: string, now: int): Stats
      reads this, local
    {
      Stats(LocalRPM(key, now), LocalTPM(key, now))
    }

    method ReadKey(key: string, now: int) returns (stats: Stats)
      requires Valid() && local.clock <= now
      modifies local.Repr
      ensures Valid() && local.clock <= now && fresh(local.Repr - old(local.Repr)) && local.usage == old(local.usage)
      ensures stats == LocalStats(key, now)
    {
      var rpm := local.CurrentRPM(key, now);
      var tpm := local.CurrentTPM(key, now);
      stats := Stats(rpm, tpm);
    }

    /**
     The last step, under its own lock: the estimates made of what was read, whatever happened since. Every key that was
     read gets one, even if it was deleted meanwhile, and what is then reported of it is the larger of the local count and
     the shared total exactly when the local count has not moved away from the one read.
     */
    method Publish(totals: map<string, Stats>, counts: map<string, Stats>)
      requires Valid()
      modifies this`remoteStats
      ensures Valid()
      ensures remoteStats == old(remoteStats) + Estimates(totals, counts)
      ensures forall key, now | key in counts :: ReportsWhileHeld(key, StatsOf(totals, key), counts[key], now)
    {
      remoteStats := Merged(remoteStats, totals, counts);
      forall key, now | key in counts ensures ReportsWhileHeld(key, StatsOf(totals, key), counts[key], now) {
        EstimateHolds(LocalStats(key, now), counts[key], StatsOf(totals, key));
      }
    }

    ghost predicate ReportsWhileHeld(key: string, total: Stats, read: Stats, now: int)
      reads this, local
    {
      Reports(key, total, now) <==> StillHolds(LocalStats(key, now), read, total)
    }

    /** A sync that nothing comes in between of; one that timed out changes nothing. */
    method DoSync(totals: map<string, Stats>, completed: bool, now: int)
      requires Valid() && local.clock <= now
      modifies this`remoteStats, local.Repr
      ensures Valid() && local.clock <= now && fresh(local.Repr - old(local.Repr)) && local.usage == old(local.usage)
      ensures !completed ==> remoteStats == old(remoteStats)
      ensures completed ==> forall key :: key in tracked ==>
        StatsOf(remoteStats, key) == Estimate(StatsOf(totals, key), LocalStats(key, now))
      ensures completed ==> forall key :: key in tracked ==> Reports(key, StatsOf(totals, key), now)
      ensures forall key :: key !in tracked ==> StatsOf(remoteStats, key) == StatsOf(old(remoteStats), key)
    {
      var keys := TrackedKeys();
      if keys == {} || !completed {
        return;
      }
      var counts := ReadLocal(keys, now);
      Publish(totals, counts);
      PublishedIsSynced(totals, counts, old(remoteStats), now);
    }

    lemma PublishedIsSynced(totals: map<string, Stats>, counts: map<string, Stats>, before: map<string, Stats>, now: int)
      requires remoteStats == before + Estimates(totals, counts)
      requires forall key :: key in counts ==> counts[key] == LocalStats(key, now)
      ensures forall key :: key in counts ==>
        && StatsOf(remoteStats, key) == Estimate(StatsOf(totals, key), LocalStats(key, now))
        && Reports(key, StatsOf(totals, key), now)
    {
      forall key | key in counts
        ensures StatsOf(remoteStats, key) == Estimate(StatsOf(totals, key), LocalStats(key, now))
        ensures Reports(key, StatsOf(totals, key), now)
      {
        EstimateHolds(LocalStats(key, now), counts[key], StatsOf(totals, key));
      }
    }

    /** What the backend reports of a key is the larger of its local count and the shared total. */
    ghost predicate Reports(key: string, total: Stats, now: int)
      reads this, local
    {
      && LocalRPM(key, now) + RemoteRPM(key) == Max(LocalRPM(key, now), total.rpm)
      && LocalTPM(key, now) + RemoteTPM(key) == Max(LocalTPM(key, now), total.tpm)
    }

    /** A sync followed by the two reads: no local record is lost, and none of the shared total. */
    method SyncAndReport(key: string, totals: map<string, Stats>, now: int) returns (rpm: int, tpm: int)
      requires Valid() && local.clock <= now && key in tracked
      modifies this`remoteStats, local.Repr
      ensures Valid() && local.clock == now && fresh(local.Repr - old(local.Repr)) && local.usage == old(local.usage)
      ensures rpm == Max(old(LocalRPM(key, now)), StatsOf(totals, key).rpm)
      ensures tpm == Max(old(LocalTPM(key, now)), StatsOf(totals, key).tpm)
    {
      DoSync(totals, true, now);
      assert Reports(key, StatsOf(totals, key), now);
      rpm := CurrentRPM(key, now);
      tpm := CurrentTPM(key, now);
    }

    /** A key deleted between the read and the publishing has its estimate back, though it is no longer tracked. */
    method SyncAroundDelete(key: string, totals: map<string, Stats>, now: int)
      requires Valid() && local.clock <= now && key in tracked
      modifies this, local, local.Repr
      ensures Valid() && key !in tracked && key !in local.usage
      ensures key in remoteStats && remoteStats[key] == Estimate(StatsOf(totals, key), old(LocalStats(key, now)))
    {
      var keys := TrackedKeys();
      var counts := ReadLocal(keys, now);
      DeleteKey(key);
      Publish(totals, counts);
    }

    method DeleteKey(key: string)
      requires Valid()
      modifies this`tracked, this`remoteStats, this`deletions, local
      ensures Valid()
      ensures tracked == old(tracked) - {key} && remoteStats == old(remoteStats) - {key}
      ensures local.usage == old(local.usage) - {key} && local.Repr == old(local.Repr) && local.clock == old(local.clock)
      ensures deletions == old(deletions) + [key]
    {
      tracked := tracked - {key};
      remoteStats := remoteStats - {key};
      local.DeleteKey(key);
      deletions := deletions + [key];
    }
  }

  /** Shared total less local count, never negative. */
  function Estimate(total: Stats, count: Stats): Stats {
    Stats(if total.rpm - count.rpm < 0 then 0 else total.rpm - count.rpm,
          if total.tpm - count.tpm < 0 then 0 else total.tpm - count.tpm)
  }

  function Estimates(totals: map<string, Stats>, counts: map<string, Stats>): map<string, Stats> {
    map key | key in counts :: Estimate(StatsOf(totals, key), counts[key])
  }

  /** The count now agrees with what was read: it is the same when the shared total was larger, and otherwise it has not
      fallen below that total. */
  predicate Agrees(current: int, read: int, total: int) {
    if total > read then current == read else total <= current
  }

  predicate StillHolds(current: Stats, read: Stats, total: Stats) {
    Agrees(current.rpm, read.rpm, total.rpm) && Agrees(current.tpm, read.tpm, total.tpm)
  }

  /** Current count and estimate add up to the larger of current count and shared total exactly while that holds. */
  lemma EstimateHolds(current: Stats, read: Stats, total: Stats)
    ensures (&& current.rpm + Estimate(total, read).rpm == Max(current.rpm, total.rpm)
             && current.tpm + Estimate(total, read).tpm == Max(current.tpm, total.tpm))
       <==> StillHolds(current, read, total)
  {
  }

  /** A request admitted between the read and the publishing is counted on top of a shared total above the count read. */
  lemma AdmissionBetweenIsOnTop(current: Stats, read: Stats, total: Stats)
    requires total.rpm > read.rpm && current.rpm == read.rpm + 1
    ensures !StillHolds(current, read, total)
    ensures current.rpm + Estimate(total, read).rpm == Max(current.rpm, total.rpm) + 1
  {
  }

  /** The estimates of every key that was read, over those of the others. */
  method Merged(stats: map<string, Stats>, totals: map<string, Stats>, counts: map<string, Stats>)
    returns (merged: map<string, Stats>)
    ensures merged == stats + Estimates(totals, counts)
  {
    merged := stats;
    var pending := counts.Keys;
    while pending != {}
      invariant pending <= counts.Keys
      invariant merged == stats + (Estimates(totals, counts) - pending)
      decreases pending
    {
      var key :| key in pending;
      pending := pending - {key};
      var remoteRPM, remoteTPM := StatsOf(totals, key).rpm - counts[key].rpm, StatsOf(totals, key).tpm - counts[key].tpm;
      if remoteRPM < 0 {
        remoteRPM := 0;
      }
      if remoteTPM < 0 {
        remoteTPM := 0;
      }
      merged := merged[key := Stats(remoteRPM, remoteTPM)];
    }
  }

  /** The writes an admission offers. */
  function Offers(ok: bool, credKey: string, credMember: string, modelKey: string, modelMember: string, now: int): seq<AsyncOp> {
    if !ok then []
    else if modelKey == "" then [AsyncOp(OpRPM, credKey, credMember, now)]
    else [AsyncOp(OpRPM, credKey, credMember, now), AsyncOp(OpRPM, modelKey, modelMember, now)]
  }
}
