/** The balancer object: its selections and retries over live credentials (internal/balancer/roundrobin.go). */
module RoundRobin {
  import opened Collections
  import opened Window
  import opened LocalBackend
  import opened RpmLimiter
  import opened Swrr
  import opened SwrrFairness
  import opened SwrrCycle
  import opened Candidates
  import opened Strings
  import F = Fail2Ban

  /** Every name has limits, those of the last credential that bears it. */
  ghost predicate Registered(limits: map<string, LimiterConfig>, credentials: seq<Credential>) {
    forall name :: match LastNamed(credentials, name)
      case Some(c) => name in limits && limits[name] == LimiterConfig(c.rpm, if c.tpm == 0 then UNLIMITED else c.tpm)
      case None => true
  }

  lemma RegisterOne(before: map<string, LimiterConfig>, after: map<string, LimiterConfig>, credentials: seq<Credential>, n: nat)
    requires n < |credentials| && Registered(before, credentials[..n])
    requires var c := credentials[n];
      after == before[c.name := LimiterConfig(c.rpm, if c.tpm == 0 then UNLIMITED else c.tpm)]
    ensures Registered(after, credentials[..n + 1])
  {
    assert credentials[..n + 1][..n] == credentials[..n];
  }

  class RoundRobin {
    var credentials: seq<Credential>
    var swrr: map<SchedKey, SwrrState>
    const bans: F.Fail2Ban
    const limiter: RPMLimiter
    /** The node maps of all cycles started so far. */
    ghost var cycles: Cycles
    ghost var Repr: set<object>

    ghost predicate Valid()
      reads this, bans, limiter, limiter.backend, limiter.backend.Repr, Repr
      ensures Valid() ==> this in Repr
    {
      && this in Repr && bans in Repr && limiter in Repr && limiter.backend.Repr <= Repr
      && this !in limiter.backend.Repr && bans !in limiter.backend.Repr
      && limiter.Valid()
      && bans.State().NoEmptyCounters()
      && cycles.Keys == swrr.Keys
      && (forall key :: key in swrr ==>
            && swrr[key] in Repr && swrr[key] !in limiter.backend.Repr
            && swrr[key].key == key && swrr[key].nodes == cycles[key])
    }

    /** Registers every credential's limits, the last of a name when it is repeated; a token limit of 0 means unlimited. */
    constructor (credentials: seq<Credential>, bans: F.Fail2Ban, limiter: RPMLimiter)
      requires limiter.Valid() && bans.State().NoEmptyCounters() && bans !in limiter.backend.Repr
      modifies limiter
      ensures Valid() && this.bans == bans && this.limiter == limiter
      ensures this.credentials == credentials && cycles == map[]
      ensures Registered(limiter.limits, credentials)
    {
      this.credentials, this.bans, this.limiter := credentials, bans, limiter;
      swrr, cycles := map[], map[];
      Repr := {this, bans, limiter} + limiter.backend.Repr;
      new;
      for i := 0 to |credentials|
        invariant Valid() && this.credentials == credentials && cycles == map[]
        invariant Registered(limiter.limits, credentials[..i])
      {
        var c := credentials[i];
        label Before:
        limiter.AddCredentialWithTPM(c.name, c.rpm, if c.tpm == 0 then UNLIMITED else c.tpm);
        RegisterOne(old@Before(limiter.limits), limiter.limits, credentials, i);
      }
      assert credentials[..|credentials|] == credentials;
    }

    ghost function See(model: string, now: int): Snapshot
      reads this, bans, limiter, limiter.backend
    {
      Snapshot(bans.State().ActiveKeys(now), Room(model, now), limiter.modelLimits, limiter.backend.usage, model, now)
    }

    ghost function Room(model: string, now: int): set<string>
      reads limiter, limiter.backend
    {
      RoomOf(limiter.limits, limiter.modelLimits, limiter.backend.usage, model, now)
    }

    ghost function Nodes(key: SchedKey): map<string, int>
      reads this
    {
      NodesOf(cycles, key)
    }

    method CanPassRateLimits(name: string, model: string, now: int) returns (ok: bool)
      requires Valid() && limiter.backend.clock <= now
      modifies limiter.backend.Repr, this`Repr
      ensures Valid() && limiter.backend.clock <= now && fresh(Repr - old(Repr)) && old(Repr) <= Repr
      ensures fresh(limiter.backend.Repr - old(limiter.backend.Repr))
      ensures limiter.backend.usage == old(limiter.backend.usage)
      ensures ok <==> name in Room(model, now)
    {
      ok := PassesLimits(name, model, now);
      Repr := Repr + limiter.backend.Repr;
    }

    /** The four limits, each asked only when those before it hold. */
    method PassesLimits(name: string, model: string, now: int) returns (ok: bool)
      requires limiter.Valid() && limiter.backend.clock <= now
      modifies limiter.backend.Repr
      ensures limiter.Valid() && limiter.backend.clock <= now
      ensures fresh(limiter.backend.Repr - old(limiter.backend.Repr))
      ensures limiter.backend.usage == old(limiter.backend.usage)
      ensures ok <==> name in Room(model, now)
    {
      ok := limiter.CanAllow(name, now);
      if ok {
        ok := limiter.AllowTokens(name, now);
      }
      if ok && model != "" {
        ok := limiter.CanAllowModel(name, model, now);
        if ok {
          ok := limiter.AllowModelTokens(name, model, now);
        }
      }
    }

    /** Drops banned candidates, then those over a limit, remembering whether any was over. */
    method LiveCandidates(model: string, candidates: seq<Credential>, now: int)
      returns (live: seq<Credential>, rateLimitHit: bool)
      requires Valid() && limiter.backend.clock <= now
      modifies bans, limiter.backend.Repr, this`Repr
      ensures Valid() && limiter.backend.clock <= now && fresh(Repr - old(Repr)) && old(Repr) <= Repr
      ensures fresh(limiter.backend.Repr - old(limiter.backend.Repr))
      ensures See(model, now) == old(See(model, now))
      ensures live == old(See(model, now)).Live(candidates)
      ensures rateLimitHit == old(See(model, now)).AnyOverLimit(candidates)
    {
      ghost var s := See(model, now);
      live, rateLimitHit := [], false;
      for i := 0 to |candidates|
        invariant Valid() && limiter.backend.clock <= now && fresh(Repr - old(Repr)) && old(Repr) <= Repr
        invariant fresh(limiter.backend.Repr - old(limiter.backend.Repr))
        invariant See(model, now) == s
        invariant live == s.Live(candidates[..i])
        invariant rateLimitHit == s.AnyOverLimit(candidates[..i])
      {
        assert candidates[..i + 1] == candidates[..i] + [candidates[i]];
        assert candidates[..i + 1][..i] == candidates[..i];
        var unbanned, ok := Availability(model, candidates[i], now);
        if unbanned {
          if ok {
            live := live + [candidates[i]];
          } else {
            rateLimitHit := true;
          }
        }
      }
      assert candidates[..|candidates|] == candidates;
    }

    /** The two checks a candidate must pass; the limits are consulted only when it is not banned. */
    method Availability(model: string, c: Credential, now: int) returns (unbanned: bool, ok: bool)
      requires Valid() && limiter.backend.clock <= now
      modifies bans, limiter.backend.Repr, this`Repr
      ensures Valid() && limiter.backend.clock <= now && fresh(Repr - old(Repr)) && old(Repr) <= Repr
      ensures fresh(limiter.backend.Repr - old(limiter.backend.Repr))
      ensures See(model, now) == old(See(model, now))
      ensures unbanned == !See(model, now).Banned(c)
      ensures unbanned ==> ok == See(model, now).HasRoom(c)
    {
      ExpiryIsSilent(bans.State(), F.BanKey(c.name, model), now);
      var banned := bans.IsBanned(c.name, model, now);
      if banned {
        return false, false;
      }
      ok := CanPassRateLimits(c.name, model, now);
      unbanned := true;
    }

    /** The scheduler of a cycle, created on first use. */
    method SwrrStateFor(key: SchedKey) returns (state: SwrrState)
      requires Valid()
      modifies this`swrr, this`cycles, this`Repr
      ensures Valid() && fresh(Repr - old(Repr)) && old(Repr) <= Repr
      ensures key in swrr && state == swrr[key]
      ensures if key in old(swrr) then state == old(swrr[key]) else fresh(state)
      ensures cycles == old(cycles)[key := old(Nodes(key))]
    {
      if key in swrr {
        return swrr[key];
      }
      state := new SwrrState(key);
      swrr, cycles, Repr := swrr[key := state], cycles[key := map[]], Repr + {state};
    }

    /** Credits the cycle, then commits the first credential in counter order that still has room. */
    method SelectWeighted(req: Request, live: seq<Credential>, key: SchedKey, rateLimitHit: bool, now: int)
      returns (r: Selection)
      requires Valid() && limiter.backend.clock <= now
      modifies limiter.backend.Repr, this`swrr, this`cycles, this`Repr, set k | k in swrr && k == key :: swrr[k]
      ensures Valid() && limiter.backend.clock <= now && fresh(Repr - old(Repr))
      ensures live == [] ==>
        && r == Failed(if rateLimitHit then RateLimitExceeded else NoCredentialsAvailable)
        && cycles == old(cycles) && limiter.backend.usage == old(limiter.backend.usage)
      ensures live != [] ==>
        && r == FirstWithRoom(old(See(req.model, now)), Order(old(Nodes(key)), live, req))
        && limiter.backend.usage == UsageAfter(old(See(req.model, now)), r)
        && cycles == old(cycles)[key := NodesAfter(old(Nodes(key)), live, req, r)]
    {
      if live == [] {
        return Failed(if rateLimitHit then RateLimitExceeded else NoCredentialsAvailable);
      }
      r := SelectLive(req, live, key, now);
    }

    method SelectLive(req: Request, live: seq<Credential>, key: SchedKey, now: int) returns (r: Selection)
      requires Valid() && limiter.backend.clock <= now
      modifies limiter.backend.Repr, this`swrr, this`cycles, this`Repr, set k | k in swrr && k == key :: swrr[k]
      ensures Valid() && limiter.backend.clock <= now && fresh(Repr - old(Repr))
      ensures r == FirstWithRoom(old(See(req.model, now)), Order(old(Nodes(key)), live, req))
      ensures limiter.backend.usage == UsageAfter(old(See(req.model, now)), r)
      ensures cycles == old(cycles)[key := NodesAfter(old(Nodes(key)), live, req, r)]
    {
      ghost var s, before := See(req.model, now), cycles;
      var total := AdvanceCycle(req, live, key);
      assert See(req.model, now) == s;
      ghost var advanced := cycles[key];
      r := CommitInOrder(req.model, StableDescending(live, swrr[key].nodes), key, total, now);
      UpdateTwice(before, key, advanced, cycles[key]);
    }

    /** Credits every live credential of the cycle its weight. */
    method AdvanceCycle(req: Request, live: seq<Credential>, key: SchedKey) returns (total: int)
      requires Valid()
      modifies this`swrr, this`cycles, this`Repr, set k | k in swrr && k == key :: swrr[k]
      ensures Valid() && fresh(Repr - old(Repr)) && key in swrr
      ensures if key in old(swrr) then swrr[key] == old(swrr[key]) else fresh(swrr[key])
      ensures total == SumValues(LiveWeights(live, req))
      ensures cycles == old(cycles)[key := Advanced(old(Nodes(key)), LiveWeights(live, req))]
    {
      ghost var before := cycles;
      var state := SwrrStateFor(key);
      var liveWeights := BuildWeights(req, live);
      total := CreditCycle(key, liveWeights);
      UpdateTwice(before, key, old(Nodes(key)), cycles[key]);
    }

    method CreditCycle(key: SchedKey, weights: map<string, int>) returns (total: int)
      requires Valid() && key in swrr
      modifies swrr[key], this`cycles
      ensures Valid()
      ensures total == SumValues(weights)
      ensures cycles == old(cycles)[key := Advanced(old(cycles[key]), weights)]
    {
      total := swrr[key].Advance(weights);
      cycles := cycles[key := swrr[key].nodes];
    }

    method BuildWeights(req: Request, live: seq<Credential>) returns (liveWeights: map<string, int>)
      ensures liveWeights == LiveWeights(live, req)
    {
      liveWeights := map[];
      for i := 0 to |live|
        invariant liveWeights == LiveWeights(live[..i], req)
      {
        assert live[..i + 1][..i] == live[..i];
        liveWeights := liveWeights[live[i].name := WeightOf(live[i], req)];
      }
      assert live[..|live|] == live;
    }

    method TryAdmit(name: string, model: string, now: int) returns (ok: bool)
      requires Valid() && limiter.backend.clock <= now
      modifies limiter.backend.Repr, this`Repr
      ensures Valid() && limiter.backend.clock <= now && fresh(Repr - old(Repr)) && old(Repr) <= Repr
      ensures fresh(limiter.backend.Repr - old(limiter.backend.Repr))
      ensures ok <==> name in old(Room(model, now))
      ensures limiter.backend.usage ==
        if ok then RecordAll(old(limiter.backend.usage), CredKey(name), ModelCounter(limiter.modelLimits, name, model), now)
        else old(limiter.backend.usage)
    {
      ok := limiter.TryAllowAll(name, model, now);
      Repr := Repr + limiter.backend.Repr;
    }

    method CommitCycle(key: SchedKey, name: string, total: int)
      requires Valid() && key in swrr
      modifies swrr[key], this`cycles
      ensures Valid()
      ensures cycles == old(cycles)[key := Charged(old(cycles[key]), name, total)]
    {
      swrr[key].Commit(name, total);
      cycles := cycles[key := swrr[key].nodes];
    }

    /** Tries credentials in order; the first admitted is charged, and nothing is recorded for the others. */
    method CommitInOrder(model: string, order: seq<Credential>, key: SchedKey, total: int, now: int) returns (r: Selection)
      requires Valid() && limiter.backend.clock <= now && key in swrr
      modifies limiter.backend.Repr, swrr[key], this`cycles, this`Repr
      ensures Valid() && limiter.backend.clock <= now && fresh(Repr - old(Repr))
      ensures bans.State() == old(bans.State())
      ensures r == FirstWithRoom(old(See(model, now)), order)
      ensures limiter.backend.usage == UsageAfter(old(See(model, now)), r)
      ensures cycles == old(cycles)[key := if r.Selected? then Charged(old(cycles[key]), r.cred.name, total) else old(cycles[key])]
    {
      r := FirstAdmitted(model, order, now);
      if r.Selected? {
        CommitCycle(key, r.cred.name, total);
      }
    }

    /** Tries credentials in order until one is admitted; refused attempts record nothing. */
    method FirstAdmitted(model: string, order: seq<Credential>, now: int) returns (r: Selection)
      requires Valid() && limiter.backend.clock <= now
      modifies limiter.backend.Repr, this`Repr
      ensures Valid() && limiter.backend.clock <= now && fresh(Repr - old(Repr)) && old(Repr) <= Repr
      ensures r == FirstWithRoom(old(See(model, now)), order)
      ensures limiter.backend.usage == UsageAfter(old(See(model, now)), r)
    {
      ghost var s := See(model, now);
      for i := 0 to |order|
        invariant Valid() && limiter.backend.clock <= now && fresh(Repr - old(Repr)) && old(Repr) <= Repr
        invariant fresh(limiter.backend.Repr - old(limiter.backend.Repr))
        invariant See(model, now) == s
        invariant FirstWithRoom(s, order[i..]) == FirstWithRoom(s, order)
      {
        var ok := TryAdmit(order[i].name, model, now);
        if ok {
          return Selected(order[i]);
        }
      }
      return Failed(RateLimitExceeded);
    }

    /**
     The core selection: structural filters, then bans and limits, then the committed maximum of the cycle.
     */
    method NextExcluding(req: Request, filter: Filter, now: int) returns (r: Selection)
      requires Valid() && limiter.backend.clock <= now
      modifies bans, limiter.backend.Repr, this`swrr, this`cycles, this`Repr, set k | k in swrr :: swrr[k]
      ensures Valid() && limiter.backend.clock <= now && fresh(Repr - old(Repr))
      ensures var targets := set c |
          && c in credentials && c.name !in filter.exclude && req.visible(c)
          && (req.model != "" && req.modelFilter ==> req.hasModel(c.name))
          && (filter.onlyProxy ==> c.kind == PROXY) && (filter.noProxy ==> c.kind != PROXY)
          && (filter.requiredType != "" ==> c.kind == filter.requiredType)
          && c.isFallback == filter.onlyFallback
          && (filter.tier.AtLeast? ==> c.fallbackPriority > 0 && c.fallbackPriority >= filter.tier.minPriority)
          && (filter.tier.Unprioritized? ==> c.fallbackPriority <= 0);
        AnswersFrom(old(See(req.model, now)), targets, r)
      ensures Decides(old(See(req.model, now)), CandidatesOf(credentials, req, filter), r)
      ensures limiter.backend.usage == UsageAfter(old(See(req.model, now)), r)
      ensures r.Failed? ==> cycles == old(cycles)
      ensures r.Selected? ==>
        var candidates := CandidatesOf(credentials, req, filter);
        CommitsMaximum(old(cycles), cycles, CycleKeyOf(req, filter, candidates, 0, filter.exclude != {}),
                       old(See(req.model, now)).Live(candidates), req, r.cred)
    {
      ghost var s := See(req.model, now);
      var candidates := EligibleCandidates(req, filter);
      if candidates == [] {
        r := Failed(NoCredentialsAvailable);
      } else {
        var key := CycleKeyOf(req, filter, candidates, 0, filter.exclude != {});
        r := SelectFrom(req, candidates, key, now);
      }
      SelectionWrittenOut(s, credentials, req, filter, r);
    }

    /** Phase 1: the time-stable filters, one after the other. */
    method EligibleCandidates(req: Request, filter: Filter) returns (candidates: seq<Credential>)
      ensures candidates == CandidatesOf(credentials, req, filter)
    {
      candidates := [];
      for i := 0 to |credentials|
        invariant candidates == CandidatesOf(credentials[..i], req, filter)
      {
        assert credentials[..i + 1][..i] == credentials[..i];
        if Eligible(credentials[i], req, filter) {
          candidates := candidates + [credentials[i]];
        }
      }
      assert credentials[..|credentials|] == credentials;
    }

    /** Selection among given candidates within one cycle. */
    method SelectFrom(req: Request, candidates: seq<Credential>, key: SchedKey, now: int) returns (r: Selection)
      requires Valid() && limiter.backend.clock <= now
      modifies bans, limiter.backend.Repr, this`swrr, this`cycles, this`Repr, set k | k in swrr && k == key :: swrr[k]
      ensures Valid() && limiter.backend.clock <= now && fresh(Repr - old(Repr))
      ensures Decides(old(See(req.model, now)), candidates, r)
      ensures limiter.backend.usage == UsageAfter(old(See(req.model, now)), r)
      ensures r.Failed? ==> cycles == old(cycles)
      ensures r.Selected? ==>
        CommitsMaximum(old(cycles), cycles, key, old(See(req.model, now)).Live(candidates), req, r.cred)
    {
      ghost var s := See(req.model, now);
      var live, hit := LiveCandidates(req.model, candidates, now);
      ghost var nodes := Nodes(key);
      r := SelectWeighted(req, live, key, hit, now);
      LiveDecides(s, nodes, candidates, req, r);
    }

    /** One pass over the credentials, splitting the retry candidates by tier. */
    method SplitPriorityRetryCandidates(req: Request, minPriority: int, exclude: set<string>)
      returns (prioritized: seq<Credential>, unprioritized: seq<Credential>)
      ensures prioritized == CandidatesOf(credentials, req, RetryFilter(AtLeast(minPriority), exclude))
      ensures unprioritized == CandidatesOf(credentials, req, RetryFilter(Unprioritized, exclude))
      ensures forall c :: c in prioritized || c in unprioritized <==>
        && c in credentials && c.name !in exclude && c.kind != PROXY && !c.isFallback && req.visible(c)
        && (req.model != "" && req.modelFilter ==> req.hasModel(c.name))
        && (c.fallbackPriority <= 0 || c.fallbackPriority >= minPriority)
    {
      prioritized, unprioritized := [], [];
      for i := 0 to |credentials|
        invariant prioritized == CandidatesOf(credentials[..i], req, RetryFilter(AtLeast(minPriority), exclude))
        invariant unprioritized == CandidatesOf(credentials[..i], req, RetryFilter(Unprioritized, exclude))
      {
        assert credentials[..i + 1][..i] == credentials[..i];
        var c := credentials[i];
        if c.name in exclude || c.kind == PROXY || c.isFallback || !req.visible(c) || !HasModel(c, req) {
          continue;
        }
        if c.fallbackPriority <= 0 {
          unprioritized := unprioritized + [c];
        } else if c.fallbackPriority >= minPriority {
          prioritized := prioritized + [c];
        }
      }
      assert credentials[..|credentials|] == credentials;
      SplitMembers(credentials, req, minPriority, exclude);
    }

    /** The index by name, which the constructor fills in order. */
    method GetCredentialByName(name: string) returns (found: Option<Credential>)
      ensures found == LastNamed(credentials, name)
    {
      var n := |credentials|;
      assert credentials[..n] == credentials;
      while n > 0
        invariant 0 <= n <= |credentials|
        invariant LastNamed(credentials, name) == LastNamed(credentials[..n], name)
      {
        n := n - 1;
        assert credentials[..n + 1][..n] == credentials[..n];
        if credentials[n].name == name {
          return Some(credentials[n]);
        }
      }
      return None;
    }

    method HasTriedPriorityCredential(exclude: set<string>) returns (tried: bool)
      ensures tried == TriedPriority(credentials, exclude)
    {
      var pending := exclude;
      while pending != {}
        invariant pending <= exclude
        invariant forall name :: name in exclude && name !in pending ==> !PrioritisedName(credentials, name)
        decreases pending
      {
        var name :| name in pending;
        pending := pending - {name};
        var cred := GetCredentialByName(name);
        if cred.Some? && PrioritisedDirect(cred.value) {
          return true;
        }
      }
      return false;
    }

    method LowestPriority(live: seq<Credential>) returns (priority: int)
      requires live != []
      ensures IsLowest(live, priority)
    {
      priority := live[0].fallbackPriority;
      for i := 1 to |live|
        invariant exists c :: c in live && c.fallbackPriority == priority
        invariant forall c :: c in live[..i] ==> priority <= c.fallbackPriority
      {
        if live[i].fallbackPriority < priority {
          assert live[i] in live;
          priority := live[i].fallbackPriority;
        }
      }
    }

    /** The lowest live priority tier, or nothing when no prioritised candidate is available. */
    method SelectPriorityRetry(req: Request, candidates: seq<Credential>, now: int)
      returns (found: bool, r: Selection, rateLimitHit: bool)
      requires Valid() && limiter.backend.clock <= now
      modifies bans, limiter.backend.Repr, this`swrr, this`cycles, this`Repr, set k | k in swrr :: swrr[k]
      ensures Valid() && limiter.backend.clock <= now && fresh(Repr - old(Repr))
      ensures !found ==>
        && See(req.model, now) == old(See(req.model, now)) && cycles == old(cycles) && swrr == old(swrr)
        && fresh(limiter.backend.Repr - old(limiter.backend.Repr))
        && NoneLive(old(See(req.model, now)), candidates)
        && rateLimitHit == old(See(req.model, now)).AnyOverLimit(candidates)
      ensures found ==>
        && limiter.backend.usage == UsageAfter(old(See(req.model, now)), r)
        && TierDecides(old(cycles), cycles, old(See(req.model, now)), candidates, req, r)
    {
      ghost var s := See(req.model, now);
      var live;
      live, rateLimitHit := LiveCandidates(req.model, candidates, now);
      if live == [] {
        NoneLiveWhenEmpty(s, candidates);
        return false, Failed(NoCredentialsAvailable), rateLimitHit;
      }
      found := true;
      ghost var repr, first := Repr, Repr - old(Repr);
      assert fresh(first);
      label Selecting:
      r := SelectLowest(req, live, candidates, rateLimitHit, now, s);
      ghost var second := Repr - repr;
      assert fresh@Selecting(second);
      FreshUnion(Repr, repr, old(Repr));
      assert fresh(second + first);
    }

    method SelectLowest(req: Request, live: seq<Credential>, ghost candidates: seq<Credential>, rateLimitHit: bool, now: int,
                        ghost s: Snapshot)
      returns (r: Selection)
      requires Valid() && limiter.backend.clock <= now
      requires s == See(req.model, now) && live != [] && live == s.Live(candidates)
      modifies limiter.backend.Repr, this`swrr, this`cycles, this`Repr, set k | k in swrr :: swrr[k]
      ensures Valid() && limiter.backend.clock <= now && fresh(Repr - old(Repr))
      ensures TierDecides(old(cycles), cycles, s, candidates, req, r)
      ensures limiter.backend.usage == UsageAfter(s, r)
    {
      var priority := LowestPriority(live);
      var bucket := Bucket(live, priority);
      ghost var before := cycles;
      r := SelectWeighted(req, bucket, TierKey(req, bucket, priority), rateLimitHit, now);
      assert fresh(Repr - old(Repr));
      BucketSelectionIsLowest(before, cycles, s, candidates, priority, req, r);
    }

    /** The unprioritised tail of a retry; an earlier rate-limit hit is carried into the error. */
    method SelectUnprioritizedRetry(req: Request, candidates: seq<Credential>, priorHit: bool, now: int) returns (r: Selection)
      requires Valid() && limiter.backend.clock <= now
      modifies bans, limiter.backend.Repr, this`swrr, this`cycles, this`Repr, set k | k in swrr :: swrr[k]
      ensures Valid() && limiter.backend.clock <= now && fresh(Repr - old(Repr))
      ensures limiter.backend.usage == UsageAfter(old(See(req.model, now)), r)
      ensures TailDecides(old(cycles), cycles, old(See(req.model, now)), candidates, req, priorHit, r)
    {
      r := SelectFrom(req, candidates, TailKey(req, candidates), now);
      if r.Failed? && priorHit {
        r := Failed(RateLimitExceeded);
      }
    }

    /** After an unprioritised credential: the unprioritised tail once a tier was tried, else any of the same type. */
    method RetryUnprioritized(req: Request, kind: string, exclude: set<string>, now: int) returns (r: Selection)
      requires Valid() && limiter.backend.clock <= now
      modifies bans, limiter.backend.Repr, this`swrr, this`cycles, this`Repr, set k | k in swrr :: swrr[k]
      ensures Valid() && limiter.backend.clock <= now && fresh(Repr - old(Repr))
      ensures limiter.backend.usage == UsageAfter(old(See(req.model, now)), r)
      ensures Retries(old(cycles), cycles, old(See(req.model, now)), credentials, req,
                      [UnprioritizedRetryFilter(credentials, kind, exclude)], r)
    {
      ghost var s, before := See(req.model, now), cycles;
      var tried := HasTriedPriorityCredential(exclude);
      if tried {
        var _, candidates := SplitPriorityRetryCandidates(req, 1, exclude);
        r := SelectUnprioritizedRetry(req, candidates, false, now);
        SingleFilterRetries(before, cycles, s, credentials, req, RetryFilter(Unprioritized, exclude), r);
      } else {
        r := RetrySameType(req, kind, exclude, now);
      }
    }

    /** Any untried credential of the same type. */
    method RetrySameType(req: Request, kind: string, exclude: set<string>, now: int) returns (r: Selection)
      requires Valid() && limiter.backend.clock <= now
      modifies bans, limiter.backend.Repr, this`swrr, this`cycles, this`Repr, set k | k in swrr :: swrr[k]
      ensures Valid() && limiter.backend.clock <= now && fresh(Repr - old(Repr))
      ensures limiter.backend.usage == UsageAfter(old(See(req.model, now)), r)
      ensures Retries(old(cycles), cycles, old(See(req.model, now)), credentials, req, [SameTypeFilter(kind, exclude)], r)
    {
      ghost var s, before := See(req.model, now), cycles;
      r := NextExcluding(req, SameTypeFilter(kind, exclude), now);
      SingleFilterRetries(before, cycles, s, credentials, req, SameTypeFilter(kind, exclude), r);
    }

    /** The credential to retry with after the current one failed. */
    method NextRetry(req: Request, current: Credential, exclude: set<string>, now: int) returns (r: Selection)
      requires Valid() && limiter.backend.clock <= now
      modifies bans, limiter.backend.Repr, this`swrr, this`cycles, this`Repr, set k | k in swrr :: swrr[k]
      ensures Valid() && limiter.backend.clock <= now && fresh(Repr - old(Repr))
      ensures limiter.backend.usage == UsageAfter(old(See(req.model, now)), r)
      ensures Retries(old(cycles), cycles, old(See(req.model, now)), credentials, req,
                      RetryFilters(credentials, current, exclude), r)
      ensures var targets := set c |
          && c in credentials && c.name !in exclude && !c.isFallback && req.visible(c)
          && (req.model != "" && req.modelFilter ==> req.hasModel(c.name))
          && if current.kind == PROXY then c.kind == PROXY
             else if current.isFallback || (current.fallbackPriority <= 0 && !TriedPriority(credentials, exclude))
             then current.kind != "" ==> c.kind == current.kind
             else c.kind != PROXY && (c.fallbackPriority <= 0 || 0 < current.fallbackPriority <= c.fallbackPriority);
        && AnswersFrom(old(See(req.model, now)), targets, r)
        && (r.Selected? && RetryInTiers(credentials, current, exclude) ==>
              forall d :: d in targets && Available(old(See(req.model, now)), d) ==> RankAtMost(r.cred, d))
    {
      ghost var s := See(req.model, now);
      if current.kind == PROXY || current.isFallback {
        r := RetrySameType(req, current.kind, exclude, now);
      } else if current.fallbackPriority <= 0 {
        r := RetryUnprioritized(req, current.kind, exclude, now);
      } else {
        r := NextPriorityRetry(req, current.fallbackPriority, exclude, now);
      }
      RetryWrittenOut(s, credentials, req, current, exclude, r);
    }

    method NextPriorityRetry(req: Request, minPriority: int, exclude: set<string>, now: int) returns (r: Selection)
      requires Valid() && limiter.backend.clock <= now
      modifies bans, limiter.backend.Repr, this`swrr, this`cycles, this`Repr, set k | k in swrr :: swrr[k]
      ensures Valid() && limiter.backend.clock <= now && fresh(Repr - old(Repr))
      ensures limiter.backend.usage == UsageAfter(old(See(req.model, now)), r)
      ensures Retries(old(cycles), cycles, old(See(req.model, now)), credentials, req, TierThenTail(minPriority, exclude), r)
    {
      ghost var s, before := See(req.model, now), cycles;
      var prioritized, unprioritized := SplitPriorityRetryCandidates(req, minPriority, exclude);
      var found, hit;
      found, r, hit := SelectPriorityRetry(req, prioritized, now);
      assert fresh(Repr - old(Repr));
      if found {
        TierRetries(before, cycles, s, credentials, req, minPriority, exclude, r);
        return;
      }
      ghost var repr, first := Repr, Repr - old(Repr);
      r := RetryTail(req, minPriority, exclude, unprioritized, hit, now, s);
      ghost var second := Repr - repr;
      assert fresh(second);
      FreshUnion(Repr, repr, old(Repr));
      assert fresh(second + first);
    }

    /** The tail, after no prioritised candidate was available. */
    method RetryTail(req: Request, ghost minPriority: int, ghost exclude: set<string>, tail: seq<Credential>, hit: bool, now: int,
                     ghost s: Snapshot)
      returns (r: Selection)
      requires Valid() && limiter.backend.clock <= now && s == See(req.model, now)
      requires tail == CandidatesOf(credentials, req, RetryFilter(Unprioritized, exclude))
      requires var first := CandidatesOf(credentials, req, RetryFilter(AtLeast(minPriority), exclude));
        NoneLive(s, first) && hit == s.AnyOverLimit(first)
      modifies bans, limiter.backend.Repr, this`swrr, this`cycles, this`Repr, set k | k in swrr :: swrr[k]
      ensures Valid() && limiter.backend.clock <= now && fresh(Repr - old(Repr))
      ensures limiter.backend.usage == UsageAfter(s, r)
      ensures Retries(old(cycles), cycles, s, credentials, req, TierThenTail(minPriority, exclude), r)
    {
      ghost var before := cycles;
      r := SelectUnprioritizedRetry(req, tail, hit, now);
      TailRetries(before, cycles, s, credentials, req, minPriority, exclude, r);
    }
  }

  lemma FreshUnion(a: set<object>, b: set<object>, c: set<object>)
    ensures a - c <= (a - b) + (b - c)
  {
  }

  lemma UpdateTwice<K, V>(m: map<K, V>, k: K, a: V, b: V)
    ensures m[k := a][k := b] == m[k := b]
  {
  }
}
