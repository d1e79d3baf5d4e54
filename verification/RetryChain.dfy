/**
 The retry and fallback loops of one request (internal/proxy/proxy.go, internal/proxy/retry.go).
 Between two balancer calls other requests may change bans, limits and cycles, so each answer is any
 answer the balancer could give in some state; HTTP outcomes are arbitrary.
 */
module RetryChain {
  import opened Collections
  import opened Candidates
  import opened Window

  const DEFAULT_MAX_FALLBACK_ATTEMPTS := 5

  /** How one forwarded attempt ended. */
  datatype Outcome = TransportError | Streaming | Response(retryable: bool) | Fatal

  /** The world around one request: balancer answers by call number, preparation results, attempt outcomes. */
  datatype World = World(
    retry: (nat, Credential, set<string>) -> Selection,
    sameType: (nat, set<string>) -> Selection,
    fallback: nat -> Selection,
    prepares: nat -> bool,
    outcome: nat -> Outcome)

  /** The attempt failed, or its response is worth a retry where responses are retried at all. */
  predicate WorthRetry(o: Outcome, retriable: bool) {
    o == TransportError || (o == Response(true) && retriable)
  }

  ghost predicate FaithfulRetry(w: World, credentials: seq<Credential>, req: Request) {
    forall n: nat, current, tried :: w.retry(n, current, tried).Selected? ==>
      exists s :: DecidesInOrder(s, credentials, req, RetryFilters(credentials, current, tried), w.retry(n, current, tried))
  }

  ghost predicate FaithfulSameType(w: World, credentials: seq<Credential>, req: Request) {
    forall n: nat, tried :: w.sameType(n, tried).Selected? ==>
      exists s :: Decides(s, CandidatesOf(credentials, req, SameTypeFilter(PROXY, tried)), w.sameType(n, tried))
  }

  ghost predicate FaithfulFallback(w: World, credentials: seq<Credential>, req: Request) {
    forall n: nat :: w.fallback(n).Selected? ==>
      exists s :: Decides(s, CandidatesOf(credentials, req, Filter(true, true, false, "", AnyTier, {})), w.fallback(n))
  }

  ghost predicate Faithful(w: World, credentials: seq<Credential>, req: Request) {
    FaithfulRetry(w, credentials, req) && FaithfulSameType(w, credentials, req) && FaithfulFallback(w, credentials, req)
  }

  /** No two forwarded attempts use the same credential. */
  ghost predicate NoRepeat(used: seq<Credential>) {
    forall i, j :: 0 <= i < j < |used| ==> used[i].name != used[j].name
  }

  ghost predicate AllTried(used: seq<Credential>, tried: set<string>) {
    forall i :: 0 <= i < |used| ==> used[i].name in tried
  }

  ghost predicate PriorityUsedBy(used: seq<Credential>, i: int) {
    exists k :: 0 <= k <= i < |used| && PrioritisedDirect(used[k])
  }

  /** From the first prioritised direct credential on, the tier never goes back. */
  ghost predicate TiersAscend(used: seq<Credential>) {
    forall i :: 0 <= i < |used| - 1 && PriorityUsedBy(used, i) ==> RankAtMost(used[i], used[i + 1])
  }

  ghost function NamesOf(credentials: seq<Credential>): set<string> {
    set c | c in credentials :: c.name
  }

  /** What the balancer can answer a retry with. */
  lemma RetryAnswer(credentials: seq<Credential>, req: Request, current: Credential, tried: set<string>, s: Snapshot, c: Credential)
    requires DecidesInOrder(s, credentials, req, RetryFilters(credentials, current, tried), Selected(c))
    ensures c in credentials && c.name !in tried && !c.isFallback
    ensures current.kind != "" && current.kind != PROXY ==> c.kind != PROXY
    ensures !current.isFallback && current.kind != PROXY && (current.fallbackPriority > 0 || TriedPriority(credentials, tried))
      ==> RankAtMost(current, c)
  {
    var filters := RetryFilters(credentials, current, tried);
    var i :| 0 <= i < |filters| && PicksFrom(s, credentials, req, filters[i], c);
    CandidateMembers(credentials, req, filters[i], c);
  }

  /** What the world answers is what some state of the balancer answers. */
  lemma WorldRetry(w: World, credentials: seq<Credential>, req: Request, n: nat, current: Credential, tried: set<string>)
    requires FaithfulRetry(w, credentials, req) && w.retry(n, current, tried).Selected?
    ensures var c := w.retry(n, current, tried).cred;
      Continues(credentials, current, tried, c) && c.name !in tried && c.name in NamesOf(credentials)
  {
    var c := w.retry(n, current, tried).cred;
    var s :| DecidesInOrder(s, credentials, req, RetryFilters(credentials, current, tried), w.retry(n, current, tried));
    RetryAnswer(credentials, req, current, tried, s, c);
  }

  lemma StillContinues(credentials: seq<Credential>, current: Credential, before: set<string>, tried: set<string>, c: Credential)
    requires before <= tried && Continues(credentials, current, tried, c)
    ensures Continues(credentials, current, before, c)
  {
  }

  lemma WorldSameType(w: World, credentials: seq<Credential>, req: Request, n: nat, tried: set<string>)
    requires FaithfulSameType(w, credentials, req) && w.sameType(n, tried).Selected?
    ensures var c := w.sameType(n, tried).cred;
      c in credentials && c.kind == PROXY && c.name !in tried
  {
    var s :| Decides(s, CandidatesOf(credentials, req, SameTypeFilter(PROXY, tried)), w.sameType(n, tried));
    SameTypeAnswer(credentials, req, SameTypeFilter(PROXY, tried), s, w.sameType(n, tried).cred);
  }

  lemma WorldFallback(w: World, credentials: seq<Credential>, req: Request, n: nat)
    requires FaithfulFallback(w, credentials, req) && w.fallback(n).Selected?
    ensures var c := w.fallback(n).cred;
      c in credentials && c.kind == PROXY && c.isFallback
  {
    var filter := Filter(true, true, false, "", AnyTier, {});
    var s :| Decides(s, CandidatesOf(credentials, req, filter), w.fallback(n));
    SameTypeAnswer(credentials, req, filter, s, w.fallback(n).cred);
  }

  lemma SameTypeAnswer(credentials: seq<Credential>, req: Request, filter: Filter, s: Snapshot, c: Credential)
    requires Decides(s, CandidatesOf(credentials, req, filter), Selected(c))
    ensures c in credentials && c.name !in filter.exclude && c.isFallback == filter.onlyFallback
    ensures filter.onlyProxy ==> c.kind == PROXY
  {
    CandidateMembers(credentials, req, filter, c);
  }

  /** The state of one request's chain. */
  class Chain {
    var tried: set<string>
    /** Every credential the request was forwarded to, in order. */
    var used: seq<Credential>
    var shouldRetry: bool
    var finished: bool

    ghost predicate Valid()
      reads this
    {
      NoRepeat(used) && AllTried(used, tried)
    }

    /** The initial selection is marked as tried before anything is forwarded. */
    constructor (first: Credential)
      ensures Valid() && tried == {first.name} && used == [] && !shouldRetry && !finished
    {
      tried, used, shouldRetry, finished := {first.name}, [], false, false;
    }

    /** Forwards the request to a credential and marks it as tried. */
    method Forward(c: Credential)
      requires Valid() && (forall i :: 0 <= i < |used| ==> used[i].name != c.name)
      modifies this`tried, this`used
      ensures Valid() && used == old(used) + [c] && tried == old(tried) + {c.name}
    {
      tried := tried + {c.name};
      used := used + [c];
    }

    /** Asks for retry credentials until one prepares; those that fail to prepare count as tried. */
    method NextPrepared(w: World, ghost credentials: seq<Credential>, ghost req: Request, cred: Credential, calls: nat)
      returns (ready: bool, next: Credential, calls': nat)
      requires Valid() && FaithfulRetry(w, credentials, req)
      modifies this`tried
      ensures Valid() && old(tried) <= tried
      ensures ready ==> Continues(credentials, cred, old(tried), next) && next.name !in tried
      ensures if ready then Follows(w, cred, next) else NobodyFollows(w, cred, tried)
      ensures calls < calls' && NonePrepared(w, calls, calls' - 1)
    {
      calls', next, ready := calls, cred, false;
      while !ready
        invariant Valid() && old(tried) <= tried && calls <= calls'
        invariant !ready ==> NonePrepared(w, calls, calls')
        invariant ready ==> calls < calls' && NonePrepared(w, calls, calls' - 1)
        invariant ready ==> Continues(credentials, cred, old(tried), next) && next.name !in tried && Follows(w, cred, next)
        decreases !ready, NamesOf(credentials) - tried
      {
        var answer := w.retry(calls', cred, tried);
        if answer.Failed? {
          assert NobodyFollows(w, cred, tried);
          return false, cred, calls' + 1;
        }
        next := answer.cred;
        WorldRetry(w, credentials, req, calls', cred, tried);
        StillContinues(credentials, cred, old(tried), tried, next);
        ready := w.prepares(calls');
        calls' := calls' + 1;
        if ready {
          assert Follows(w, cred, next);
        } else {
          tried := tried + {next.name};
        }
      }
    }

    /** One attempt of a retry loop: forwards the request and tells whether there is something to retry. */
    method Attempt(w: World, c: Credential, retriable: bool)
      requires Valid() && !finished && (forall i :: 0 <= i < |used| ==> used[i].name != c.name)
      modifies this
      ensures Valid() && used == old(used) + [c] && tried == old(tried) + {c.name}
      ensures shouldRetry == WorthRetry(w.outcome(|old(used)|), retriable)
      ensures finished == (w.outcome(|old(used)|) in {Streaming, Fatal})
    {
      var outcome := w.outcome(|used|);
      Forward(c);
      shouldRetry := false;
      match outcome {
        case TransportError => shouldRetry := true;
        case Fatal => finished := true;
        case Streaming => finished := true;
        case Response(retryable) => shouldRetry := retryable && retriable;
      }
    }

    /** Retries across credentials of the direct path. */
    method ProviderRetries(w: World, ghost credentials: seq<Credential>, ghost req: Request,
                           first: Credential, maxProviderRetries: int) returns (last: Credential)
      requires Valid() && used == [] && tried == {first.name} && !finished && !shouldRetry
      requires Faithful(w, credentials, req) && AllTyped(credentials)
      requires first in credentials && first.kind != PROXY
      modifies this
      ensures Valid() && last.name in tried && ProviderChain(w, credentials, first, used)
      ensures |used| <= if maxProviderRetries < 0 then 0 else maxProviderRetries + 1
      ensures maxProviderRetries >= 0 ==> used != [] && last == used[|used| - 1]
      ensures AllWorthRetry(w, used, |used| - 1, false)
      ensures shouldRetry <==> used != [] && WorthRetry(w.outcome(|used| - 1), true)
      ensures finished <==> used != [] && w.outcome(|used| - 1) in {Streaming, Fatal}
      ensures shouldRetry && |used| <= maxProviderRetries ==> NobodyFollows(w, last, tried)
    {
      last := first;
      var calls := 0;
      var attempt := 0;
      while attempt <= maxProviderRetries
        invariant Valid() && last.name in tried
        invariant 0 <= attempt == |used| && (attempt > 0 ==> attempt <= maxProviderRetries + 1)
        invariant ProviderChain(w, credentials, first, used) && last == if used == [] then first else used[|used| - 1]
        invariant AllWorthRetry(w, used, |used|, false)
        invariant !finished && (shouldRetry <==> used != [])
        decreases maxProviderRetries - attempt
      {
        if attempt > 0 {
          var ready, next;
          ready, next, calls := NextChained(w, credentials, req, first, calls);
          if !ready {
            break;
          }
          last := next;
        }
        ghost var before := used;
        assert ProviderChain(w, credentials, first, before + [last]);
        Attempt(w, last, true);
        StillWorthRetry(w, before, last, false);
        if !shouldRetry {
          break;
        }
        attempt := attempt + 1;
      }
    }

    /** The next credential of a direct chain. */
    method NextChained(w: World, ghost credentials: seq<Credential>, ghost req: Request, ghost first: Credential, calls: nat)
      returns (ready: bool, next: Credential, calls': nat)
      requires Valid() && FaithfulRetry(w, credentials, req) && AllTyped(credentials)
      requires used != [] && ProviderChain(w, credentials, first, used)
      modifies this`tried
      ensures Valid() && old(tried) <= tried
      ensures ready ==> next.name !in tried && ProviderChain(w, credentials, first, used + [next])
      ensures !ready ==> NobodyFollows(w, used[|used| - 1], tried)
    {
      ghost var before := tried;
      ready, next, calls' := NextPrepared(w, credentials, req, used[|used| - 1], calls);
      if ready {
        ChainExtends(used, before, credentials, first, next);
        StillLinked(w, used, next);
      }
    }

    /** Retries across proxy credentials; fallback proxies and streams are never retried here. */
    method ProxyRetries(w: World, ghost credentials: seq<Credential>, ghost req: Request,
                        first: Credential, maxProviderRetries: int) returns (last: Credential)
      requires Valid() && used == [] && tried == {first.name} && !finished && !shouldRetry
      requires FaithfulSameType(w, credentials, req) && first.kind == PROXY
      modifies this
      ensures Valid() && last.name in tried
      ensures |used| <= if maxProviderRetries < 0 then 0 else maxProviderRetries + 1
      ensures ProxyChain(w, used, first)
      ensures maxProviderRetries >= 0 ==> used != [] && last == used[|used| - 1]
      ensures AllWorthRetry(w, used, |used| - 1, true)
      ensures shouldRetry <==> used != [] && WorthRetry(w.outcome(|used| - 1), !last.isFallback)
      ensures finished <==> used != [] && w.outcome(|used| - 1) in {Streaming, Fatal}
      ensures shouldRetry && |used| <= maxProviderRetries ==> w.sameType(|used|, tried).Failed?
    {
      last := first;
      var attempt := 0;
      while attempt <= maxProviderRetries
        invariant Valid() && last.name in tried
        invariant 0 <= attempt == |used| && (attempt > 0 ==> attempt <= maxProviderRetries + 1)
        invariant ProxyChain(w, used, first) && last == if used == [] then first else used[|used| - 1]
        invariant AllWorthRetry(w, used, |used|, true)
        invariant !finished && (shouldRetry <==> used != [])
        decreases maxProviderRetries - attempt
      {
        if attempt > 0 {
          var answer := w.sameType(attempt, tried);
          if answer.Failed? {
            break;
          }
          WorldSameType(w, credentials, req, attempt, tried);
          assert FollowsProxy(w, attempt, answer.cred);
          last := answer.cred;
        }
        ghost var before := used;
        Attempt(w, last, !last.isFallback);
        StillProxies(w, before, first, last);
        StillWorthRetry(w, before, last, true);
        if !shouldRetry {
          break;
        }
        attempt := attempt + 1;
      }
    }

    /** The last resort: fallback proxies, until one answers or a repeated one is offered. */
    method Fallbacks(w: World, ghost credentials: seq<Credential>, ghost req: Request,
                     original: string, maxFallbackAttempts: int)
      requires Valid() && FaithfulFallback(w, credentials, req)
      modifies this
      ensures Valid() && old(used) <= used
      ensures FallbackPhase(w, original, maxFallbackAttempts, |old(used)|, used, tried)
      ensures NewFallbacks(credentials, old(tried), |old(used)|, used)
      ensures finished <==> old(finished) || (|used| > |old(used)| && Answered(w.outcome(|used| - 1)))
    {
      ghost var n, before := |used|, tried;
      var maxAttempts := MaxFallbacks(maxFallbackAttempts);
      var attempt := 0;
      while attempt < maxAttempts
        invariant Valid() && old(used) <= used && before <= tried && n == |old(used)|
        invariant |used| == n + attempt && 0 <= attempt <= maxAttempts && finished == old(finished)
        invariant Offered(w, n, used) && NoneAnswered(w, n, |used|) && NewFallbacks(credentials, before, n, used)
      {
        var answer := w.fallback(attempt);
        if NoFallbackLeft(answer, original, tried) {
          break;
        }
        WorldFallback(w, credentials, req, attempt);
        OneMoreFallback(w, credentials, before, n, used, answer.cred);
        Forward(answer.cred);
        attempt := attempt + 1;
        if Answered(w.outcome(|used| - 1)) {
          finished := true;
          break;
        }
      }
    }

    /** The retries of a request, across proxies or across direct credentials. */
    method Retries(w: World, ghost credentials: seq<Credential>, ghost req: Request, first: Credential, maxProviderRetries: int)
      returns (last: Credential)
      requires Valid() && used == [] && tried == {first.name} && !finished && !shouldRetry
      requires Faithful(w, credentials, req) && AllTyped(credentials) && first in credentials
      modifies this
      ensures Valid() && RetryPhase(w, credentials, first, maxProviderRetries, used, tried)
      ensures maxProviderRetries >= 0 ==> used != [] && last == used[|used| - 1]
      ensures shouldRetry <==> used != [] && GoesOn(w, used, |used| - 1, first)
      ensures finished <==> used != [] && w.outcome(|used| - 1) in {Streaming, Fatal}
    {
      if first.kind == PROXY {
        last := ProxyRetries(w, credentials, req, first, maxProviderRetries);
      } else {
        last := ProviderRetries(w, credentials, req, first, maxProviderRetries);
      }
    }

    /**
     One request from its first credential to its last: retries, then fallbacks. Fallbacks are asked for exactly when the
     last retry left something to retry, and the attempts stop only at an answer, when the balancer offers nobody new,
     or at the two maxima.
     */
    method Serve(w: World, ghost credentials: seq<Credential>, ghost req: Request,
                 first: Credential, maxProviderRetries: int, maxFallbackAttempts: int)
      returns (ghost direct: seq<Credential>, ghost asked: set<string>)
      requires Valid() && used == [] && tried == {first.name} && !finished && !shouldRetry
      requires Faithful(w, credentials, req) && AllTyped(credentials) && first in credentials
      modifies this
      ensures NoRepeat(used) && direct <= used
      ensures |used| <= (if maxProviderRetries < 0 then 0 else maxProviderRetries + 1) + MaxFallbacks(maxFallbackAttempts)
      ensures RetryPhase(w, credentials, first, maxProviderRetries, direct, asked)
      ensures if direct != [] && GoesOn(w, direct, |direct| - 1, first)
        then FallbackPhase(w, direct[|direct| - 1].name, maxFallbackAttempts, |direct|, used, tried)
        else used == direct
      ensures forall i :: 0 <= i < |used| - 1 && i < |direct| ==> w.outcome(i) in {TransportError, Response(true)}
      ensures forall i :: |direct| <= i < |used| - 1 ==> w.outcome(i) !in {Streaming, Response(false)}
      ensures first.kind != PROXY && direct != [] && w.outcome(|direct| - 1) in {TransportError, Response(true)} ==>
        && (|direct| <= maxProviderRetries ==> NobodyFollows(w, direct[|direct| - 1], asked))
        && (|used| == |direct| ==> NoFallbackLeft(w.fallback(0), direct[|direct| - 1].name, tried))
    {
      var last := Retries(w, credentials, req, first, maxProviderRetries);
      direct, asked := used, tried;
      if shouldRetry {
        Fallbacks(w, credentials, req, last.name, maxFallbackAttempts);
      }
      forall i | 0 <= i < |used| - 1 && i < |direct| ensures w.outcome(i) in {TransportError, Response(true)} {
        assert GoesOn(w, direct, i, first);
      }
    }
  }

  /**
   How far the retries go: at least to the first credential, on exactly while there is something to retry, each time to
   the credential the balancer answers, and no further than the maximum; they stop short of it only at an answer or when
   the balancer has nobody left.
   */
  ghost predicate RetryPhase(w: World, credentials: seq<Credential>, first: Credential, maxProviderRetries: int,
                             used: seq<Credential>, asked: set<string>)
  {
    && |used| <= (if maxProviderRetries < 0 then 0 else maxProviderRetries + 1)
    && (maxProviderRetries >= 0 ==> used != [] && used[0] == first)
    && (if first.kind == PROXY then ProxyChain(w, used, first) else ProviderChain(w, credentials, first, used))
    && (forall i :: 0 <= i < |used| - 1 ==> GoesOn(w, used, i, first))
    && (used != [] && GoesOn(w, used, |used| - 1, first) && |used| <= maxProviderRetries ==>
          if first.kind == PROXY then w.sameType(|used|, asked).Failed? else NobodyFollows(w, used[|used| - 1], asked))
  }

  /**
   How far the fallbacks go from the n-th credential on: to what the balancer offers, on exactly while nothing was
   answered, and short of the maximum only at an answer or when it offers nobody new.
   */
  ghost predicate FallbackPhase(w: World, original: string, maxFallbackAttempts: int, n: nat, used: seq<Credential>, tried: set<string>) {
    && n <= |used| <= n + MaxFallbacks(maxFallbackAttempts)
    && Offered(w, n, used) && NoneAnswered(w, n, |used| - 1)
    && (|used| < n + MaxFallbacks(maxFallbackAttempts) ==>
          (|used| > n && Answered(w.outcome(|used| - 1))) || NoFallbackLeft(w.fallback(|used| - n), original, tried))
  }

  /** After this attempt of the retry loop there is something to retry. */
  predicate GoesOn(w: World, used: seq<Credential>, i: nat, first: Credential)
    requires i < |used|
  {
    WorthRetry(w.outcome(i), first.kind != PROXY || !used[i].isFallback)
  }

  /** From the n-th on, each credential is the fallback proxy the balancer offered at its turn. */
  ghost predicate Offered(w: World, n: nat, used: seq<Credential>) {
    forall i :: n <= i < |used| ==> w.fallback(i - n) == Selected(used[i])
  }

  ghost predicate NoneAnswered(w: World, n: nat, stop: int) {
    forall i :: n <= i < stop ==> !Answered(w.outcome(i))
  }

  /** They are configured fallback proxies that were not tried before. */
  ghost predicate NewFallbacks(credentials: seq<Credential>, tried: set<string>, n: nat, used: seq<Credential>) {
    forall i :: n <= i < |used| ==>
      used[i] in credentials && used[i].isFallback && used[i].kind == PROXY && used[i].name !in tried
  }

  lemma OneMoreFallback(w: World, credentials: seq<Credential>, tried: set<string>, n: nat, used: seq<Credential>, c: Credential)
    requires n <= |used| && Offered(w, n, used) && NewFallbacks(credentials, tried, n, used)
    requires w.fallback(|used| - n) == Selected(c)
    requires c in credentials && c.isFallback && c.kind == PROXY && c.name !in tried
    ensures Offered(w, n, used + [c]) && NewFallbacks(credentials, tried, n, used + [c])
  {
  }

  /** A fallback's response is handed to the client. */
  predicate Answered(o: Outcome) {
    o == Streaming || o == Response(false)
  }

  /** The balancer has no fallback proxy, or offers the original credential or one that was tried. */
  predicate NoFallbackLeft(answer: Selection, original: string, tried: set<string>) {
    answer.Failed? || answer.cred.name == original || answer.cred.name in tried
  }

  /** The balancer answered a retry after a with b, which could be prepared. */
  ghost predicate Follows(w: World, a: Credential, b: Credential) {
    exists n: nat, tried :: w.retry(n, a, tried) == Selected(b) && w.prepares(n)
  }

  /** It answered that there is nobody left to retry with. */
  ghost predicate NobodyFollows(w: World, a: Credential, tried: set<string>) {
    exists n: nat :: w.retry(n, a, tried).Failed?
  }

  ghost predicate FollowsProxy(w: World, n: nat, b: Credential) {
    exists tried :: w.sameType(n, tried) == Selected(b)
  }

  /** None of these calls' answers could be prepared. */
  ghost predicate NonePrepared(w: World, start: nat, stop: nat) {
    forall n :: start <= n < stop ==> !w.prepares(n)
  }

  /** The first n attempts each left something to retry; a fallback proxy's response does not. */
  ghost predicate AllWorthRetry(w: World, used: seq<Credential>, n: int, proxies: bool)
    requires n <= |used|
  {
    forall i :: 0 <= i < n ==> WorthRetry(w.outcome(i), !proxies || !used[i].isFallback)
  }

  /** Each credential is what the balancer answered for a retry after the one before it. */
  ghost predicate Linked(w: World, used: seq<Credential>) {
    forall i :: 0 <= i < |used| - 1 ==> Follows(w, used[i], used[i + 1])
  }

  /** A chain of configured direct credentials that begins with the first selection, each of them the balancer's answer
      after the one before; its tiers ascend while namesakes agree on being prioritised. */
  ghost predicate ProviderChain(w: World, credentials: seq<Credential>, first: Credential, used: seq<Credential>) {
    && DirectChain(used, credentials, first) && Linked(w, used)
    && (NamesakesAgree(credentials) ==> TiersAscend(used))
  }

  /** Proxies only, each after the first what the balancer answered at its turn. */
  ghost predicate ProxyChain(w: World, used: seq<Credential>, first: Credential) {
    && (used != [] ==> used[0] == first)
    && (forall i :: 0 <= i < |used| ==> used[i].kind == PROXY)
    && (forall i :: 1 <= i < |used| ==> FollowsProxy(w, i, used[i]))
  }

  lemma StillLinked(w: World, used: seq<Credential>, c: Credential)
    requires Linked(w, used) && (used != [] ==> Follows(w, used[|used| - 1], c))
    ensures Linked(w, used + [c])
  {
    var more := used + [c];
    forall i | 0 <= i < |more| - 1 ensures Follows(w, more[i], more[i + 1]) {
      if i < |used| - 1 {
        assert Follows(w, used[i], used[i + 1]);
      }
    }
  }

  lemma StillWorthRetry(w: World, used: seq<Credential>, c: Credential, proxies: bool)
    requires AllWorthRetry(w, used, |used|, proxies)
    ensures AllWorthRetry(w, used + [c], |used|, proxies)
    ensures WorthRetry(w.outcome(|used|), !proxies || !c.isFallback) ==> AllWorthRetry(w, used + [c], |used| + 1, proxies)
  {
  }

  lemma StillProxies(w: World, used: seq<Credential>, first: Credential, c: Credential)
    requires ProxyChain(w, used, first) && c.kind == PROXY
    requires if used == [] then c == first else FollowsProxy(w, |used|, c)
    ensures ProxyChain(w, used + [c], first)
  {
    var more := used + [c];
    forall i | 1 <= i < |more| ensures FollowsProxy(w, i, more[i]) {
      if i < |used| {
        assert FollowsProxy(w, i, used[i]);
      }
    }
  }

  function MaxFallbacks(configured: int): (n: int)
    ensures n > 0
  {
    if configured <= 0 then DEFAULT_MAX_FALLBACK_ATTEMPTS else configured
  }

  /** Configured credentials always have a type. */
  ghost predicate AllTyped(credentials: seq<Credential>) {
    forall c :: c in credentials ==> c.kind != ""
  }

  /** A chain of configured direct credentials that starts with the first selection and then never uses a fallback. */
  ghost predicate DirectChain(used: seq<Credential>, credentials: seq<Credential>, first: Credential) {
    && (used != [] ==> used[0] == first)
    && (forall i :: 0 <= i < |used| ==> used[i] in credentials && used[i].kind != PROXY)
    && (forall i :: 1 <= i < |used| ==> !used[i].isFallback)
  }

  /** A retry answer, for what was tried when it was asked for. */
  ghost predicate Continues(credentials: seq<Credential>, current: Credential, tried: set<string>, c: Credential) {
    && c in credentials && !c.isFallback
    && (current.kind != "" && current.kind != PROXY ==> c.kind != PROXY)
    && ((!current.isFallback && current.kind != PROXY && (current.fallbackPriority > 0 || TriedPriority(credentials, tried)))
        ==> RankAtMost(current, c))
  }

  lemma ChainExtends(used: seq<Credential>, tried: set<string>, credentials: seq<Credential>, first: Credential, next: Credential)
    requires used != [] && AllTried(used, tried) && AllTyped(credentials)
    requires DirectChain(used, credentials, first)
    requires Continues(credentials, used[|used| - 1], tried, next)
    ensures DirectChain(used + [next], credentials, first)
    ensures NamesakesAgree(credentials) && TiersAscend(used) ==> TiersAscend(used + [next])
  {
    if NamesakesAgree(credentials) && TiersAscend(used) {
      TiersKeepAscending(used, tried, credentials, first, next);
    }
  }

  lemma TiersKeepAscending(used: seq<Credential>, tried: set<string>, credentials: seq<Credential>, first: Credential, next: Credential)
    requires used != [] && AllTried(used, tried) && AllTyped(credentials)
    requires DirectChain(used, credentials, first)
    requires Continues(credentials, used[|used| - 1], tried, next)
    requires NamesakesAgree(credentials) && TiersAscend(used)
    ensures TiersAscend(used + [next])
  {
    var chain, n := used + [next], |used| - 1;
    forall i | 0 <= i < |chain| - 1 && PriorityUsedBy(chain, i) ensures RankAtMost(chain[i], chain[i + 1]) {
      var k :| 0 <= k <= i < |chain| && PrioritisedDirect(chain[k]);
      assert PrioritisedDirect(used[k]) && PriorityUsedBy(used, i);
      if i == n {
        assert used[k] in credentials && used[k].name in tried;
        assert PrioritisedName(credentials, used[k].name);
      }
    }
  }

  // ----- namesakes that disagree -----

  function Plain(name: string, fallbackPriority: int): Credential {
    Credential(name, "openai", false, fallbackPriority, 1, UNLIMITED, UNLIMITED)
  }

  /** Asks for no model, sees everything. */
  function AnyRequest(): Request {
    Request("", false, _ => true, _ => true, _ => 1)
  }

  /** Only this credential has room. */
  function OnlyRoom(name: string): Snapshot {
    Snapshot({}, {name}, map[], map[], "", 0)
  }

  /** A prioritised credential whose namesake comes later without a priority. */
  const TIER_A := Plain("a", 1)
  const TIER_B := Plain("b", 1)
  const TAIL := Plain("u", 0)

  function Disagreeing(): seq<Credential> {
    [TIER_A, Plain("a", 0), TIER_B, TAIL]
  }

  lemma NamesakeUnseen()
    ensures !TriedPriority(Disagreeing(), {"a", "u"}) && !NamesakesAgree(Disagreeing())
  {
    var cs := Disagreeing();
    assert cs[..3] == [TIER_A, Plain("a", 0), TIER_B] && cs[..3][..2] == [TIER_A, Plain("a", 0)];
    assert LastNamed(cs, "u") == Some(TAIL);
    assert LastNamed(cs[..3][..2], "a") == Some(Plain("a", 0));
    assert LastNamed(cs, "a") == LastNamed(cs[..3], "a") == LastNamed(cs[..3][..2], "a");
    assert cs[0] == TIER_A && TIER_A in cs;
  }

  /** Such a chain can go from the unprioritised tail back to a tier: each answer is one the balancer gives in some state. */
  lemma DisagreeingNamesakesGoBack()
    ensures DecidesInOrder(OnlyRoom("u"), Disagreeing(), AnyRequest(), RetryFilters(Disagreeing(), TIER_A, {"a"}), Selected(TAIL))
    ensures DecidesInOrder(OnlyRoom("b"), Disagreeing(), AnyRequest(), RetryFilters(Disagreeing(), TAIL, {"a", "u"}), Selected(TIER_B))
    ensures !TiersAscend([TIER_A, TAIL, TIER_B])
  {
    TailAfterTier();
    TierAfterTail();
    var used := [TIER_A, TAIL, TIER_B];
    assert PrioritisedDirect(used[0]) && PriorityUsedBy(used, 1);
    assert !RankAtMost(used[1], used[2]);
  }

  lemma TailAfterTier()
    ensures DecidesInOrder(OnlyRoom("u"), Disagreeing(), AnyRequest(), RetryFilters(Disagreeing(), TIER_A, {"a"}), Selected(TAIL))
  {
    var cs, req, filters := Disagreeing(), AnyRequest(), RetryFilters(Disagreeing(), TIER_A, {"a"});
    assert cs[3] == TAIL && TAIL in cs;
    CandidateMembers(cs, req, filters[1], TAIL);
    forall c | c in CandidatesOf(cs, req, filters[0]) ensures !OnlyRoom("u").HasRoom(c) {
      CandidateMembers(cs, req, filters[0], c);
    }
    assert PicksFrom(OnlyRoom("u"), cs, req, filters[1], TAIL);
  }

  lemma TierAfterTail()
    ensures DecidesInOrder(OnlyRoom("b"), Disagreeing(), AnyRequest(), RetryFilters(Disagreeing(), TAIL, {"a", "u"}), Selected(TIER_B))
  {
    NamesakeUnseen();
    var cs, req, filters := Disagreeing(), AnyRequest(), RetryFilters(Disagreeing(), TAIL, {"a", "u"});
    assert filters == [SameTypeFilter("openai", {"a", "u"})];
    assert cs[2] == TIER_B && TIER_B in cs;
    CandidateMembers(cs, req, filters[0], TIER_B);
    assert PicksFrom(OnlyRoom("b"), cs, req, filters[0], TIER_B);
  }
}
