/** Credential selection (internal/balancer/roundrobin.go). */
module Candidates {
  import opened Collections
  import opened Window
  import opened LocalBackend
  import opened RpmLimiter
  import opened Swrr
  import opened SwrrFairness
  import opened SwrrCycle
  import opened Strings
  import F = Fail2Ban

  const PROXY := "proxy"

  datatype Credential = Credential(name: string, kind: string, isFallback: bool, fallbackPriority: int,
                                   weight: int, rpm: int, tpm: int)

  datatype SelectionError = NoCredentialsAvailable | RateLimitExceeded

  datatype Selection = Selected(cred: Credential) | Failed(error: SelectionError)

  /** What a request asks for: its model, and what scopes and the model index let it use. */
  datatype Request = Request(model: string, modelFilter: bool,
                             visible: Credential -> bool, hasModel: string -> bool, modelWeight: string -> int)

  /** Which priority tiers a selection draws from. */
  datatype Tier = AnyTier | AtLeast(minPriority: int) | Unprioritized

  /** The structural part of a selection; an empty required type matches every type. */
  datatype Filter = Filter(onlyFallback: bool, onlyProxy: bool, noProxy: bool, requiredType: string,
                           tier: Tier, exclude: set<string>)

  predicate HasModel(c: Credential, req: Request) {
    req.model != "" && req.modelFilter ==> req.hasModel(c.name)
  }

  predicate InTier(c: Credential, tier: Tier) {
    match tier
    case AnyTier => true
    case AtLeast(minPriority) => c.fallbackPriority > 0 && c.fallbackPriority >= minPriority
    case Unprioritized => c.fallbackPriority <= 0
  }

  /** Phase 1: the time-stable filters. */
  predicate Eligible(c: Credential, req: Request, filter: Filter) {
    && c.name !in filter.exclude
    && (filter.onlyProxy ==> c.kind == PROXY)
    && (filter.noProxy ==> c.kind != PROXY)
    && (filter.requiredType != "" ==> c.kind == filter.requiredType)
    && c.isFallback == filter.onlyFallback
    && req.visible(c)
    && HasModel(c, req)
    && InTier(c, filter.tier)
  }

  /** The candidates of a selection, in configured order. */
  function CandidatesOf(credentials: seq<Credential>, req: Request, filter: Filter): seq<Credential> {
    if credentials == [] then []
    else
      var n := |credentials| - 1;
      CandidatesOf(credentials[..n], req, filter) + if Eligible(credentials[n], req, filter) then [credentials[n]] else []
  }

  lemma {:induction false} CandidateMembers(credentials: seq<Credential>, req: Request, filter: Filter, c: Credential)
    ensures c in CandidatesOf(credentials, req, filter) <==>
      && c in credentials && c.name !in filter.exclude && req.visible(c)
      && (req.model != "" && req.modelFilter ==> req.hasModel(c.name))
      && (filter.onlyProxy ==> c.kind == PROXY) && (filter.noProxy ==> c.kind != PROXY)
      && (filter.requiredType != "" ==> c.kind == filter.requiredType)
      && c.isFallback == filter.onlyFallback
      && (filter.tier.AtLeast? ==> c.fallbackPriority > 0 && c.fallbackPriority >= filter.tier.minPriority)
      && (filter.tier.Unprioritized? ==> c.fallbackPriority <= 0)
  {
    if credentials != [] {
      var n := |credentials| - 1;
      CandidateMembers(credentials[..n], req, filter, c);
      assert credentials == credentials[..n] + [credentials[n]];
    }
  }

  function WeightOf(c: Credential, req: Request): int {
    EffectiveWeight(if req.model != "" && req.modelFilter then req.modelWeight(c.name) else 0, c.weight)
  }

  function Names(creds: seq<Credential>): (names: seq<string>)
    ensures |names| == |creds|
  {
    seq(|creds|, i requires 0 <= i < |creds| => creds[i].name)
  }

  function LiveWeights(creds: seq<Credential>, req: Request): map<string, int> {
    if creds == [] then map[]
    else
      var n := |creds| - 1;
      LiveWeights(creds[..n], req)[creds[n].name := WeightOf(creds[n], req)]
  }

  /** The credential an index by name finds: the last of that name. */
  function LastNamed(creds: seq<Credential>, name: string): Option<Credential> {
    if creds == [] then None
    else
      var n := |creds| - 1;
      if creds[n].name == name then Some(creds[n]) else LastNamed(creds[..n], name)
  }

  /** Namesakes share one node, which weighs what the last of them weighs: the model's own weight for the name, then the
      credential's, then 1. */
  lemma {:induction false} LiveWeightIsLast(creds: seq<Credential>, req: Request, name: string)
    ensures match LastNamed(creds, name)
      case Some(c) => name in LiveWeights(creds, req) && LiveWeights(creds, req)[name] ==
        if req.model != "" && req.modelFilter && req.modelWeight(name) > 0 then req.modelWeight(name)
        else if c.weight > 0 then c.weight else 1
      case None => name !in LiveWeights(creds, req)
  {
    if creds != [] {
      LiveWeightIsLast(creds[..|creds| - 1], req, name);
    }
  }

  // ----- what a selection sees -----

  /** Bans in force, credentials with room under every limit, and usage at the instant of a selection. */
  datatype Snapshot = Snapshot(banned: set<string>, room: set<string>, modelLimits: map<string, LimiterConfig>,
                               usage: map<string, Usage>, model: string, now: int) {
    ghost predicate Banned(c: Credential) {
      F.BanKey(c.name, model) in banned
    }

    ghost predicate HasRoom(c: Credential) {
      c.name in room
    }

    /** The unbanned candidates with room, in order. */
    ghost function Live(candidates: seq<Credential>): seq<Credential> {
      if candidates == [] then []
      else
        var n := |candidates| - 1;
        Live(candidates[..n]) + if !Banned(candidates[n]) && HasRoom(candidates[n]) then [candidates[n]] else []
    }

    /** Some unbanned candidate is over a limit. */
    ghost predicate AnyOverLimit(candidates: seq<Credential>) {
      exists c :: c in candidates && !Banned(c) && !HasRoom(c)
    }

    /** One admission recorded for the chosen credential, and for its model when limited. */
    ghost function Charge(c: Credential): map<string, Usage> {
      RecordAll(usage, CredKey(c.name), ModelCounter(modelLimits, c.name, model), now)
    }
  }

  lemma {:induction false} LiveMembers(s: Snapshot, candidates: seq<Credential>, c: Credential)
    ensures c in s.Live(candidates) <==> c in candidates && !s.Banned(c) && s.HasRoom(c)
  {
    if candidates != [] {
      var n := |candidates| - 1;
      LiveMembers(s, candidates[..n], c);
      assert candidates == candidates[..n] + [candidates[n]];
    }
  }

  /** An expiry check changes no ban that is in force. */
  lemma ExpiryIsSilent(t: F.Table, key: string, now: int)
    ensures t.Put(key, F.Expired(t.At(key), now)).ActiveKeys(now) == t.ActiveKeys(now)
  {
  }

  // ----- the stable descending sort by running counter -----

  function InsertByCounter(c: Credential, sorted: seq<Credential>, nodes: map<string, int>): seq<Credential> {
    if sorted == [] || CurrentIn(nodes, sorted[0].name) <= CurrentIn(nodes, c.name) then [c] + sorted
    else [sorted[0]] + InsertByCounter(c, sorted[1..], nodes)
  }

  /** Descending by counter; equal counters keep their order. */
  function StableDescending(live: seq<Credential>, nodes: map<string, int>): (sorted: seq<Credential>)
    ensures live != [] ==> sorted != []
  {
    if live == [] then [] else InsertByCounter(live[0], StableDescending(live[1..], nodes), nodes)
  }

  function CounterRow(live: seq<Credential>, nodes: map<string, int>): (row: seq<int>)
    ensures |row| == |live|
  {
    seq(|live|, i requires 0 <= i < |live| => CurrentIn(nodes, live[i].name))
  }

  lemma {:induction false} InsertByCounterMembers(c: Credential, sorted: seq<Credential>, nodes: map<string, int>)
    ensures multiset(InsertByCounter(c, sorted, nodes)) == multiset([c]) + multiset(sorted)
  {
    if sorted == [] || CurrentIn(nodes, sorted[0].name) <= CurrentIn(nodes, c.name) {
    } else {
      InsertByCounterMembers(c, sorted[1..], nodes);
      assert sorted == [sorted[0]] + sorted[1..];
    }
  }

  lemma {:induction false} SortMembers(live: seq<Credential>, nodes: map<string, int>)
    ensures multiset(StableDescending(live, nodes)) == multiset(live)
  {
    if live != [] {
      SortMembers(live[1..], nodes);
      InsertByCounterMembers(live[0], StableDescending(live[1..], nodes), nodes);
      assert live == [live[0]] + live[1..];
    }
  }

  /** The first credential tried is the leftmost one with the largest counter. */
  lemma {:induction false} SortHead(live: seq<Credential>, nodes: map<string, int>) returns (p: nat)
    requires live != []
    ensures IsLeftmostMax(CounterRow(live, nodes), p)
    ensures p < |live| && StableDescending(live, nodes)[0] == live[p]
  {
    if |live| == 1 {
      p := 0;
    } else {
      var q := SortHead(live[1..], nodes);
      var row, rest := CounterRow(live, nodes), CounterRow(live[1..], nodes);
      assert forall i :: 0 <= i < |rest| ==> rest[i] == row[i + 1];
      assert forall i :: 1 <= i < |row| ==> row[i] == rest[i - 1] <= rest[q];
      assert forall i :: 1 <= i < q + 1 ==> row[i] == rest[i - 1] < rest[q];
      p := if rest[q] <= row[0] then 0 else q + 1;
    }
  }

  // ----- the candidate a selection commits -----

  /** The first credential of a sequence that has room. */
  ghost function FirstWithRoom(s: Snapshot, order: seq<Credential>): Selection {
    if order == [] then Failed(RateLimitExceeded)
    else if s.HasRoom(order[0]) then Selected(order[0])
    else FirstWithRoom(s, order[1..])
  }

  /** The order in which a selection tries its live candidates. */
  ghost function Order(nodes: map<string, int>, live: seq<Credential>, req: Request): seq<Credential> {
    StableDescending(live, Advanced(nodes, LiveWeights(live, req)))
  }

  ghost function NodesAfter(nodes: map<string, int>, live: seq<Credential>, req: Request, r: Selection): map<string, int> {
    var weights := LiveWeights(live, req);
    if r.Selected? then Charged(Advanced(nodes, weights), r.cred.name, SumValues(weights)) else Advanced(nodes, weights)
  }

  ghost function UsageAfter(s: Snapshot, r: Selection): map<string, Usage> {
    if r.Selected? then s.Charge(r.cred) else s.usage
  }

  /** When every live candidate has room, the leftmost largest counter of the cycle is committed. */
  lemma LiveSelectionCommitsMaximum(s: Snapshot, nodes: map<string, int>, live: seq<Credential>, req: Request)
    requires live != [] && forall c :: c in live ==> s.HasRoom(c)
    ensures var r := FirstWithRoom(s, Order(nodes, live, req));
      && r.Selected? && r.cred in live
      && Committed(nodes, r.cred.name, NodesAfter(nodes, live, req, r), LiveWeights(live, req), Names(live))
  {
    var credited := Advanced(nodes, LiveWeights(live, req));
    var p := SortHead(live, credited);
    var row := CounterRow(live, credited);
    LeftmostMaxIsUnique(row, p);
    assert live[p] in live;
    assert Shows(row, credited, Names(live));
  }

  lemma LiveAllHaveRoom(s: Snapshot, candidates: seq<Credential>)
    ensures forall c :: c in s.Live(candidates) ==> s.HasRoom(c)
  {
    forall c | c in s.Live(candidates) ensures s.HasRoom(c) {
      LiveMembers(s, candidates, c);
    }
  }

  /**
   What a selection decides: one of the unbanned candidates with room when there is any;
   otherwise a rate-limit error exactly when some unbanned candidate was over a limit.
   */
  ghost predicate Decides(s: Snapshot, candidates: seq<Credential>, r: Selection) {
    match r
    case Selected(c) => c in candidates && !s.Banned(c) && s.HasRoom(c)
    case Failed(error) =>
      && (forall c :: c in candidates ==> s.Banned(c) || !s.HasRoom(c))
      && error == if s.AnyOverLimit(candidates) then RateLimitExceeded else NoCredentialsAvailable
  }

  /** Under one snapshot the weighted selection decides as promised and commits the maximum. */
  lemma LiveDecides(s: Snapshot, nodes: map<string, int>, candidates: seq<Credential>, req: Request, r: Selection)
    requires var live := s.Live(candidates);
      r == if live == [] then
             Failed(if s.AnyOverLimit(candidates) then RateLimitExceeded else NoCredentialsAvailable)
           else FirstWithRoom(s, Order(nodes, live, req))
    ensures Decides(s, candidates, r)
    ensures r.Failed? <==> s.Live(candidates) == []
    ensures r.Selected? ==>
      var live := s.Live(candidates);
      Committed(nodes, r.cred.name, NodesAfter(nodes, live, req, r), LiveWeights(live, req), Names(live))
  {
    forall c | c in candidates ensures c in s.Live(candidates) <==> !s.Banned(c) && s.HasRoom(c) {
      LiveMembers(s, candidates, c);
    }
    if s.Live(candidates) != [] {
      LiveAllHaveRoom(s, candidates);
      LiveSelectionCommitsMaximum(s, nodes, s.Live(candidates), req);
      LiveMembers(s, candidates, r.cred);
    }
  }

  ghost predicate Available(s: Snapshot, c: Credential) {
    !s.Banned(c) && s.HasRoom(c)
  }

  ghost predicate OverLimit(s: Snapshot, c: Credential) {
    !s.Banned(c) && !s.HasRoom(c)
  }

  /** One of these that is unbanned and has room, or none is and the error tells whether one was over a limit. */
  ghost predicate AnswersFrom(s: Snapshot, targets: set<Credential>, r: Selection) {
    match r
    case Selected(c) => c in targets && Available(s, c)
    case Failed(error) =>
      && (forall c :: c in targets ==> !Available(s, c))
      && error == if exists c :: c in targets && OverLimit(s, c) then RateLimitExceeded else NoCredentialsAvailable
  }

  /** Whom a selection may answer, written out from the request and the filter. */
  lemma SelectionWrittenOut(s: Snapshot, credentials: seq<Credential>, req: Request, filter: Filter, r: Selection)
    requires Decides(s, CandidatesOf(credentials, req, filter), r)
    ensures var targets := set c |
        && c in credentials && c.name !in filter.exclude && req.visible(c)
        && (req.model != "" && req.modelFilter ==> req.hasModel(c.name))
        && (filter.onlyProxy ==> c.kind == PROXY) && (filter.noProxy ==> c.kind != PROXY)
        && (filter.requiredType != "" ==> c.kind == filter.requiredType)
        && c.isFallback == filter.onlyFallback
        && (filter.tier.AtLeast? ==> c.fallbackPriority > 0 && c.fallbackPriority >= filter.tier.minPriority)
        && (filter.tier.Unprioritized? ==> c.fallbackPriority <= 0);
      AnswersFrom(s, targets, r)
  {
    var candidates := CandidatesOf(credentials, req, filter);
    var targets := set c |
      && c in credentials && c.name !in filter.exclude && req.visible(c)
      && (req.model != "" && req.modelFilter ==> req.hasModel(c.name))
      && (filter.onlyProxy ==> c.kind == PROXY) && (filter.noProxy ==> c.kind != PROXY)
      && (filter.requiredType != "" ==> c.kind == filter.requiredType)
      && c.isFallback == filter.onlyFallback
      && (filter.tier.AtLeast? ==> c.fallbackPriority > 0 && c.fallbackPriority >= filter.tier.minPriority)
      && (filter.tier.Unprioritized? ==> c.fallbackPriority <= 0);
    forall c ensures c in targets <==> c in candidates {
      CandidateMembers(credentials, req, filter, c);
    }
    SameAnswers(s, candidates, targets, r);
  }

  lemma SameAnswers(s: Snapshot, candidates: seq<Credential>, targets: set<Credential>, r: Selection)
    requires Decides(s, candidates, r) && forall c :: c in targets <==> c in candidates
    ensures AnswersFrom(s, targets, r)
  {
    if c :| c in candidates && !s.Banned(c) && !s.HasRoom(c) {
      assert c in targets && OverLimit(s, c);
    }
  }

  // ----- the cycles of a balancer -----

  /** The cycle key: the model counts only while models are filtered, and the candidate names are part of it. */
  function CycleKeyOf(req: Request, filter: Filter, candidates: seq<Credential>, priority: int, excluding: bool): SchedKey {
    SchedKey(if req.modelFilter then req.model else "", filter.onlyFallback, filter.onlyProxy, filter.requiredType,
             excluding, priority, CandidateCycleKey(candidates))
  }

  function CandidateCycleKey(candidates: seq<Credential>): string {
    Join(Sort(Names(candidates)), "\0")
  }

  /** Two selections share a cycle exactly when they agree on what is filtered and on the candidates' names, in any order,
      as long as no name contains the separator. */
  lemma CycleKeysSeparate(req: Request, filter: Filter, candidates: seq<Credential>, priority: int, excluding: bool,
                          req': Request, filter': Filter, candidates': seq<Credential>, priority': int, excluding': bool)
    requires candidates != [] && candidates' != []
    requires NoneHas(Names(candidates), '\0') && NoneHas(Names(candidates'), '\0')
    ensures CycleKeyOf(req, filter, candidates, priority, excluding) == CycleKeyOf(req', filter', candidates', priority', excluding') <==>
      && (if req.modelFilter then req.model else "") == (if req'.modelFilter then req'.model else "")
      && filter.onlyFallback == filter'.onlyFallback && filter.onlyProxy == filter'.onlyProxy
      && filter.requiredType == filter'.requiredType && priority == priority' && excluding == excluding'
      && multiset(Names(candidates)) == multiset(Names(candidates'))
  {
    var a, b := Names(candidates), Names(candidates');
    SortSorts(a);
    SortSorts(b);
    if multiset(a) == multiset(b) {
      SortedUnique(Sort(a), Sort(b));
    }
    if Join(Sort(a), "\0") == Join(Sort(b), "\0") {
      SortKeepsSeparator(a, '\0');
      SortKeepsSeparator(b, '\0');
      JoinInjective(Sort(a), Sort(b), '\0');
    }
  }

  lemma SortKeepsSeparator(names: seq<string>, ch: char)
    requires names != [] && NoneHas(names, ch)
    ensures Sort(names) != [] && NoneHas(Sort(names), ch)
  {
    Strings.SortMembers(names, names[0]);
    forall i | 0 <= i < |Sort(names)| ensures ch !in Sort(names)[i] {
      Strings.SortMembers(names, Sort(names)[i]);
    }
  }

  /** A name with the separator in it reads as two names. */
  lemma SeparatorInNameShares(c: Credential, d: Credential, e: Credential)
    requires c.name == "a\0b" && d.name == "a" && e.name == "b"
    ensures CandidateCycleKey([c]) == CandidateCycleKey([d, e])
  {
    assert Names([d, e]) == ["a", "b"] && Names([c]) == ["a\0b"];
    assert ["a", "b"][1..] == ["b"] && ["b"][1..] == [] && ["a\0b"][1..] == [];
    assert Join(["a", "b"], "\0") == "a" + "\0" + "b";
    assert Sort(["a", "b"]) == ["a", "b"];
  }

  /** The node maps of all cycles started so far. */
  type Cycles = map<SchedKey, map<string, int>>

  function NodesOf(cycles: Cycles, key: SchedKey): map<string, int> {
    if key in cycles then cycles[key] else map[]
  }

  /** One cycle credits its live candidates and is charged for their maximum, which is c; every other cycle stays. */
  ghost predicate CommitsMaximum(before: Cycles, after: Cycles, key: SchedKey, live: seq<Credential>, req: Request, c: Credential) {
    && after == before[key := NodesOf(after, key)]
    && Committed(NodesOf(before, key), c.name, NodesOf(after, key), LiveWeights(live, req), Names(live))
  }

  // ----- retries -----

  /** Retries within the current credential's type. */
  function SameTypeFilter(kind: string, exclude: set<string>): Filter {
    if kind == PROXY then Filter(false, true, false, "", AnyTier, exclude)
    else Filter(false, false, false, kind, AnyTier, exclude)
  }

  /** Retries across types, direct credentials only. */
  function RetryFilter(tier: Tier, exclude: set<string>): Filter {
    Filter(false, false, true, "", tier, exclude)
  }

  /** The two filters of a retry after a prioritised credential. */
  function TierThenTail(minPriority: int, exclude: set<string>): seq<Filter> {
    [RetryFilter(AtLeast(minPriority), exclude), RetryFilter(Unprioritized, exclude)]
  }

  /** A prioritised direct credential. */
  predicate PrioritisedDirect(c: Credential) {
    c.fallbackPriority > 0 && !c.isFallback && c.kind != PROXY
  }

  predicate PrioritisedName(credentials: seq<Credential>, name: string) {
    match LastNamed(credentials, name)
    case Some(c) => PrioritisedDirect(c)
    case None => false
  }

  /** Some tried name is that of a prioritised direct credential, as far as the index by name tells. */
  ghost predicate TriedPriority(credentials: seq<Credential>, exclude: set<string>) {
    exists name :: name in exclude && PrioritisedName(credentials, name)
  }

  /** Whoever shares a name with a prioritised direct credential and comes last is one, too. */
  ghost predicate NamesakesAgree(credentials: seq<Credential>) {
    forall c :: c in credentials && PrioritisedDirect(c) ==> PrioritisedName(credentials, c.name)
  }

  lemma {:induction false} LastNamedMember(credentials: seq<Credential>, name: string)
    ensures match LastNamed(credentials, name)
      case Some(c) => c in credentials && c.name == name
      case None => forall c :: c in credentials ==> c.name != name
  {
    if credentials != [] {
      var n := |credentials| - 1;
      LastNamedMember(credentials[..n], name);
      assert credentials == credentials[..n] + [credentials[n]];
    }
  }

  ghost predicate PriorityInUse(credentials: seq<Credential>, exclude: set<string>) {
    exists c :: c in credentials && c.name in exclude && PrioritisedDirect(c)
  }

  /** The test sees every prioritised credential whose name was tried exactly when namesakes agree. */
  lemma TestSeesPriority(credentials: seq<Credential>)
    ensures (forall exclude :: PriorityInUse(credentials, exclude) <==> TriedPriority(credentials, exclude))
       <==> NamesakesAgree(credentials)
  {
    forall exclude | TriedPriority(credentials, exclude) ensures PriorityInUse(credentials, exclude) {
      var name :| name in exclude && PrioritisedName(credentials, name);
      LastNamedMember(credentials, name);
    }
    forall c | c in credentials && PrioritisedDirect(c)
      ensures PriorityInUse(credentials, {c.name})
      ensures TriedPriority(credentials, {c.name}) <==> PrioritisedName(credentials, c.name)
    {
    }
  }

  /** The filters a retry falls through, most preferred first. */
  ghost function RetryFilters(credentials: seq<Credential>, current: Credential, exclude: set<string>): seq<Filter> {
    if current.kind == PROXY || current.isFallback then [SameTypeFilter(current.kind, exclude)]
    else if current.fallbackPriority > 0 then TierThenTail(current.fallbackPriority, exclude)
    else [UnprioritizedRetryFilter(credentials, current.kind, exclude)]
  }

  ghost function UnprioritizedRetryFilter(credentials: seq<Credential>, kind: string, exclude: set<string>): Filter {
    if TriedPriority(credentials, exclude) then RetryFilter(Unprioritized, exclude) else SameTypeFilter(kind, exclude)
  }

  ghost predicate NoneLive(s: Snapshot, candidates: seq<Credential>) {
    forall c :: c in candidates ==> s.Banned(c) || !s.HasRoom(c)
  }

  /**
   A retry takes an available credential from the first filter that has one, in the lowest priority number
   when the filter is by priority; it fails only when no filter has one, with a rate-limit error exactly
   when some filter had an unbanned candidate over a limit.
   */
  ghost predicate DecidesInOrder(s: Snapshot, credentials: seq<Credential>, req: Request, filters: seq<Filter>, r: Selection) {
    match r
    case Selected(c) =>
      exists i :: 0 <= i < |filters| && PicksFrom(s, credentials, req, filters[i], c)
        && forall j :: 0 <= j < i ==> NoneLive(s, CandidatesOf(credentials, req, filters[j]))
    case Failed(error) =>
      && (forall i :: 0 <= i < |filters| ==> NoneLive(s, CandidatesOf(credentials, req, filters[i])))
      && error == if exists i :: 0 <= i < |filters| && s.AnyOverLimit(CandidatesOf(credentials, req, filters[i]))
                  then RateLimitExceeded else NoCredentialsAvailable
  }

  ghost predicate PicksFrom(s: Snapshot, credentials: seq<Credential>, req: Request, filter: Filter, c: Credential) {
    var candidates := CandidatesOf(credentials, req, filter);
    && c in candidates && !s.Banned(c) && s.HasRoom(c)
    && (filter.tier.AtLeast? ==>
          forall d :: d in candidates && !s.Banned(d) && s.HasRoom(d) ==> c.fallbackPriority <= d.fallbackPriority)
  }

  /** The live candidates of one priority. */
  function Bucket(live: seq<Credential>, priority: int): (bucket: seq<Credential>)
    ensures forall c :: c in bucket <==> c in live && c.fallbackPriority == priority
  {
    if live == [] then []
    else
      var n := |live| - 1;
      assert live == live[..n] + [live[n]];
      Bucket(live[..n], priority) + if live[n].fallbackPriority == priority then [live[n]] else []
  }

  /** The maximum among the live candidates of the chosen credential's tier is committed, in that tier's cycle. */
  ghost predicate CommitsTier(before: Cycles, after: Cycles, s: Snapshot, candidates: seq<Credential>, req: Request, c: Credential) {
    var bucket := Bucket(s.Live(candidates), c.fallbackPriority);
    CommitsMaximum(before, after, TierKey(req, bucket, c.fallbackPriority), bucket, req, c)
  }

  /** The unprioritised tail has one cycle of its own. */
  function TailKey(req: Request, candidates: seq<Credential>): SchedKey {
    CycleKeyOf(req, RetryFilter(AnyTier, {}), candidates, -1, true)
  }

  /** What a selection under one filter commits; the tier decides which cycle it is. */
  ghost predicate CommitsUnder(before: Cycles, after: Cycles, s: Snapshot, credentials: seq<Credential>, req: Request,
                               filter: Filter, c: Credential)
  {
    var candidates := CandidatesOf(credentials, req, filter);
    match filter.tier
    case AnyTier =>
      CommitsMaximum(before, after, CycleKeyOf(req, filter, candidates, 0, filter.exclude != {}), s.Live(candidates), req, c)
    case AtLeast(_) => CommitsTier(before, after, s, candidates, req, c)
    case Unprioritized => CommitsMaximum(before, after, TailKey(req, candidates), s.Live(candidates), req, c)
  }

  ghost predicate FirstLive(s: Snapshot, credentials: seq<Credential>, req: Request, filters: seq<Filter>, i: nat)
    requires i < |filters|
  {
    && !NoneLive(s, CandidatesOf(credentials, req, filters[i]))
    && forall j :: 0 <= j < i ==> NoneLive(s, CandidatesOf(credentials, req, filters[j]))
  }

  /** A retry commits the maximum of one cycle, the one of the first filter with a live credential; a failed one moves none. */
  ghost predicate CommitsInOrder(before: Cycles, after: Cycles, s: Snapshot, credentials: seq<Credential>, req: Request,
                                 filters: seq<Filter>, r: Selection)
  {
    match r
    case Selected(c) =>
      exists i :: 0 <= i < |filters| && FirstLive(s, credentials, req, filters, i)
        && CommitsUnder(before, after, s, credentials, req, filters[i], c)
    case Failed(_) => after == before
  }

  lemma NoneLiveWhenEmpty(s: Snapshot, candidates: seq<Credential>)
    ensures s.Live(candidates) == [] <==> NoneLive(s, candidates)
  {
    forall c | c in candidates ensures c in s.Live(candidates) <==> !s.Banned(c) && s.HasRoom(c) {
      LiveMembers(s, candidates, c);
    }
    if s.Live(candidates) != [] {
      LiveMembers(s, candidates, s.Live(candidates)[0]);
    }
  }

  /** A live candidate of the lowest live priority. */
  ghost predicate PicksLowest(s: Snapshot, candidates: seq<Credential>, c: Credential) {
    && c in candidates && !s.Banned(c) && s.HasRoom(c)
    && forall d :: d in candidates && !s.Banned(d) && s.HasRoom(d) ==> c.fallbackPriority <= d.fallbackPriority
  }

  /** Every live candidate has at least this priority, and one has it. */
  ghost predicate IsLowest(live: seq<Credential>, priority: int) {
    && (exists c :: c in live && c.fallbackPriority == priority)
    && (forall c :: c in live ==> priority <= c.fallbackPriority)
  }

  /** The cycle of one priority's live candidates. */
  function TierKey(req: Request, bucket: seq<Credential>, priority: int): SchedKey {
    CycleKeyOf(req, RetryFilter(AnyTier, {}), bucket, priority, true)
  }

  /** What a selection among prioritised candidates decides and charges. */
  ghost predicate TierDecides(before: Cycles, after: Cycles, s: Snapshot, candidates: seq<Credential>, req: Request, r: Selection) {
    r.Selected? && PicksLowest(s, candidates, r.cred) && CommitsTier(before, after, s, candidates, req, r.cred)
  }

  /** Charging the maximum of the lowest live tier is what a retry among prioritised candidates promises. */
  lemma BucketSelectionIsLowest(before: Cycles, after: Cycles, s: Snapshot, candidates: seq<Credential>, priority: int,
                                req: Request, r: Selection)
    requires IsLowest(s.Live(candidates), priority)
    requires var bucket := Bucket(s.Live(candidates), priority);
      var key := TierKey(req, bucket, priority);
      && r == FirstWithRoom(s, Order(NodesOf(before, key), bucket, req))
      && after == before[key := NodesAfter(NodesOf(before, key), bucket, req, r)]
    ensures TierDecides(before, after, s, candidates, req, r)
  {
    var bucket := Bucket(s.Live(candidates), priority);
    LiveAllHaveRoom(s, candidates);
    var c :| c in s.Live(candidates) && c.fallbackPriority == priority;
    assert c in bucket;
    LiveSelectionCommitsMaximum(s, NodesOf(before, TierKey(req, bucket, priority)), bucket, req);
    LiveMembers(s, candidates, r.cred);
    forall d | d in candidates && !s.Banned(d) && s.HasRoom(d) ensures priority <= d.fallbackPriority {
      LiveMembers(s, candidates, d);
    }
  }

  /** Tier order: lower priority numbers first, unprioritised credentials last. */
  predicate RankAtMost(a: Credential, b: Credential) {
    b.fallbackPriority <= 0 || (0 < a.fallbackPriority <= b.fallbackPriority)
  }

  /** A retry keeps to the tiers, and the unprioritised come last. */
  ghost predicate RetryInTiers(credentials: seq<Credential>, current: Credential, exclude: set<string>) {
    current.kind != PROXY && !current.isFallback && (current.fallbackPriority > 0 || TriedPriority(credentials, exclude))
  }

  /** Whom a retry may answer, written out from the request, the current credential and what was tried. */
  lemma RetryWrittenOut(s: Snapshot, credentials: seq<Credential>, req: Request, current: Credential, exclude: set<string>, r: Selection)
    requires DecidesInOrder(s, credentials, req, RetryFilters(credentials, current, exclude), r)
    ensures var targets := set c |
        && c in credentials && c.name !in exclude && !c.isFallback && req.visible(c)
        && (req.model != "" && req.modelFilter ==> req.hasModel(c.name))
        && if current.kind == PROXY then c.kind == PROXY
           else if current.isFallback || (current.fallbackPriority <= 0 && !TriedPriority(credentials, exclude))
           then current.kind != "" ==> c.kind == current.kind
           else c.kind != PROXY && (c.fallbackPriority <= 0 || 0 < current.fallbackPriority <= c.fallbackPriority);
      && AnswersFrom(s, targets, r)
      && (r.Selected? && RetryInTiers(credentials, current, exclude) ==>
            forall d :: d in targets && Available(s, d) ==> RankAtMost(r.cred, d))
  {
    var filters := RetryFilters(credentials, current, exclude);
    var targets := set c |
      && c in credentials && c.name !in exclude && !c.isFallback && req.visible(c)
      && (req.model != "" && req.modelFilter ==> req.hasModel(c.name))
      && if current.kind == PROXY then c.kind == PROXY
         else if current.isFallback || (current.fallbackPriority <= 0 && !TriedPriority(credentials, exclude))
         then current.kind != "" ==> c.kind == current.kind
         else c.kind != PROXY && (c.fallbackPriority <= 0 || 0 < current.fallbackPriority <= c.fallbackPriority);
    forall c ensures c in targets <==> InSomeFilter(credentials, req, filters, c) {
      RetryTarget(credentials, req, current, exclude, c);
    }
    AnswersFromFilters(s, credentials, req, filters, targets, r);
    if r.Selected? && RetryInTiers(credentials, current, exclude) {
      forall d | d in targets && Available(s, d) ensures RankAtMost(r.cred, d) {
        LowestOfFilters(s, credentials, req, current, exclude, r.cred, d);
      }
    }
  }

  /** The two lists of a tiered retry, written out. */
  lemma SplitMembers(credentials: seq<Credential>, req: Request, minPriority: int, exclude: set<string>)
    ensures forall c ::
      (|| c in CandidatesOf(credentials, req, RetryFilter(AtLeast(minPriority), exclude))
       || c in CandidatesOf(credentials, req, RetryFilter(Unprioritized, exclude))) <==>
        && c in credentials && c.name !in exclude && c.kind != PROXY && !c.isFallback && req.visible(c)
        && (req.model != "" && req.modelFilter ==> req.hasModel(c.name))
        && (c.fallbackPriority <= 0 || c.fallbackPriority >= minPriority)
  {
    forall c
      ensures (|| c in CandidatesOf(credentials, req, RetryFilter(AtLeast(minPriority), exclude))
               || c in CandidatesOf(credentials, req, RetryFilter(Unprioritized, exclude))) <==>
        && c in credentials && c.name !in exclude && c.kind != PROXY && !c.isFallback && req.visible(c)
        && (req.model != "" && req.modelFilter ==> req.hasModel(c.name))
        && (c.fallbackPriority <= 0 || c.fallbackPriority >= minPriority)
    {
      CandidateMembers(credentials, req, RetryFilter(AtLeast(minPriority), exclude), c);
      CandidateMembers(credentials, req, RetryFilter(Unprioritized, exclude), c);
    }
  }

  lemma RetryTarget(credentials: seq<Credential>, req: Request, current: Credential, exclude: set<string>, c: Credential)
    ensures InSomeFilter(credentials, req, RetryFilters(credentials, current, exclude), c) <==>
      && c in credentials && c.name !in exclude && !c.isFallback && req.visible(c)
      && (req.model != "" && req.modelFilter ==> req.hasModel(c.name))
      && if current.kind == PROXY then c.kind == PROXY
         else if current.isFallback || (current.fallbackPriority <= 0 && !TriedPriority(credentials, exclude))
         then current.kind != "" ==> c.kind == current.kind
         else c.kind != PROXY && (c.fallbackPriority <= 0 || 0 < current.fallbackPriority <= c.fallbackPriority)
  {
    var filters := RetryFilters(credentials, current, exclude);
    CandidateMembers(credentials, req, filters[0], c);
    if |filters| == 2 {
      CandidateMembers(credentials, req, filters[1], c);
      assert InSomeFilter(credentials, req, filters, c) <==>
        c in CandidatesOf(credentials, req, filters[0]) || c in CandidatesOf(credentials, req, filters[1]);
    } else {
      assert InSomeFilter(credentials, req, filters, c) <==> c in CandidatesOf(credentials, req, filters[0]);
    }
  }

  ghost predicate InSomeFilter(credentials: seq<Credential>, req: Request, filters: seq<Filter>, c: Credential) {
    exists i :: 0 <= i < |filters| && c in CandidatesOf(credentials, req, filters[i])
  }

  lemma AnswersFromFilters(s: Snapshot, credentials: seq<Credential>, req: Request, filters: seq<Filter>, targets: set<Credential>,
                           r: Selection)
    requires DecidesInOrder(s, credentials, req, filters, r)
    requires forall c :: c in targets <==> InSomeFilter(credentials, req, filters, c)
    ensures AnswersFrom(s, targets, r)
  {
    match r
    case Selected(c) =>
      var i :| 0 <= i < |filters| && PicksFrom(s, credentials, req, filters[i], c);
      assert InSomeFilter(credentials, req, filters, c);
    case Failed(_) =>
      forall c | c in targets ensures !Available(s, c) {
        var i :| 0 <= i < |filters| && c in CandidatesOf(credentials, req, filters[i]);
        assert NoneLive(s, CandidatesOf(credentials, req, filters[i]));
      }
      if i :| 0 <= i < |filters| && s.AnyOverLimit(CandidatesOf(credentials, req, filters[i])) {
        var c :| c in CandidatesOf(credentials, req, filters[i]) && !s.Banned(c) && !s.HasRoom(c);
        assert InSomeFilter(credentials, req, filters, c) && OverLimit(s, c);
      }
      if c :| c in targets && OverLimit(s, c) {
        var i :| 0 <= i < |filters| && c in CandidatesOf(credentials, req, filters[i]);
        assert s.AnyOverLimit(CandidatesOf(credentials, req, filters[i]));
      }
  }

  lemma LowestOfFilters(s: Snapshot, credentials: seq<Credential>, req: Request, current: Credential, exclude: set<string>,
                        c: Credential, d: Credential)
    requires DecidesInOrder(s, credentials, req, RetryFilters(credentials, current, exclude), Selected(c))
    requires RetryInTiers(credentials, current, exclude) && Available(s, d)
    requires InSomeFilter(credentials, req, RetryFilters(credentials, current, exclude), d)
    ensures RankAtMost(c, d)
  {
    var filters := RetryFilters(credentials, current, exclude);
    var i :| 0 <= i < |filters| && PicksFrom(s, credentials, req, filters[i], c)
             && forall j :: 0 <= j < i ==> NoneLive(s, CandidatesOf(credentials, req, filters[j]));
    var k :| 0 <= k < |filters| && d in CandidatesOf(credentials, req, filters[k]);
    CandidateMembers(credentials, req, filters[i], c);
    CandidateMembers(credentials, req, filters[k], d);
    assert k >= i;
  }

  lemma SingleFilter(s: Snapshot, credentials: seq<Credential>, req: Request, filter: Filter, r: Selection)
    requires !filter.tier.AtLeast?
    requires Decides(s, CandidatesOf(credentials, req, filter), r)
    ensures DecidesInOrder(s, credentials, req, [filter], r)
  {
    var filters := [filter];
    assert filters[0] == filter;
    if r.Selected? {
      assert PicksFrom(s, credentials, req, filters[0], r.cred);
    } else if s.AnyOverLimit(CandidatesOf(credentials, req, filter)) {
      assert s.AnyOverLimit(CandidatesOf(credentials, req, filters[0]));
    }
  }

  lemma PriorityFirst(s: Snapshot, credentials: seq<Credential>, req: Request, minPriority: int, exclude: set<string>, r: Selection)
    requires r.Selected?
    requires PicksLowest(s, CandidatesOf(credentials, req, RetryFilter(AtLeast(minPriority), exclude)), r.cred)
    ensures DecidesInOrder(s, credentials, req, TierThenTail(minPriority, exclude), r)
  {
    var filters := TierThenTail(minPriority, exclude);
    assert PicksFrom(s, credentials, req, filters[0], r.cred);
  }

  lemma PriorityThenTail(s: Snapshot, credentials: seq<Credential>, req: Request, minPriority: int, exclude: set<string>, r: Selection)
    requires var first := CandidatesOf(credentials, req, RetryFilter(AtLeast(minPriority), exclude));
      var tail := CandidatesOf(credentials, req, RetryFilter(Unprioritized, exclude));
      && NoneLive(s, first)
      && match r
         case Selected(c) => Decides(s, tail, r)
         case Failed(error) =>
           && NoneLive(s, tail)
           && error == if s.AnyOverLimit(first) || s.AnyOverLimit(tail) then RateLimitExceeded else NoCredentialsAvailable
    ensures DecidesInOrder(s, credentials, req, TierThenTail(minPriority, exclude), r)
  {
    var filters := TierThenTail(minPriority, exclude);
    if r.Selected? {
      assert PicksFrom(s, credentials, req, filters[1], r.cred);
    } else {
      if s.AnyOverLimit(CandidatesOf(credentials, req, filters[0])) || s.AnyOverLimit(CandidatesOf(credentials, req, filters[1])) {
        assert r.error == RateLimitExceeded;
      }
    }
  }

  /** What a retry promises: which credential it answers, or the error, and the one cycle it charges. */
  ghost predicate Retries(before: Cycles, after: Cycles, s: Snapshot, credentials: seq<Credential>, req: Request,
                          filters: seq<Filter>, r: Selection)
  {
    && DecidesInOrder(s, credentials, req, filters, r)
    && CommitsInOrder(before, after, s, credentials, req, filters, r)
  }

  lemma SingleFilterRetries(before: Cycles, after: Cycles, s: Snapshot, credentials: seq<Credential>, req: Request,
                            filter: Filter, r: Selection)
    requires !filter.tier.AtLeast? && Decides(s, CandidatesOf(credentials, req, filter), r)
    requires if r.Selected? then CommitsUnder(before, after, s, credentials, req, filter, r.cred) else after == before
    ensures Retries(before, after, s, credentials, req, [filter], r)
  {
    var filters := [filter];
    SingleFilter(s, credentials, req, filter, r);
    if r.Selected? {
      assert FirstLive(s, credentials, req, filters, 0);
    }
  }

  lemma TierRetries(before: Cycles, after: Cycles, s: Snapshot, credentials: seq<Credential>, req: Request,
                    minPriority: int, exclude: set<string>, r: Selection)
    requires TierDecides(before, after, s, CandidatesOf(credentials, req, RetryFilter(AtLeast(minPriority), exclude)), req, r)
    ensures Retries(before, after, s, credentials, req, TierThenTail(minPriority, exclude), r)
  {
    var filters := TierThenTail(minPriority, exclude);
    PriorityFirst(s, credentials, req, minPriority, exclude, r);
    assert FirstLive(s, credentials, req, filters, 0);
  }

  /** What the tail of a retry decides and charges, with the rate-limit hits seen before it. */
  ghost predicate TailDecides(before: Cycles, after: Cycles, s: Snapshot, tail: seq<Credential>, req: Request, hit: bool,
                              r: Selection)
  {
    match r
    case Selected(c) => Decides(s, tail, r) && CommitsMaximum(before, after, TailKey(req, tail), s.Live(tail), req, c)
    case Failed(error) =>
      && NoneLive(s, tail) && after == before
      && error == if hit || s.AnyOverLimit(tail) then RateLimitExceeded else NoCredentialsAvailable
  }

  lemma TailRetries(before: Cycles, after: Cycles, s: Snapshot, credentials: seq<Credential>, req: Request,
                    minPriority: int, exclude: set<string>, r: Selection)
    requires var first := CandidatesOf(credentials, req, RetryFilter(AtLeast(minPriority), exclude));
      var tail := CandidatesOf(credentials, req, RetryFilter(Unprioritized, exclude));
      NoneLive(s, first) && TailDecides(before, after, s, tail, req, s.AnyOverLimit(first), r)
    ensures Retries(before, after, s, credentials, req, TierThenTail(minPriority, exclude), r)
  {
    var filters := TierThenTail(minPriority, exclude);
    PriorityThenTail(s, credentials, req, minPriority, exclude, r);
    if r.Selected? {
      assert FirstLive(s, credentials, req, filters, 1);
    }
  }
}
