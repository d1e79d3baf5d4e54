/** Any interleaving of selections and retries on one balancer: what each cycle commits
    (internal/balancer/roundrobin.go, weighted.go). */
module BalancerInterleaving {
  import opened Window
  import opened Swrr
  import opened SwrrCycle
  import opened Candidates
  import B = RoundRobin
  import R = BalancerRuns

  /** What one call does to the cycles: nothing, or one commit with the weights and names it saw live. */
  datatype Pick = Idle | Pick(key: SchedKey, name: string, weights: map<string, int>, names: seq<string>)

  ghost predicate Moves(before: Cycles, after: Cycles, p: Pick) {
    match p
    case Idle => after == before
    case Pick(key, name, weights, names) =>
      && after == before[key := NodesOf(after, key)]
      && Committed(NodesOf(before, key), name, NodesOf(after, key), weights, names)
  }

  ghost predicate MovesAt(states: seq<Cycles>, picks: seq<Pick>, k: int)
    requires 0 <= k < |picks| < |states|
  {
    Moves(states[k], states[k + 1], picks[k])
  }

  /** The cycles before and after every call. */
  ghost predicate Interleaving(states: seq<Cycles>, picks: seq<Pick>) {
    |states| == |picks| + 1 && forall k :: 0 <= k < |picks| ==> MovesAt(states, picks, k)
  }

  // ----- one cycle within the interleaving -----

  predicate OnKey(p: Pick, key: SchedKey) {
    p.Pick? && p.key == key
  }

  /** The names committed in one cycle, in order. */
  function NamesAt(picks: seq<Pick>, key: SchedKey): seq<string> {
    if picks == [] then []
    else
      var p := picks[|picks| - 1];
      NamesAt(picks[..|picks| - 1], key) + if OnKey(p, key) then [p.name] else []
  }

  /** The node maps of one cycle, before its first commit and after each. */
  ghost function NodesAt(states: seq<Cycles>, picks: seq<Pick>, key: SchedKey): seq<map<string, int>>
    requires |states| == |picks| + 1
  {
    if picks == [] then [NodesOf(states[0], key)]
    else
      var n := |picks| - 1;
      NodesAt(states[..n + 1], picks[..n], key) + if OnKey(picks[n], key) then [NodesOf(states[n + 1], key)] else []
  }

  /** Every commit of the cycle saw these names live, with these weights; whoever asked. */
  ghost predicate Steady(picks: seq<Pick>, key: SchedKey, weights: map<string, int>, names: seq<string>) {
    WeighsNames(weights, names) && forall k :: 0 <= k < |picks| ==> Sees(picks[k], key, weights, names)
  }

  ghost predicate Sees(p: Pick, key: SchedKey, weights: map<string, int>, names: seq<string>) {
    OnKey(p, key) ==> p.weights == weights && p.names == names
  }

  lemma InterleavingPrefix(states: seq<Cycles>, picks: seq<Pick>, n: nat)
    requires Interleaving(states, picks) && n <= |picks|
    ensures Interleaving(states[..n + 1], picks[..n])
  {
    var front, made := states[..n + 1], picks[..n];
    forall k | 0 <= k < n ensures MovesAt(front, made, k) {
      assert MovesAt(states, picks, k);
    }
  }

  lemma OneMoreRound(nodes: seq<map<string, int>>, committed: seq<string>, weights: map<string, int>, names: seq<string>,
                     name: string, after: map<string, int>)
    requires IsRun(nodes, committed, weights, names)
    requires Committed(nodes[|committed|], name, after, weights, names)
    ensures IsRun(nodes + [after], committed + [name], weights, names)
  {
    forall k | 0 <= k < |committed| + 1 ensures RoundAt(nodes + [after], committed + [name], weights, names, k) {
      if k < |committed| {
        assert RoundAt(nodes, committed, weights, names, k);
      }
    }
  }

  /** What other cycles do in between does not matter: the commits of one cycle are a run of its own. */
  lemma {:induction false} CycleIsRun(states: seq<Cycles>, picks: seq<Pick>, key: SchedKey, weights: map<string, int>, names: seq<string>)
    requires Interleaving(states, picks) && Steady(picks, key, weights, names) && key !in states[0]
    ensures IsRun(NodesAt(states, picks, key), NamesAt(picks, key), weights, names)
    ensures NodesAt(states, picks, key)[|NamesAt(picks, key)|] == NodesOf(states[|picks|], key)
  {
    if picks != [] {
      var n := |picks| - 1;
      InterleavingPrefix(states, picks, n);
      CycleIsRun(states[..n + 1], picks[..n], key, weights, names);
      assert MovesAt(states, picks, n);
      var p, nodes, committed := picks[n], NodesAt(states[..n + 1], picks[..n], key), NamesAt(picks[..n], key);
      assert Sees(p, key, weights, names);
      if OnKey(p, key) {
        OneMoreRound(nodes, committed, weights, names, p.name, NodesOf(states[n + 1], key));
      } else {
        OtherKeyStays(states[n], states[n + 1], p, key);
        assert nodes + [] == nodes && committed + [] == committed;
      }
    }
  }

  lemma OtherKeyStays(before: Cycles, after: Cycles, p: Pick, key: SchedKey)
    requires Moves(before, after, p) && !OnKey(p, key)
    ensures NodesOf(after, key) == NodesOf(before, key)
  {
  }

  /** Every cycle that was not used before is fair as long as its commits see the same live set. */
  ghost predicate FairCycles(before: Cycles, picks: seq<Pick>) {
    forall key, weights, names | key !in before && Steady(picks, key, weights, names) ::
      EveryWindowExact(NamesAt(picks, key), weights)
  }

  lemma EveryCycleIsFair(states: seq<Cycles>, picks: seq<Pick>)
    requires Interleaving(states, picks)
    ensures FairCycles(states[0], picks)
  {
    forall key, weights, names | key !in states[0] && Steady(picks, key, weights, names)
      ensures EveryWindowExact(NamesAt(picks, key), weights)
    {
      CycleIsRun(states, picks, key, weights, names);
      EveryRunIsExactByName(NodesAt(states, picks, key), NamesAt(picks, key), weights, names);
    }
  }

  // ----- calls of the balancer -----

  datatype Call =
    | Select(req: Request, filter: Filter)
    | Retry(req: Request, current: Credential, exclude: set<string>)

  function PickOf(key: SchedKey, live: seq<Credential>, req: Request, c: Credential): Pick {
    Pick(key, c.name, LiveWeights(live, req), Names(live))
  }

  /** The commit of a retry under one filter. */
  ghost function PickUnder(s: Snapshot, credentials: seq<Credential>, req: Request, filter: Filter, c: Credential): Pick {
    var candidates := CandidatesOf(credentials, req, filter);
    match filter.tier
    case AnyTier => PickOf(CycleKeyOf(req, filter, candidates, 0, filter.exclude != {}), s.Live(candidates), req, c)
    case AtLeast(_) =>
      var bucket := Bucket(s.Live(candidates), c.fallbackPriority);
      PickOf(TierKey(req, bucket, c.fallbackPriority), bucket, req, c)
    case Unprioritized => PickOf(TailKey(req, candidates), s.Live(candidates), req, c)
  }

  /** The call decides as promised under its view, and its commit is one in the cycle of its live candidates. */
  ghost predicate Answers(s: Snapshot, credentials: seq<Credential>, call: Call, r: Selection, p: Pick) {
    match call
    case Select(req, filter) =>
      var candidates := CandidatesOf(credentials, req, filter);
      && Decides(s, candidates, r)
      && p == (match r
               case Selected(c) => PickOf(CycleKeyOf(req, filter, candidates, 0, filter.exclude != {}), s.Live(candidates), req, c)
               case Failed(_) => Idle)
    case Retry(req, current, exclude) =>
      var filters := RetryFilters(credentials, current, exclude);
      && DecidesInOrder(s, credentials, req, filters, r)
      && match r
         case Selected(c) =>
           exists i :: 0 <= i < |filters| && FirstLive(s, credentials, req, filters, i)
             && p == PickUnder(s, credentials, req, filters[i], c)
         case Failed(_) => p == Idle
  }

  /** One call, with the view it had and the commit it made. */
  method Answer(b: B.RoundRobin, call: Call, now: int) returns (r: Selection, ghost s: Snapshot, ghost p: Pick)
    requires b.Valid() && b.limiter.backend.clock <= now
    modifies b.Repr
    ensures b.Valid() && fresh(b.Repr - old(b.Repr)) && b.limiter.backend.clock <= now && b.credentials == old(b.credentials)
    ensures s == old(b.See(call.req.model, now))
    ensures Answers(s, b.credentials, call, r, p) && Moves(old(b.cycles), b.cycles, p)
  {
    s := b.See(call.req.model, now);
    match call {
      case Select(req, filter) => r, p := AnswerSelect(b, req, filter, now, s);
      case Retry(req, current, exclude) => r, p := AnswerRetry(b, req, current, exclude, now, s);
    }
  }

  method AnswerSelect(b: B.RoundRobin, req: Request, filter: Filter, now: int, ghost s: Snapshot)
    returns (r: Selection, ghost p: Pick)
    requires b.Valid() && b.limiter.backend.clock <= now && s == b.See(req.model, now)
    modifies b.Repr
    ensures b.Valid() && fresh(b.Repr - old(b.Repr)) && b.limiter.backend.clock <= now && b.credentials == old(b.credentials)
    ensures Answers(s, b.credentials, Select(req, filter), r, p) && Moves(old(b.cycles), b.cycles, p)
  {
    r := b.NextExcluding(req, filter, now);
    ghost var candidates := CandidatesOf(b.credentials, req, filter);
    p := if r.Failed? then Idle
         else PickOf(CycleKeyOf(req, filter, candidates, 0, filter.exclude != {}), s.Live(candidates), req, r.cred);
  }

  lemma UnderMoves(before: Cycles, after: Cycles, s: Snapshot, credentials: seq<Credential>, req: Request,
                   filter: Filter, c: Credential)
    requires CommitsUnder(before, after, s, credentials, req, filter, c)
    ensures Moves(before, after, PickUnder(s, credentials, req, filter, c))
  {
  }

  lemma RetryPick(before: Cycles, after: Cycles, s: Snapshot, credentials: seq<Credential>, req: Request,
                  current: Credential, exclude: set<string>, r: Selection)
    returns (p: Pick)
    requires Retries(before, after, s, credentials, req, RetryFilters(credentials, current, exclude), r)
    ensures Answers(s, credentials, Retry(req, current, exclude), r, p) && Moves(before, after, p)
  {
    var filters := RetryFilters(credentials, current, exclude);
    if r.Failed? {
      p := Idle;
    } else {
      var i :| 0 <= i < |filters| && FirstLive(s, credentials, req, filters, i)
               && CommitsUnder(before, after, s, credentials, req, filters[i], r.cred);
      p := PickUnder(s, credentials, req, filters[i], r.cred);
      UnderMoves(before, after, s, credentials, req, filters[i], r.cred);
    }
  }

  method AnswerRetry(b: B.RoundRobin, req: Request, current: Credential, exclude: set<string>, now: int, ghost s: Snapshot)
    returns (r: Selection, ghost p: Pick)
    requires b.Valid() && b.limiter.backend.clock <= now && s == b.See(req.model, now)
    modifies b.Repr
    ensures b.Valid() && fresh(b.Repr - old(b.Repr)) && b.limiter.backend.clock <= now && b.credentials == old(b.credentials)
    ensures Answers(s, b.credentials, Retry(req, current, exclude), r, p) && Moves(old(b.cycles), b.cycles, p)
  {
    ghost var before := b.cycles;
    r := b.NextRetry(req, current, exclude, now);
    p := RetryPick(before, b.cycles, s, b.credentials, req, current, exclude, r);
  }

  ghost predicate AnswersAt(views: seq<Snapshot>, credentials: seq<Credential>, calls: seq<Call>, answers: seq<Selection>,
                            picks: seq<Pick>, k: int)
    requires 0 <= k < |calls| && |views| == |answers| == |picks| && k < |picks|
  {
    Answers(views[k], credentials, calls[k], answers[k], picks[k])
  }

  /** Every call is answered as promised. */
  ghost predicate AllAnswered(views: seq<Snapshot>, credentials: seq<Credential>, calls: seq<Call>, answers: seq<Selection>,
                              picks: seq<Pick>)
  {
    && |views| == |answers| == |picks| <= |calls|
    && forall k :: 0 <= k < |picks| ==> AnswersAt(views, credentials, calls, answers, picks, k)
  }

  lemma OneMoreAnswer(views: seq<Snapshot>, credentials: seq<Credential>, calls: seq<Call>, answers: seq<Selection>,
                      picks: seq<Pick>, s: Snapshot, r: Selection, p: Pick)
    requires AllAnswered(views, credentials, calls, answers, picks) && |picks| < |calls|
    requires Answers(s, credentials, calls[|picks|], r, p)
    ensures AllAnswered(views + [s], credentials, calls, answers + [r], picks + [p])
  {
    forall k | 0 <= k < |picks| + 1
      ensures AnswersAt(views + [s], credentials, calls, answers + [r], picks + [p], k)
    {
      if k < |picks| {
        assert AnswersAt(views, credentials, calls, answers, picks, k);
      }
    }
  }

  lemma OneMoreMove(states: seq<Cycles>, picks: seq<Pick>, after: Cycles, p: Pick)
    requires Interleaving(states, picks) && Moves(states[|picks|], after, p)
    ensures Interleaving(states + [after], picks + [p])
  {
    forall k | 0 <= k < |picks| + 1 ensures MovesAt(states + [after], picks + [p], k) {
      if k < |picks| {
        assert MovesAt(states, picks, k);
      }
    }
  }

  /** What each call saw and committed, and the cycles before and after each. */
  datatype Log = Log(views: seq<Snapshot>, picks: seq<Pick>, states: seq<Cycles>)

  /** The first n calls are answered as promised, and their commits lead from the first cycles to these. */
  ghost predicate Served(log: Log, credentials: seq<Credential>, calls: seq<Call>, answers: seq<Selection>,
                         first: Cycles, current: Cycles)
  {
    && AllAnswered(log.views, credentials, calls, answers, log.picks)
    && Interleaving(log.states, log.picks) && log.states[0] == first && log.states[|log.picks|] == current
  }

  lemma ServedOneMore(log: Log, credentials: seq<Credential>, calls: seq<Call>, answers: seq<Selection>,
                      first: Cycles, current: Cycles, after: Cycles, s: Snapshot, r: Selection, p: Pick)
    requires Served(log, credentials, calls, answers, first, current) && |answers| < |calls|
    requires Answers(s, credentials, calls[|answers|], r, p) && Moves(current, after, p)
    ensures Served(Log(log.views + [s], log.picks + [p], log.states + [after]), credentials, calls, answers + [r], first, after)
  {
    OneMoreAnswer(log.views, credentials, calls, answers, log.picks, s, r, p);
    OneMoreMove(log.states, log.picks, after, p);
  }

  method ServeNext(b: B.RoundRobin, calls: seq<Call>, now: int, ghost log: Log, answers: seq<Selection>, ghost first: Cycles)
    returns (r: Selection, ghost more: Log)
    requires b.Valid() && b.limiter.backend.clock <= now
    requires |answers| < |calls| && Served(log, b.credentials, calls, answers, first, b.cycles)
    modifies b.Repr
    ensures b.Valid() && fresh(b.Repr - old(b.Repr)) && b.limiter.backend.clock <= now && b.credentials == old(b.credentials)
    ensures Served(more, b.credentials, calls, answers + [r], first, b.cycles)
  {
    ghost var before := b.cycles;
    ghost var s, p;
    r, s, p := Answer(b, calls[|answers|], now);
    more := Log(log.views + [s], log.picks + [p], log.states + [b.cycles]);
    ServedOneMore(log, b.credentials, calls, answers, first, before, b.cycles, s, r, p);
  }

  /**
   Serves the calls of any number of clients in the order in which they get hold of the balancer. In every cycle not used
   before whose commits see the same names and weights live, whichever calls they come from, any W consecutive commits
   name each credential exactly its weight times.
   */
  method ServeCalls(b: B.RoundRobin, calls: seq<Call>, times: seq<int>) returns (answers: seq<Selection>, ghost log: Log)
    requires b.Valid() && |calls| == |times| && R.From(b.limiter.backend.clock, times)
    modifies b.Repr
    ensures b.Valid() && fresh(b.Repr - old(b.Repr)) && b.credentials == old(b.credentials) && |answers| == |calls|
    ensures Served(log, b.credentials, calls, answers, old(b.cycles), b.cycles)
    ensures FairCycles(old(b.cycles), log.picks)
  {
    answers, log := [], Log([], [], [b.cycles]);
    for n := 0 to |calls|
      invariant b.Valid() && fresh(b.Repr - old(b.Repr)) && b.credentials == old(b.credentials)
      invariant n < |calls| ==> b.limiter.backend.clock <= times[n]
      invariant |answers| == n && Served(log, b.credentials, calls, answers, old(b.cycles), b.cycles)
    {
      ghost var repr, grown := b.Repr, b.Repr - old(b.Repr);
      label Serving:
      var r;
      r, log := ServeNext(b, calls, times[n], log, answers, old(b.cycles));
      answers := answers + [r];
      ghost var more := b.Repr - repr;
      assert fresh@Serving(more);
      B.FreshUnion(b.Repr, repr, old(b.Repr));
      assert fresh(more + grown);
    }
    EveryCycleIsFair(log.states, log.picks);
  }
}
