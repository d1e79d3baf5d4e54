/** The same selection repeated on one balancer: fairness of the names it answers (internal/balancer/roundrobin.go, weighted.go). */
module BalancerRuns {
  import opened Window
  import opened Swrr
  import opened SwrrFairness
  import opened SwrrCycle
  import opened Candidates
  import B = RoundRobin

  /** One selection: what it saw, answered, and left in its cycle. */
  ghost predicate Round(before: map<string, int>, after: map<string, int>, s: Snapshot, candidates: seq<Credential>,
                        req: Request, r: Selection)
  {
    && Decides(s, candidates, r)
    && (r.Selected? ==> Committed(before, r.cred.name, after, LiveWeights(s.Live(candidates), req), Names(s.Live(candidates))))
    && (r.Failed? ==> after == before)
  }

  /** The counters before and after every selection, and the view each one had. */
  ghost predicate Rounds(states: seq<map<string, int>>, views: seq<Snapshot>, candidates: seq<Credential>, req: Request,
                         answers: seq<Selection>)
  {
    && |states| == |answers| + 1 && |views| == |answers|
    && forall k :: 0 <= k < |answers| ==> SelectionAt(states, views, candidates, req, answers, k)
  }

  ghost predicate SelectionAt(states: seq<map<string, int>>, views: seq<Snapshot>, candidates: seq<Credential>, req: Request,
                          answers: seq<Selection>, k: int)
    requires 0 <= k < |answers| == |views| && |states| == |answers| + 1
  {
    Round(states[k], states[k + 1], views[k], candidates, req, answers[k])
  }

  lemma AddRound(states: seq<map<string, int>>, views: seq<Snapshot>, candidates: seq<Credential>, req: Request,
                 answers: seq<Selection>, after: map<string, int>, s: Snapshot, r: Selection)
    requires Rounds(states, views, candidates, req, answers)
    requires Round(states[|answers|], after, s, candidates, req, r)
    ensures Rounds(states + [after], views + [s], candidates, req, answers + [r])
  {
    forall k | 0 <= k < |answers| + 1
      ensures SelectionAt(states + [after], views + [s], candidates, req, answers + [r], k)
    {
      if k < |answers| {
        assert SelectionAt(states, views, candidates, req, answers, k);
      }
    }
  }

  /** Every selection saw the same credentials live. */
  ghost predicate Steady(views: seq<Snapshot>, candidates: seq<Credential>, live: seq<Credential>) {
    live != [] && forall k :: 0 <= k < |views| ==> views[k].Live(candidates) == live
  }

  /** No candidate is banned or over a limit. */
  ghost predicate Open(s: Snapshot, candidates: seq<Credential>) {
    forall c :: c in candidates ==> !s.Banned(c) && s.HasRoom(c)
  }

  lemma {:induction false} OpenIsAllLive(s: Snapshot, candidates: seq<Credential>)
    requires Open(s, candidates)
    ensures s.Live(candidates) == candidates
  {
    if candidates != [] {
      var n := |candidates| - 1;
      assert candidates == candidates[..n] + [candidates[n]];
      OpenIsAllLive(s, candidates[..n]);
    }
  }

  /** Selections are steady over all candidates while none of them is banned or over a limit. */
  lemma OpenIsSteady(views: seq<Snapshot>, candidates: seq<Credential>)
    requires candidates != [] && forall k :: 0 <= k < |views| ==> Open(views[k], candidates)
    ensures Steady(views, candidates, candidates)
  {
    forall k | 0 <= k < |views| ensures views[k].Live(candidates) == candidates {
      OpenIsAllLive(views[k], candidates);
    }
  }

  function Chosen(answers: seq<Selection>): (names: seq<string>)
    ensures |names| == |answers|
  {
    seq(|answers|, i requires 0 <= i < |answers| => if answers[i].Selected? then answers[i].cred.name else "")
  }

  lemma AnswersWhileLive(s: Snapshot, candidates: seq<Credential>, r: Selection)
    requires Decides(s, candidates, r) && s.Live(candidates) != []
    ensures r.Selected?
  {
    NoneLiveWhenEmpty(s, candidates);
  }

  /** Repeated selections over a fixed live set are a run of its cycle. */
  lemma SteadyIsRun(states: seq<map<string, int>>, views: seq<Snapshot>, candidates: seq<Credential>, req: Request,
                    answers: seq<Selection>, live: seq<Credential>)
    requires Rounds(states, views, candidates, req, answers) && Steady(views, candidates, live) && states[0] == map[]
    ensures IsRun(states, Chosen(answers), LiveWeights(live, req), Names(live))
  {
    var names := Chosen(answers);
    forall k | 0 <= k < |names| ensures SwrrCycle.RoundAt(states, names, LiveWeights(live, req), Names(live), k) {
      assert SelectionAt(states, views, candidates, req, answers, k);
      AnswersWhileLive(views[k], candidates, answers[k]);
    }
  }

  /** Live candidates are weighed by name; namesakes share the weight of the last one. */
  lemma {:induction false} LiveWeighsNames(live: seq<Credential>, req: Request)
    ensures live != [] ==> WeighsNames(LiveWeights(live, req), Names(live))
    ensures live == [] ==> LiveWeights(live, req) == map[] && Names(live) == []
  {
    if live != [] {
      var n := |live| - 1;
      LiveWeighsNames(live[..n], req);
      assert Names(live) == Names(live[..n]) + [live[n].name];
    }
  }

  /** The fairness of the schedule, for the answers of the balancer. */
  lemma SteadyIsFair(states: seq<map<string, int>>, views: seq<Snapshot>, candidates: seq<Credential>, req: Request,
                     answers: seq<Selection>, live: seq<Credential>)
    requires Rounds(states, views, candidates, req, answers) && Steady(views, candidates, live) && states[0] == map[]
    ensures EveryWindowExact(Chosen(answers), LiveWeights(live, req))
  {
    SteadyIsRun(states, views, candidates, req, answers, live);
    LiveWeighsNames(live, req);
    EveryRunIsExactByName(states, Chosen(answers), LiveWeights(live, req), Names(live));
  }

  /** Fair for every live set the selections could have seen throughout. */
  ghost predicate FairWhileSteady(views: seq<Snapshot>, candidates: seq<Credential>, req: Request, answers: seq<Selection>) {
    forall live | Steady(views, candidates, live) :: EveryWindowExact(Chosen(answers), LiveWeights(live, req))
  }

  lemma FreshCycleIsFair(states: seq<map<string, int>>, views: seq<Snapshot>, candidates: seq<Credential>, req: Request,
                         answers: seq<Selection>)
    requires Rounds(states, views, candidates, req, answers) && states[0] == map[]
    ensures FairWhileSteady(views, candidates, req, answers)
  {
    forall live | Steady(views, candidates, live) ensures EveryWindowExact(Chosen(answers), LiveWeights(live, req)) {
      SteadyIsFair(states, views, candidates, req, answers, live);
    }
  }

  /** One selection, with the view it had. */
  method SelectOnce(b: B.RoundRobin, req: Request, filter: Filter, now: int) returns (r: Selection, ghost s: Snapshot)
    requires b.Valid() && b.limiter.backend.clock <= now
    modifies b.Repr
    ensures b.Valid() && fresh(b.Repr - old(b.Repr)) && b.limiter.backend.clock <= now
    ensures b.credentials == old(b.credentials) && s == old(b.See(req.model, now))
    ensures var candidates := CandidatesOf(b.credentials, req, filter);
      var key := CycleKeyOf(req, filter, candidates, 0, filter.exclude != {});
      Round(old(b.Nodes(key)), b.Nodes(key), s, candidates, req, r)
  {
    s := b.See(req.model, now);
    r := b.NextExcluding(req, filter, now);
  }

  /** Time does not go back, from the latest operation on. */
  ghost predicate From(clock: int, times: seq<int>) {
    Ascending(times) && (times != [] ==> clock <= times[0])
  }

  method SelectNext(b: B.RoundRobin, req: Request, filter: Filter, now: int, ghost views: seq<Snapshot>, answers: seq<Selection>,
                    ghost states: seq<map<string, int>>, ghost key: SchedKey)
    returns (r: Selection, ghost s: Snapshot)
    requires b.Valid() && b.limiter.backend.clock <= now
    requires key == KeyOf(b.credentials, req, filter)
    requires Rounds(states, views, CandidatesOf(b.credentials, req, filter), req, answers) && states[|answers|] == b.Nodes(key)
    modifies b.Repr
    ensures b.Valid() && fresh(b.Repr - old(b.Repr)) && b.limiter.backend.clock <= now && b.credentials == old(b.credentials)
    ensures Rounds(states + [b.Nodes(key)], views + [s], CandidatesOf(b.credentials, req, filter), req, answers + [r])
  {
    r, s := SelectOnce(b, req, filter, now);
    AddRound(states, views, CandidatesOf(b.credentials, req, filter), req, answers, b.Nodes(key), s, r);
  }

  /** The one cycle of a selection. */
  function KeyOf(credentials: seq<Credential>, req: Request, filter: Filter): SchedKey {
    CycleKeyOf(req, filter, CandidatesOf(credentials, req, filter), 0, filter.exclude != {})
  }

  /**
   Repeats one selection at the given instants. On a cycle not used before, as long as each selection sees the same
   credentials live, any W consecutive answers name each of them exactly its weight times.
   */
  method SelectRepeatedly(b: B.RoundRobin, req: Request, filter: Filter, times: seq<int>)
    returns (answers: seq<Selection>, ghost views: seq<Snapshot>, ghost states: seq<map<string, int>>)
    requires b.Valid() && From(b.limiter.backend.clock, times)
    modifies b.Repr
    ensures b.Valid() && fresh(b.Repr - old(b.Repr)) && b.credentials == old(b.credentials) && |answers| == |times|
    ensures var candidates := CandidatesOf(b.credentials, req, filter);
      var key := KeyOf(b.credentials, req, filter);
      && Rounds(states, views, candidates, req, answers)
      && states[0] == old(b.Nodes(key)) && states[|times|] == b.Nodes(key)
      && (key !in old(b.cycles) ==> FairWhileSteady(views, candidates, req, answers))
  {
    ghost var candidates, key := CandidatesOf(b.credentials, req, filter), KeyOf(b.credentials, req, filter);
    answers, views, states := [], [], [b.Nodes(key)];
    for n := 0 to |times|
      invariant b.Valid() && fresh(b.Repr - old(b.Repr)) && b.credentials == old(b.credentials)
      invariant n < |times| ==> b.limiter.backend.clock <= times[n]
      invariant |answers| == n && Rounds(states, views, candidates, req, answers)
      invariant states[0] == old(b.Nodes(key)) && states[n] == b.Nodes(key)
    {
      ghost var repr, grown := b.Repr, b.Repr - old(b.Repr);
      label Selecting:
      var r, s := SelectNext(b, req, filter, times[n], views, answers, states, key);
      answers, views, states := answers + [r], views + [s], states + [b.Nodes(key)];
      ghost var more := b.Repr - repr;
      assert fresh@Selecting(more);
      B.FreshUnion(b.Repr, repr, old(b.Repr));
      assert fresh(more + grown);
    }
    if key !in old(b.cycles) {
      FreshCycleIsFair(states, views, candidates, req, answers);
    }
  }
}
