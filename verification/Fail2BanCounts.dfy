/** What the failure counters count, and when a ban starts and ends, over whole histories. */
module Fail2BanCounts {
  import opened Collections
  import opened Fail2Ban
  import opened Fail2BanReplay

  /** The table after one call for every event. */
  method RunEvents(policy: Policy, events: seq<Event>) returns (table: Fail2Ban)
    ensures fresh(table) && table.policy == policy
    ensures table.State() == After(events, policy)
  {
    table := new Fail2Ban(policy);
    for i := 0 to |events|
      invariant fresh(table) && table.policy == policy && table.State().NoEmptyCounters()
      invariant table.State() == After(events[..i], policy)
    {
      assert events[..i + 1][..i] == events[..i];
      match events[i] {
        case Response(c, m, code, at) => table.RecordResponse(c, m, code, at);
        case Check(c, m, at) => var _ := table.IsBanned(c, m, at);
        case Lift(c, m, _) => table.Unban(c, m);
        case LiftAll(c, _) => table.UnbanCredential(c);
      }
    }
    assert events[..|events|] == events;
  }

  /** The ban kept for a pair. */
  ghost function BanOf(events: seq<Event>, policy: Policy, c: string, m: string): Option<Ban> {
    After(events, policy).At(BanKey(c, m)).ban
  }

  ghost predicate Named(e: Event, c: string, m: string) {
    e.credential == c && (e.LiftAll? || e.model == m)
  }

  /** An event of the pair ends its ban: it lifts it, or finds it expired. */
  predicate Ends(e: Event, ban: Ban) {
    match e
    case Response(_, _, _, at) => ban.banDuration > 0 && at > ban.banTime + ban.banDuration
    case Check(_, _, at) => ban.banDuration != 0 && at > ban.banTime + ban.banDuration
    case Lift(_, _, _) => true
    case LiftAll(_, _) => true
  }

  /** The i-th event is a success of the pair, or ends its ban. */
  ghost predicate ResetAt(events: seq<Event>, policy: Policy, c: string, m: string, i: nat)
    requires i < |events|
  {
    var e, ban := events[i], BanOf(events[..i], policy, c, m);
    Named(e, c, m) && ((e.Response? && 200 <= e.code < 300) || (ban.Some? && Ends(e, ban.value)))
  }

  /** Where the counting of a pair starts. */
  ghost predicate LastReset(events: seq<Event>, policy: Policy, c: string, m: string, from: nat) {
    && (from == 0 || (from < |events| && ResetAt(events, policy, c, m, from)))
    && forall i: nat :: from < i < |events| ==> !ResetAt(events, policy, c, m, i)
  }

  /** The responses of a pair with one code, from a position on. */
  ghost function Hits(events: seq<Event>, c: string, m: string, code: int, from: nat): set<nat> {
    set i: nat | from <= i < |events| && events[i].Response?
              && events[i].credential == c && events[i].model == m && events[i].code == code
  }

  ghost predicate PlainNames(events: seq<Event>) {
    forall i :: 0 <= i < |events| ==> Plain(events[i].credential)
  }

  // ----- one event -----

  lemma ResetOfPrefix(events: seq<Event>, policy: Policy, c: string, m: string, n: nat, i: nat)
    requires i < n <= |events|
    ensures ResetAt(events[..n], policy, c, m, i) == ResetAt(events, policy, c, m, i)
  {
    assert events[..n][..i] == events[..i];
  }

  lemma LastResetOfPrefix(events: seq<Event>, policy: Policy, c: string, m: string, from: nat)
    requires events != [] && LastReset(events, policy, c, m, from) && from < |events|
    requires !ResetAt(events, policy, c, m, |events| - 1)
    ensures from == 0 || from < |events| - 1
    ensures LastReset(events[..|events| - 1], policy, c, m, from)
  {
    var n := |events| - 1;
    forall i: nat | i < n ensures ResetAt(events[..n], policy, c, m, i) == ResetAt(events, policy, c, m, i) {
      ResetOfPrefix(events, policy, c, m, n, i);
    }
  }

  /** There is exactly one such position. */
  lemma {:induction false} LastResetExists(events: seq<Event>, policy: Policy, c: string, m: string) returns (from: nat)
    ensures LastReset(events, policy, c, m, from)
    ensures forall other: nat :: LastReset(events, policy, c, m, other) ==> other == from
  {
    from := |events|;
    while from > 0 && (from == |events| || !ResetAt(events, policy, c, m, from))
      invariant from <= |events|
      invariant forall i: nat :: from < i < |events| ==> !ResetAt(events, policy, c, m, i)
    {
      from := from - 1;
    }
  }

  lemma OneMoreHit(events: seq<Event>, c: string, m: string, code: int, from: nat)
    requires events != [] && from < |events|
    ensures var n := |events| - 1; var e := events[n];
      var hit := e.Response? && e.credential == c && e.model == m && e.code == code;
      |Hits(events, c, m, code, from)| == |Hits(events[..n], c, m, code, from)| + if hit then 1 else 0
  {
    var n := |events| - 1;
    var before := Hits(events[..n], c, m, code, from);
    assert Hits(events, c, m, code, from) == before || Hits(events, c, m, code, from) == before + {n};
    assert n !in before;
  }

  /** The pair after its last event. */
  lemma LastStep(events: seq<Event>, policy: Policy, c: string, m: string)
    requires events != [] && PlainNames(events) && Plain(c)
    ensures var n := |events| - 1; var e, p := events[n], After(events[..n], policy).At(BanKey(c, m));
      After(events, policy).At(BanKey(c, m)) ==
        if !Named(e, c, m) then p
        else match e
        case Response(_, _, code, at) => Responded(p, policy, code, at)
        case Check(_, _, at) => Expired(p, at)
        case Lift(_, _, _) => Unbanned(p)
        case LiftAll(_, _) => Unbanned(p)
  {
    var n := |events| - 1;
    var t := After(events[..n], policy);
    if Named(events[n], c, m) {
      AfterHasCounters(events[..n], policy);
      EventOnPair(t, policy, events[n], c, m);
    } else {
      EventIsLocal(t, policy, events[n], c, m);
    }
  }

  // ----- the counters -----

  /** The counter of one code is the number of responses with that code, from a position on. */
  ghost predicate CountsHits(events: seq<Event>, policy: Policy, c: string, m: string, code: int, from: nat) {
    var failures := After(events, policy).At(BanKey(c, m)).failures;
    var tracked := (policy.errorCodes == {} || code in policy.errorCodes) && !(200 <= code < 300);
    var hits := |Hits(events, c, m, code, from)|;
    && (code in failures <==> tracked && hits > 0)
    && (code in failures ==> failures[code] == hits)
  }

  lemma NothingBefore(events: seq<Event>, c: string, m: string, code: int)
    ensures Hits(events, c, m, code, |events|) == {}
  {
  }

  /** While a pair is not banned, its counter of each tracked code is the number of its responses with that code since
      its last success, lifted ban or expired ban, and no other code has one. */
  lemma {:induction false} CountersCountResponses(events: seq<Event>, policy: Policy, c: string, m: string, code: int, from: nat)
    requires PlainNames(events) && Plain(c)
    requires BanOf(events, policy, c, m).None? && LastReset(events, policy, c, m, from)
    ensures CountsHits(events, policy, c, m, code, from)
  {
    if events != [] {
      var n := |events| - 1;
      LastStep(events, policy, c, m);
      OneMoreHit(events, c, m, code, from);
      if ResetAt(events, policy, c, m, n) {
        assert from == n;
        NothingBefore(events[..n], c, m, code);
      } else {
        LastResetOfPrefix(events, policy, c, m, from);
        CountersCountResponses(events[..n], policy, c, m, code, from);
      }
    }
  }

  // ----- the bans -----

  /** Where the counting of a pair that a response finds without a ban in force starts. */
  lemma CountAtResponse(events: seq<Event>, policy: Policy, c: string, m: string, code: int, from: nat)
    requires PlainNames(events) && Plain(c) && events != [] && LastReset(events, policy, c, m, from)
    requires var n := |events| - 1; var e := events[n];
      && e.Response? && e.credential == c && e.model == m && e.code == code && !(200 <= code < 300)
      && (policy.errorCodes == {} || code in policy.errorCodes)
    ensures var n := |events| - 1; var p := After(events[..n], policy).At(BanKey(c, m));
      (p.ban.Some? ==> Ends(events[n], p.ban.value)) ==>
        |Hits(events, c, m, code, from)| == 1 + if p.ban.Some? then 0 else Count(p.failures, code)
  {
    var n := |events| - 1;
    var ban := BanOf(events[..n], policy, c, m);
    OneMoreHit(events, c, m, code, from);
    if ResetAt(events, policy, c, m, n) {
      assert from == n;
      NothingBefore(events[..n], c, m, code);
    } else if ban.None? {
      LastResetOfPrefix(events, policy, c, m, from);
      CountersCountResponses(events[..n], policy, c, m, code, from);
    }
  }

  /** A ban starts exactly at the response, of a pair with no ban or an expired one, that makes the responses with its
      tracked code since the last reset as many as the rule's attempts, 1 at least; it keeps that instant, that code and
      the rule's duration. */
  lemma BanStarts(events: seq<Event>, policy: Policy, c: string, m: string, from: nat)
    requires PlainNames(events) && Plain(c) && events != [] && LastReset(events, policy, c, m, from)
    ensures var n := |events| - 1;
      var e, was, ban := events[n], BanOf(events[..n], policy, c, m), BanOf(events, policy, c, m);
      var counted := e.Response? && e.credential == c && e.model == m && !(200 <= e.code < 300)
                  && (policy.errorCodes == {} || e.code in policy.errorCodes);
      var rule := if e.Response? && e.code in policy.rules then policy.rules[e.code] else policy.fallback;
      var enough := counted && |Hits(events, c, m, e.code, from)| == if rule.maxAttempts < 1 then 1 else rule.maxAttempts;
      && (ban.Some? && ban != was <==> enough && (was.Some? ==> Ends(e, was.value)))
      && (ban.Some? && ban != was ==> ban == Some(Ban(e.at, rule.banDuration, e.code)))
  {
    var n := |events| - 1;
    LastStep(events, policy, c, m);
    var e := events[n];
    if e.Response? && Named(e, c, m) && policy.Counts(e.code) {
      CountAtResponse(events, policy, c, m, e.code, from);
      EveryPairIsSound(events[..n], policy, BanKey(c, m));
    }
  }

  /** A ban lasts until an event of its pair lifts it or finds it expired. */
  lemma BanLasts(events: seq<Event>, policy: Policy, c: string, m: string)
    requires PlainNames(events) && Plain(c) && events != []
    ensures var n := |events| - 1; var was := BanOf(events[..n], policy, c, m);
      was.Some? ==> (BanOf(events, policy, c, m) == was <==> !(Named(events[n], c, m) && Ends(events[n], was.value)))
  {
    LastStep(events, policy, c, m);
  }
}
