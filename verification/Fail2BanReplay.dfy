/** What a whole history of responses, checks and unbans leaves behind. */
module Fail2BanReplay {
  import opened Collections
  import opened Fail2Ban

  datatype Event =
    | Response(credential: string, model: string, code: int, at: int)
    | Check(credential: string, model: string, at: int)
    | Lift(credential: string, model: string, at: int)
    | LiftAll(credential: string, at: int)

  /** The table after one event; each case is what the corresponding method ensures. */
  ghost function Apply(t: Table, policy: Policy, e: Event): Table {
    match e
    case Response(c, m, code, at) => t.Put(BanKey(c, m), Responded(t.At(BanKey(c, m)), policy, code, at))
    case Check(c, m, at) => t.Put(BanKey(c, m), Expired(t.At(BanKey(c, m)), at))
    case Lift(c, m, at) => t.Put(BanKey(c, m), Unbanned(t.At(BanKey(c, m))))
    case LiftAll(c, at) => t.WithoutPrefix(c + "|")
  }

  ghost function After(events: seq<Event>, policy: Policy): Table {
    if events == [] then EMPTY
    else Apply(After(events[..|events| - 1], policy), policy, events[|events| - 1])
  }

  /** Credential names free of the separator. */
  ghost predicate Plain(name: string) {
    '|' !in name
  }

  ghost predicate History(events: seq<Event>) {
    && (forall i :: 0 <= i < |events| ==> Plain(events[i].credential))
    && (forall i, j :: 0 <= i < j < |events| ==> events[i].at <= events[j].at)
  }

  /** An abstract pair that sees only its own events and loses its ban the moment it expires. */
  ghost function Replay(events: seq<Event>, policy: Policy, credential: string, model: string): Pair {
    if events == [] then CLEAR
    else
      var p := Replay(events[..|events| - 1], policy, credential, model);
      var e := events[|events| - 1];
      if e.credential != credential || (!e.LiftAll? && e.model != model) then p
      else
        var current := Expired(p, e.at);
        match e
        case Response(_, _, code, at) => if current.ban.Some? then current else Counted(current, policy, code, at)
        case Check(_, _, _) => current
        case Lift(_, _, _) => Unbanned(current)
        case LiftAll(_, _) => Unbanned(current)
  }

  // ----- keys -----

  /** Up to the first separator a key spells its credential. */
  lemma BanKeyPrefix(c: string, c': string, m: string)
    requires Plain(c) && Plain(c')
    ensures c + "|" <= BanKey(c', m) <==> c == c'
  {
    var key := BanKey(c', m);
    assert key == (c' + "|") + m;
    if c + "|" <= key {
      assert key[|c|] == (c + "|")[|c|] == '|';
      assert key[|c'|] == '|';
      assert c == key[..|c|] == c';
    }
  }

  lemma BanKeyInjective(c: string, m: string, c': string, m': string)
    requires Plain(c) && Plain(c')
    ensures BanKey(c, m) == BanKey(c', m') <==> c == c' && m == m'
  {
    if BanKey(c, m) == BanKey(c', m') {
      assert BanKey(c, m) == (c + "|") + m;
      BanKeyPrefix(c, c', m');
      assert m == BanKey(c, m)[|c| + 1..] == BanKey(c', m')[|c'| + 1..] == m';
    }
  }

  /** Names with a separator can share a key, and then share their bans. */
  lemma SeparatorInNameCollides()
    ensures BanKey("a|b", "c") == BanKey("a", "b|c")
  {
  }

  // ----- expiry -----

  /** The two expiry tests agree at every instant exactly when the duration is not negative. */
  lemma ExpiryTestsAgree(ban: Ban)
    ensures (forall now :: now >= ban.banTime ==> (Lapsed(ban, now) <==> !Active(ban, now))) <==> ban.banDuration >= 0
  {
    if ban.banDuration < 0 {
      assert !Lapsed(ban, ban.banTime) && !Active(ban, ban.banTime);
    }
  }

  /** A single event changes only the pairs it names. */
  lemma EventIsLocal(t: Table, policy: Policy, e: Event, c: string, m: string)
    requires Plain(e.credential) && Plain(c)
    requires e.credential != c || (!e.LiftAll? && e.model != m)
    ensures Apply(t, policy, e).At(BanKey(c, m)) == t.At(BanKey(c, m))
  {
    if e.LiftAll? {
      BanKeyPrefix(e.credential, c, m);
    } else {
      BanKeyInjective(e.credential, e.model, c, m);
    }
  }

  lemma EventOnPair(t: Table, policy: Policy, e: Event, c: string, m: string)
    requires Plain(c) && t.NoEmptyCounters()
    requires e.credential == c && (e.LiftAll? || e.model == m)
    ensures var p := t.At(BanKey(c, m));
      Apply(t, policy, e).At(BanKey(c, m)) ==
        match e
        case Response(_, _, code, at) => Responded(p, policy, code, at)
        case Check(_, _, at) => Expired(p, at)
        case Lift(_, _, _) => Unbanned(p)
        case LiftAll(_, _) => Unbanned(p)
  {
    if e.LiftAll? {
      BanKeyPrefix(c, c, m);
      assert BanKey(c, m) == (c + "|") + m;
    }
  }

  lemma {:induction false} AfterHasCounters(events: seq<Event>, policy: Policy)
    ensures After(events, policy).NoEmptyCounters()
  {
    if events != [] { AfterHasCounters(events[..|events| - 1], policy); }
  }

  /** The instant is not before the last event. */
  ghost predicate Since(events: seq<Event>, now: int) {
    events != [] ==> events[|events| - 1].at <= now
  }

  /** The lazily expired table shows of this pair what the eager replay shows. */
  ghost predicate Agrees(events: seq<Event>, policy: Policy, c: string, m: string, now: int) {
    Expired(After(events, policy).At(BanKey(c, m)), now) == Expired(Replay(events, policy, c, m), now)
  }

  // ----- when the replay is right: no code bans for a negative time -----

  ghost predicate NoNegativeBan(policy: Policy) {
    forall code :: policy.Counts(code) ==> policy.RuleFor(code).banDuration >= 0
  }

  ghost predicate NonNegativeBans(t: Table) {
    forall key :: key in t.banned ==> t.banned[key].banDuration >= 0
  }

  lemma {:induction false} AfterIsSane(events: seq<Event>, policy: Policy)
    requires NoNegativeBan(policy)
    ensures NonNegativeBans(After(events, policy))
  {
    if events != [] { AfterIsSane(events[..|events| - 1], policy); }
  }

  lemma {:induction false} SaneTableAgrees(events: seq<Event>, policy: Policy, c: string, m: string, now: int)
    requires NoNegativeBan(policy) && History(events) && Plain(c) && Since(events, now)
    ensures Agrees(events, policy, c, m, now)
  {
    if events != [] {
      var prefix, e := events[..|events| - 1], events[|events| - 1];
      var t := After(prefix, policy);
      if e.credential != c || (!e.LiftAll? && e.model != m) {
        EventIsLocal(t, policy, e, c, m);
        SaneTableAgrees(prefix, policy, c, m, now);
      } else {
        AfterIsSane(prefix, policy);
        AfterHasCounters(prefix, policy);
        EventOnPair(t, policy, e, c, m);
        SaneTableAgrees(prefix, policy, c, m, e.at);
      }
    }
  }

  // ----- and when every failure bans at once for a negative time -----

  ghost predicate EveryFailureGone(policy: Policy) {
    forall code :: policy.Counts(code) ==> policy.Threshold(code) == 1 && policy.RuleFor(code).banDuration < 0
  }

  /** Nothing shows of the pair: it is clear, or its ban has a negative time. */
  ghost predicate Gone(p: Pair, now: int) {
    match p.ban
    case None => p == CLEAR
    case Some(ban) => ban.banDuration < 0 && ban.banTime <= now
  }

  lemma {:induction false} TableIsGone(events: seq<Event>, policy: Policy, key: string, now: int)
    requires EveryFailureGone(policy) && History(events) && Since(events, now)
    ensures Gone(After(events, policy).At(key), now)
  {
    if events != [] {
      var prefix, e := events[..|events| - 1], events[|events| - 1];
      TableIsGone(prefix, policy, key, e.at);
    }
  }

  lemma {:induction false} ReplayIsGone(events: seq<Event>, policy: Policy, c: string, m: string, now: int)
    requires EveryFailureGone(policy) && History(events) && Since(events, now)
    ensures Gone(Replay(events, policy, c, m), now)
  {
    if events != [] {
      var prefix, e := events[..|events| - 1], events[|events| - 1];
      ReplayIsGone(prefix, policy, c, m, e.at);
    }
  }

  // ----- when it is wrong -----

  function Repeated(e: Event, n: nat): seq<Event> {
    if n == 0 then [] else Repeated(e, n - 1) + [e]
  }

  function Failure(code: int): Event {
    Response("a", "b", code, 0)
  }

  lemma {:induction false} RepeatedHistory(e: Event, n: nat)
    requires Plain(e.credential)
    ensures |Repeated(e, n)| == n && forall i :: 0 <= i < n ==> Repeated(e, n)[i] == e
  {
    if n > 0 { RepeatedHistory(e, n - 1); }
  }

  /** The pair after n failures of one code, up to its threshold. */
  function Failed(policy: Policy, code: int, n: nat): Pair {
    Pair(if n == 0 then map[] else map[code := n],
         if n < policy.Threshold(code) then None else Some(Ban(0, policy.RuleFor(code).banDuration, code)))
  }

  lemma FailedCounts(policy: Policy, code: int, n: nat)
    requires policy.Counts(code) && n < policy.Threshold(code)
    ensures Failed(policy, code, n).ban.None? && Expired(Failed(policy, code, n), 0) == Failed(policy, code, n)
    ensures Counted(Failed(policy, code, n), policy, code, 0) == Failed(policy, code, n + 1)
    ensures Responded(Failed(policy, code, n), policy, code, 0) == Failed(policy, code, n + 1)
  {
  }

  lemma NothingFailed(policy: Policy, code: int)
    ensures BothFailed([], policy, code, 0)
  {
  }

  /** One more failure of the pair, for the table and for the replay. */
  lemma OneMoreFailure(events: seq<Event>, policy: Policy, code: int)
    ensures var p := After(events, policy).At(BanKey("a", "b"));
            After(events + [Failure(code)], policy).At(BanKey("a", "b")) == Responded(p, policy, code, 0)
    ensures var q := Expired(Replay(events, policy, "a", "b"), 0);
            Replay(events + [Failure(code)], policy, "a", "b") == if q.ban.Some? then q else Counted(q, policy, code, 0)
  {
    var more := events + [Failure(code)];
    assert more[..|more| - 1] == events;
    AfterHasCounters(events, policy);
    EventOnPair(After(events, policy), policy, Failure(code), "a", "b");
  }

  /** Table and replay both hold the pair after n failures. */
  ghost predicate BothFailed(events: seq<Event>, policy: Policy, code: int, n: nat) {
    && After(events, policy).At(BanKey("a", "b")) == Failed(policy, code, n)
    && Replay(events, policy, "a", "b") == Failed(policy, code, n)
  }

  lemma FailOnce(events: seq<Event>, more: seq<Event>, policy: Policy, code: int, n: nat)
    requires policy.Counts(code) && n < policy.Threshold(code) && BothFailed(events, policy, code, n)
    requires more == events + [Failure(code)]
    ensures BothFailed(more, policy, code, n + 1)
  {
    OneMoreFailure(events, policy, code);
    FailedCounts(policy, code, n);
  }

  lemma {:induction false} FailuresAddUp(policy: Policy, code: int, n: nat)
    requires policy.Counts(code) && n <= policy.Threshold(code)
    ensures BothFailed(Repeated(Failure(code), n), policy, code, n)
  {
    if n == 0 {
      NothingFailed(policy, code);
    } else {
      var events := Repeated(Failure(code), n - 1);
      FailuresAddUp(policy, code, n - 1);
      FailOnce(events, events + [Failure(code)], policy, code, n - 1);
    }
  }

  /** Enough failures to ban for a negative time, then one that the table swallows and the replay does not. */
  function Swallowing(policy: Policy, banning: int, swallowed: int): seq<Event> {
    Repeated(Failure(banning), policy.Threshold(banning)) + [Failure(swallowed)]
  }

  lemma SwallowingIsHistory(policy: Policy, banning: int, swallowed: int)
    ensures History(Swallowing(policy, banning, swallowed)) && Since(Swallowing(policy, banning, swallowed), 0)
  {
    RepeatedHistory(Failure(banning), policy.Threshold(banning));
    assert forall e :: e in Swallowing(policy, banning, swallowed) ==> e.credential == "a" && e.at == 0;
  }

  lemma FirstFailureShows(policy: Policy, code: int)
    requires policy.Counts(code) && (policy.Threshold(code) > 1 || policy.RuleFor(code).banDuration >= 0)
    ensures Expired(Counted(CLEAR, policy, code, 0), 0) != CLEAR
  {
    assert code in Counted(CLEAR, policy, code, 0).failures;
  }

  lemma SwallowedFailureShows(policy: Policy, banning: int, swallowed: int)
    requires policy.Counts(banning) && policy.RuleFor(banning).banDuration < 0
    requires policy.Counts(swallowed) && (policy.Threshold(swallowed) > 1 || policy.RuleFor(swallowed).banDuration >= 0)
    ensures !Agrees(Swallowing(policy, banning, swallowed), policy, "a", "b", 0)
  {
    var n := policy.Threshold(banning);
    FailuresAddUp(policy, banning, n);
    OneMoreFailure(Repeated(Failure(banning), n), policy, swallowed);
    FirstFailureShows(policy, swallowed);
  }

  /** Over every history and pair, the lazily expired table shows at every later instant what the eager replay shows,
      if and only if no counted code bans for a negative time, or every one does so at its first failure. */
  lemma TableIsReplay(policy: Policy)
    ensures (forall events, c, m, now :: History(events) && Plain(c) && Since(events, now) ==> Agrees(events, policy, c, m, now))
       <==> NoNegativeBan(policy) || EveryFailureGone(policy)
  {
    forall events, c, m, now
      | (NoNegativeBan(policy) || EveryFailureGone(policy)) && History(events) && Plain(c) && Since(events, now)
      ensures Agrees(events, policy, c, m, now)
    {
      if NoNegativeBan(policy) {
        SaneTableAgrees(events, policy, c, m, now);
      } else {
        TableIsGone(events, policy, BanKey(c, m), now);
        ReplayIsGone(events, policy, c, m, now);
      }
    }
    if !NoNegativeBan(policy) && !EveryFailureGone(policy) {
      var banning :| policy.Counts(banning) && policy.RuleFor(banning).banDuration < 0;
      var swallowed :| policy.Counts(swallowed) && (policy.Threshold(swallowed) > 1 || policy.RuleFor(swallowed).banDuration >= 0);
      SwallowingIsHistory(policy, banning, swallowed);
      SwallowedFailureShows(policy, banning, swallowed);
    }
  }

  // ----- thresholds -----

  ghost predicate CountersBelow(failures: map<int, int>, policy: Policy) {
    forall code :: code in failures ==> 1 <= failures[code] < policy.Threshold(code)
  }

  /** Unbanned: every counter is below its threshold. Banned: exactly the banning counter has reached its own. */
  ghost predicate Sound(p: Pair, policy: Policy) {
    match p.ban
    case None => CountersBelow(p.failures, policy)
    case Some(ban) =>
      && ban.errorCode in p.failures
      && p.failures[ban.errorCode] == policy.Threshold(ban.errorCode)
      && ban.banDuration == policy.RuleFor(ban.errorCode).banDuration
      && policy.Tracks(ban.errorCode) && !IsSuccess(ban.errorCode)
      && CountersBelow(p.failures - {ban.errorCode}, policy)
  }

  lemma CountedIsSound(p: Pair, policy: Policy, code: int, now: int)
    requires p.ban.None? && Sound(p, policy)
    ensures Sound(Counted(p, policy, code, now), policy)
  {
  }

  lemma {:induction false} EveryPairIsSound(events: seq<Event>, policy: Policy, key: string)
    ensures Sound(After(events, policy).At(key), policy)
  {
    if events != [] {
      var prefix, e := events[..|events| - 1], events[|events| - 1];
      var t := After(prefix, policy);
      EveryPairIsSound(prefix, policy, key);
      if e.Response? && key == BanKey(e.credential, e.model) {
        var p := t.At(key);
        CountedIsSound(if p.ban.Some? then CLEAR else p, policy, e.code, e.at);
      }
    }
  }

  // ----- the three queries agree -----

  lemma {:induction false} KeysComeFromPairs(events: seq<Event>, policy: Policy, key: string)
    requires History(events) && key in After(events, policy).banned
    ensures exists c, m :: Plain(c) && key == BanKey(c, m)
  {
    var e := events[|events| - 1];
    var t := After(events[..|events| - 1], policy);
    if key in t.banned {
      KeysComeFromPairs(events[..|events| - 1], policy, key);
    } else {
      assert e.Response? && key == BanKey(e.credential, e.model);
    }
  }

  /** HasAnyBan(c) holds exactly when IsBanned holds for some model of c. */
  lemma AnyBanIsSomeBan(events: seq<Event>, policy: Policy, c: string, now: int)
    requires History(events) && Plain(c)
    ensures (exists key :: key in After(events, policy).ActiveKeys(now) && c + "|" <= key)
       <==> (exists m :: BanKey(c, m) in After(events, policy).ActiveKeys(now))
  {
    var active := After(events, policy).ActiveKeys(now);
    forall key | key in active && c + "|" <= key ensures exists m :: BanKey(c, m) in active {
      KeysComeFromPairs(events, policy, key);
      var c', m :| Plain(c') && key == BanKey(c', m);
      BanKeyPrefix(c, c', m);
      assert BanKey(c, m) in active;
    }
    forall m | BanKey(c, m) in active ensures c + "|" <= BanKey(c, m) {
      BanKeyPrefix(c, c, m);
    }
  }

  /** GetBannedCount counts each banned pair once: active keys correspond one to one to banned pairs. */
  lemma CountIsNumberOfBannedPairs(events: seq<Event>, policy: Policy, pairs: set<(string, string)>, now: int)
    requires History(events)
    requires forall c, m :: (c, m) in pairs <==> Plain(c) && BanKey(c, m) in After(events, policy).ActiveKeys(now)
    ensures |After(events, policy).ActiveKeys(now)| == |pairs|
  {
    var active := After(events, policy).ActiveKeys(now);
    forall key | key in active ensures exists pair :: pair in pairs && key == BanKey(pair.0, pair.1) {
      KeysComeFromPairs(events, policy, key);
      var c, m :| Plain(c) && key == BanKey(c, m);
      assert (c, m) in pairs;
    }
    SameSize(active, pairs);
  }

  lemma {:induction false} SameSize(keys: set<string>, pairs: set<(string, string)>)
    requires forall pair :: pair in pairs ==> Plain(pair.0) && BanKey(pair.0, pair.1) in keys
    requires forall key :: key in keys ==> exists pair :: pair in pairs && key == BanKey(pair.0, pair.1)
    ensures |keys| == |pairs|
    decreases |pairs|
  {
    if pairs == {} {
      assert keys == {};
    } else {
      var pair :| pair in pairs;
      var key := BanKey(pair.0, pair.1);
      forall other | other in pairs - {pair} ensures BanKey(other.0, other.1) in keys - {key} {
        BanKeyInjective(pair.0, pair.1, other.0, other.1);
      }
      SameSize(keys - {key}, pairs - {pair});
    }
  }
}
