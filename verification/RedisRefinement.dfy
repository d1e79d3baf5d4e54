/** The stored sets show the same window as the in-process backend, for requests and tokens of every key
    (internal/ratelimit/redis_backend.go, local_backend.go). */
module RedisRefinement {
  import opened Collections
  import opened Window
  import opened RedisScripts
  import opened RedisAdmission
  import L = LocalBackend

  /** Everything recorded for one key, with the members it was recorded under. */
  datatype KeyHistory = KeyHistory(requests: seq<Event>, tokens: seq<TokenEvent>)

  const NOTHING := KeyHistory([], [])

  type Histories = map<string, KeyHistory>

  function HistoryOf(hist: Histories, key: string): KeyHistory {
    if key in hist then hist[key] else NOTHING
  }

  /** The history without its members: what the in-process backend knows. */
  function Shown(h: KeyHistory): Usage {
    Usage(Times(h.requests), Uses(h.tokens))
  }

  ghost predicate PlainIds(tokens: seq<TokenEvent>) {
    forall i :: 0 <= i < |tokens| ==> ':' !in tokens[i].uuid
  }

  ghost predicate RequestsShow(z: ZSet, h: seq<Event>, clock: int) {
    RedisScripts.Recorded(h, clock) && Represents(z, h, clock)
  }

  ghost predicate TokensShow(z: ZSet, h: seq<TokenEvent>, clock: int) {
    PlainIds(h) && RequestsShow(z, TokenEvents(h), clock)
  }

  ghost predicate KeyShows(s: Store, h: KeyHistory, key: string, clock: int) {
    RequestsShow(SetOf(s.rpm, key), h.requests, clock) && TokensShow(SetOf(s.tpm, key), h.tokens, clock)
  }

  /** Every key's sets show its history, now and at any later time. */
  ghost predicate StoreShows(s: Store, hist: Histories, clock: int) {
    forall key :: KeyShows(s, HistoryOf(hist, key), key, clock)
  }

  /** The in-process usage is the same history. */
  ghost predicate UsageShows(usage: map<string, Usage>, hist: Histories) {
    forall key :: L.UsageOf(usage, key) == Shown(HistoryOf(hist, key))
  }

  // ----- one set -----

  lemma ShowsLater(z: ZSet, h: seq<Event>, clock: int, now: int)
    requires RequestsShow(z, h, clock) && clock <= now
    ensures RequestsShow(z, h, now)
  {
  }

  lemma ShowsPruned(z: ZSet, after: ZSet, h: seq<Event>, clock: int, now: int)
    requires RequestsShow(z, h, clock) && clock <= now && MaybePruned(z, after, now)
    ensures RequestsShow(after, h, now)
  {
    ShowsLater(z, h, clock, now);
    PruneRepresents(z, h, clock, now);
  }

  lemma ShowsAdded(z: ZSet, h: seq<Event>, clock: int, member: string, now: int, ttl: int)
    requires RequestsShow(z, h, clock) && 0 <= clock <= now && !Members(h, member) && ttl >= WINDOW
    ensures RequestsShow(Add(z, member, now, ttl), h + [Event(member, now)], now)
  {
    AddRepresents(z, h, clock, member, now, ttl);
  }

  // ----- the checks -----

  lemma ChecksRefine(s: Store, h: KeyHistory, key: string, clock: int, rpmLimit: int, tpmLimit: int, now: int)
    requires KeyShows(s, h, key, clock) && clock <= now
    ensures KeyBelow(s, key, rpmLimit, tpmLimit, now) <==>
            RequestsBelow(Shown(h), rpmLimit, now) && TokensBelow(Shown(h), tpmLimit, now)
  {
    TableSize(h.requests, now, clock);
    assert Entries(SetOf(s.rpm, key), now) == Table(h.requests, now);
    CheckTPMRefines(SetOf(s.tpm, key), h.tokens, clock, tpmLimit, now);
  }

  /** luaTryAllowAll decides exactly as the in-process backend does on the same history. */
  lemma DecisionsRefine(s: Store, hist: Histories, usage: map<string, Usage>, clock: int, q: Query, now: int)
    requires StoreShows(s, hist, clock) && UsageShows(usage, hist) && clock <= now
    ensures AllHold(s, q, now) <==>
            L.AllBelow(usage, q.credKey, q.credRPM, q.credTPM, q.modelKey, q.modelRPM, q.modelTPM, now)
  {
    assert KeyShows(s, HistoryOf(hist, q.credKey), q.credKey, clock);
    assert KeyShows(s, HistoryOf(hist, q.modelKey), q.modelKey, clock);
    ChecksRefine(s, HistoryOf(hist, q.credKey), q.credKey, clock, q.credRPM, q.credTPM, now);
    ChecksRefine(s, HistoryOf(hist, q.modelKey), q.modelKey, clock, q.modelRPM, q.modelTPM, now);
  }

  // ----- recording -----

  function WithRequest(hist: Histories, key: string, e: Event): Histories {
    hist[key := HistoryOf(hist, key).(requests := HistoryOf(hist, key).requests + [e])]
  }

  function WithTokens(hist: Histories, key: string, e: TokenEvent): Histories {
    hist[key := HistoryOf(hist, key).(tokens := HistoryOf(hist, key).tokens + [e])]
  }

  /** One request under the credential, and one under the model when there is one. */
  function WithAdmission(hist: Histories, q: Query, now: int): Histories {
    var recorded := WithRequest(hist, q.credKey, Event(q.credMember, now));
    if q.modelKey == "" then recorded else WithRequest(recorded, q.modelKey, Event(q.modelMember, now))
  }

  lemma AdmissionHistory(hist: Histories, q: Query, now: int, key: string)
    requires q.credKey != q.modelKey
    ensures HistoryOf(WithAdmission(hist, q, now), key) ==
            match MemberFor(q, key)
            case None => HistoryOf(hist, key)
            case Some(m) => HistoryOf(hist, key).(requests := HistoryOf(hist, key).requests + [Event(m, now)])
  {
  }

  ghost predicate FreshMembers(hist: Histories, q: Query) {
    && !Members(HistoryOf(hist, q.credKey).requests, q.credMember)
    && (q.modelKey != "" ==> !Members(HistoryOf(hist, q.modelKey).requests, q.modelMember))
  }

  /** The sets after luaTryAllowAll show the history with the admission, if there was one. */
  lemma StoreAfterAttempt(s: Store, hist: Histories, clock: int, q: Query, now: int, ttl: int)
    requires StoreShows(s, hist, clock) && 0 <= clock <= now && q.credKey != q.modelKey
    requires FreshMembers(hist, q) && ttl >= WINDOW
    ensures StoreShows(AllowedAll(s, q, now, ttl), if AllHold(s, q, now) then WithAdmission(hist, q, now) else hist, now)
  {
    var t := AllowedAll(s, q, now, ttl);
    var after := if AllHold(s, q, now) then WithAdmission(hist, q, now) else hist;
    forall key ensures KeyShows(t, HistoryOf(after, key), key, now) {
      KeyAfterAttempt(s, hist, clock, q, now, ttl, key);
    }
  }

  lemma KeyAfterAttempt(s: Store, hist: Histories, clock: int, q: Query, now: int, ttl: int, key: string)
    requires StoreShows(s, hist, clock) && 0 <= clock <= now && q.credKey != q.modelKey
    requires FreshMembers(hist, q) && ttl >= WINDOW
    ensures KeyShows(AllowedAll(s, q, now, ttl),
                     HistoryOf(if AllHold(s, q, now) then WithAdmission(hist, q, now) else hist, key), key, now)
  {
    var t, h := AllowedAll(s, q, now, ttl), HistoryOf(hist, key);
    assert KeyShows(s, h, key, clock);
    AllowedAllSets(s, q, now, ttl, key);
    AdmissionHistory(hist, q, now, key);
    ShowsPruned(SetOf(s.tpm, key), SetOf(t.tpm, key), TokenEvents(h.tokens), clock, now);
    if AllHold(s, q, now) && MemberFor(q, key).Some? {
      ShowsAdded(SetOf(s.rpm, key), h.requests, clock, MemberFor(q, key).value, now, ttl);
    } else {
      ShowsPruned(SetOf(s.rpm, key), SetOf(t.rpm, key), h.requests, clock, now);
    }
  }

  /** The in-process buffers have room for the admission. */
  ghost predicate AdmissionFits(usage: map<string, Usage>, q: Query, now: int) {
    && |Recent(L.UsageOf(usage, q.credKey).requests, now)| < MAX_REQUESTS
    && (q.modelKey != "" ==> |Recent(L.UsageOf(usage, q.modelKey).requests, now)| < MAX_REQUESTS)
  }

  /** A limit within the buffer leaves room for whatever it admits. */
  lemma LimitedAdmissionFits(usage: map<string, Usage>, q: Query, now: int)
    requires q.credRPM != UNLIMITED && q.credRPM <= MAX_REQUESTS
    requires q.modelKey != "" ==> q.modelRPM != UNLIMITED && q.modelRPM <= MAX_REQUESTS
    requires L.AllBelow(usage, q.credKey, q.credRPM, q.credTPM, q.modelKey, q.modelRPM, q.modelTPM, now)
    ensures AdmissionFits(usage, q, now)
  {
  }

  lemma UsageOfAdmission(usage: map<string, Usage>, q: Query, now: int, key: string)
    requires q.credKey != q.modelKey && AdmissionFits(usage, q, now)
    ensures var u := L.UsageOf(usage, key);
            L.UsageOf(L.RecordAll(usage, q.credKey, q.modelKey, now), key) ==
            if MemberFor(q, key).Some? then u.(requests := u.requests + [now]) else u
  {
  }

  lemma UsageAfterAdmission(usage: map<string, Usage>, hist: Histories, q: Query, now: int)
    requires UsageShows(usage, hist) && q.credKey != q.modelKey && AdmissionFits(usage, q, now)
    ensures UsageShows(L.RecordAll(usage, q.credKey, q.modelKey, now), WithAdmission(hist, q, now))
  {
    forall key
      ensures L.UsageOf(L.RecordAll(usage, q.credKey, q.modelKey, now), key) ==
              Shown(HistoryOf(WithAdmission(hist, q, now), key))
    {
      UsageOfAdmission(usage, q, now, key);
      AdmissionHistory(hist, q, now, key);
      assert L.UsageOf(usage, key) == Shown(HistoryOf(hist, key));
      if MemberFor(q, key).Some? {
        TimesAppend(HistoryOf(hist, key).requests, Event(MemberFor(q, key).value, now));
      }
    }
  }

  /** One attempt on both sides, from the same history to the same history with the same answer. */
  lemma AttemptRefines(s: Store, hist: Histories, usage: map<string, Usage>, clock: int, q: Query, now: int, ttl: int)
    requires StoreShows(s, hist, clock) && UsageShows(usage, hist) && 0 <= clock <= now
    requires q.credKey != q.modelKey && FreshMembers(hist, q) && ttl >= WINDOW
    requires AllHold(s, q, now) ==> AdmissionFits(usage, q, now)
    ensures AllHold(s, q, now) <==>
            L.AllBelow(usage, q.credKey, q.credRPM, q.credTPM, q.modelKey, q.modelRPM, q.modelTPM, now)
    ensures AllHold(s, q, now) ==>
              && StoreShows(AllowedAll(s, q, now, ttl), WithAdmission(hist, q, now), now)
              && UsageShows(L.RecordAll(usage, q.credKey, q.modelKey, now), WithAdmission(hist, q, now))
    ensures !AllHold(s, q, now) ==> StoreShows(AllowedAll(s, q, now, ttl), hist, now)
  {
    DecisionsRefine(s, hist, usage, clock, q, now);
    StoreAfterAttempt(s, hist, clock, q, now, ttl);
    if AllHold(s, q, now) {
      UsageAfterAdmission(usage, hist, q, now);
    }
  }

  // ----- tokens -----

  lemma TokenEventsAppend(h: seq<TokenEvent>, e: TokenEvent)
    ensures TokenEvents(h + [e]) == TokenEvents(h) + [Event(TokenMember(e.uuid, e.count), e.at)]
    ensures Uses(h + [e]) == Uses(h) + [TokenUse(e.at, e.count)]
  {
    assert (h + [e])[..|h|] == h;
  }

  lemma TokenMemberInjective(a: TokenEvent, b: TokenEvent)
    requires ':' !in a.uuid && ':' !in b.uuid && a.uuid != b.uuid
    ensures TokenMember(a.uuid, a.count) != TokenMember(b.uuid, b.count)
  {
    FirstColonOfToken(a.uuid, a.count);
    FirstColonOfToken(b.uuid, b.count);
    assert TokenMember(a.uuid, a.count)[..|a.uuid|] == a.uuid;
    assert TokenMember(b.uuid, b.count)[..|b.uuid|] == b.uuid;
  }

  ghost predicate FreshId(h: seq<TokenEvent>, e: TokenEvent) {
    ':' !in e.uuid && forall i :: 0 <= i < |h| ==> h[i].uuid != e.uuid
  }

  lemma FreshTokenMember(h: seq<TokenEvent>, e: TokenEvent)
    requires PlainIds(h) && FreshId(h, e)
    ensures !Members(TokenEvents(h), TokenMember(e.uuid, e.count))
  {
    forall i | 0 <= i < |h| ensures TokenEvents(h)[i].member != TokenMember(e.uuid, e.count) {
      TokenMemberInjective(h[i], e);
    }
  }

  lemma TokensAdded(z: ZSet, h: seq<TokenEvent>, clock: int, e: TokenEvent, ttl: int)
    requires TokensShow(z, h, clock) && 0 <= clock <= e.at && FreshId(h, e) && ttl >= WINDOW
    ensures TokensShow(Add(z, TokenMember(e.uuid, e.count), e.at, ttl), h + [e], e.at)
  {
    FreshTokenMember(h, e);
    TokenEventsAppend(h, e);
    ShowsAdded(z, TokenEvents(h), clock, TokenMember(e.uuid, e.count), e.at, ttl);
  }

  lemma KeyLater(s: Store, h: KeyHistory, key: string, clock: int, now: int)
    requires KeyShows(s, h, key, clock) && clock <= now
    ensures KeyShows(s, h, key, now)
  {
    ShowsLater(SetOf(s.rpm, key), h.requests, clock, now);
    ShowsLater(SetOf(s.tpm, key), TokenEvents(h.tokens), clock, now);
  }

  lemma StoreAfterTokens(s: Store, hist: Histories, clock: int, key: string, e: TokenEvent, ttl: int)
    requires StoreShows(s, hist, clock) && 0 <= clock <= e.at
    requires FreshId(HistoryOf(hist, key).tokens, e) && ttl >= WINDOW
    ensures StoreShows(Consumed(s, key, TokenMember(e.uuid, e.count), e.at, ttl), WithTokens(hist, key, e), e.at)
  {
    var t := Consumed(s, key, TokenMember(e.uuid, e.count), e.at, ttl);
    forall k ensures KeyShows(t, HistoryOf(WithTokens(hist, key, e), k), k, e.at) {
      assert KeyShows(s, HistoryOf(hist, k), k, clock);
      KeyLater(s, HistoryOf(hist, k), k, clock, e.at);
      if k == key {
        TokensAdded(SetOf(s.tpm, k), HistoryOf(hist, k).tokens, clock, e, ttl);
      }
    }
  }

  ghost predicate TokensFit(usage: map<string, Usage>, key: string, now: int) {
    |RecentTokens(L.UsageOf(usage, key).tokens, now)| < MAX_TOKENS
  }

  lemma UsageAfterTokens(usage: map<string, Usage>, hist: Histories, key: string, e: TokenEvent)
    requires UsageShows(usage, hist) && TokensFit(usage, key, e.at)
    ensures UsageShows(usage[key := RecordTokens(L.UsageOf(usage, key), e.count, e.at)], WithTokens(hist, key, e))
  {
    var after := usage[key := RecordTokens(L.UsageOf(usage, key), e.count, e.at)];
    forall k ensures L.UsageOf(after, k) == Shown(HistoryOf(WithTokens(hist, key, e), k)) {
      assert L.UsageOf(usage, k) == Shown(HistoryOf(hist, k));
      TokenEventsAppend(HistoryOf(hist, key).tokens, e);
    }
  }
}
