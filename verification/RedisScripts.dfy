/** The rate-limit Lua scripts as operations on a sorted set (internal/ratelimit/redis_backend.go). */
module RedisScripts {
  import opened Window
  import opened Strings
  import opened Swrr

  /** A sorted set with its expiry; members map to their scores, in milliseconds. */
  datatype ZSet = ZSet(entries: map<string, int>, deadline: int)

  const NO_SET := ZSet(map[], 0)

  /** An expired key reads as empty. */
  function Visible(z: ZSet, now: int): map<string, int> {
    if now >= z.deadline then map[] else z.entries
  }

  /** ZREMRANGEBYSCORE key 0 now-window */
  function Pruned(entries: map<string, int>, now: int): map<string, int> {
    map m | m in entries && !(0 <= entries[m] <= now - WINDOW) :: entries[m]
  }

  function Entries(z: ZSet, now: int): map<string, int> {
    Pruned(Visible(z, now), now)
  }

  predicate CheckRPM(z: ZSet, limit: int, now: int) {
    limit == UNLIMITED || |Entries(z, now)| < limit
  }

  /** ZADD and EXPIRE, with the time to live in milliseconds: adding a member again only moves its score. */
  function Add(z: ZSet, member: string, now: int, ttl: int): ZSet {
    ZSet(Entries(z, now)[member := now], now + ttl)
  }

  /** luaTryAllowRPM: whether it answers 1, and the set it leaves. */
  function TryAllowRPM(z: ZSet, limit: int, member: string, now: int, ttl: int): (bool, ZSet) {
    if CheckRPM(z, limit, now) then (true, Add(z, member, now, ttl)) else (false, ZSet(Entries(z, now), z.deadline))
  }

  // ----- token members -----

  /** The position of the first separator, or the length. */
  function FirstColon(m: string): (i: nat)
    ensures i <= |m| && ':' !in m[..i] && (i < |m| ==> m[i] == ':')
  {
    if m == "" || m[0] == ':' then 0
    else
      var i := FirstColon(m[1..]);
      assert m[..i + 1] == [m[0]] + m[1..][..i];
      i + 1
  }

  function TokenMember(uuid: string, count: int): string {
    uuid + ":" + Decimal(count)
  }

  /** What follows the first separator, read as a number. */
  function MemberCount(m: string): int {
    var i := FirstColon(m);
    if i == |m| then 0 else Parsed(m[i + 1..])
  }

  function Parsed(s: string): int {
    if AllDigits(s) then Atoi(s)
    else if s[0] == '-' && AllDigits(s[1..]) then
      var n: int := Atoi(s[1..]);
      -n
    else 0
  }

  lemma ParsedDecimal(n: int)
    ensures Parsed(Decimal(n)) == n
  {
    if n < 0 {
      AtoiOfItoa(-n);
      assert Decimal(n)[1..] == Itoa(-n);
      assert !IsDigit(Decimal(n)[0]);
    } else {
      AtoiOfItoa(n);
    }
  }

  lemma MemberCountOfToken(uuid: string, count: int)
    requires ':' !in uuid
    ensures MemberCount(TokenMember(uuid, count)) == count
  {
    FirstColonOfToken(uuid, count);
    assert TokenMember(uuid, count)[|uuid| + 1..] == Decimal(count);
    ParsedDecimal(count);
  }

  lemma FirstColonOfToken(uuid: string, count: int)
    requires ':' !in uuid
    ensures FirstColon(TokenMember(uuid, count)) == |uuid|
  {
    var m := TokenMember(uuid, count);
    assert m[|uuid|] == ':';
    assert m[..|uuid|] == uuid;
  }

  ghost function Counts(entries: map<string, int>): map<string, int> {
    map m | m in entries :: MemberCount(m)
  }

  ghost predicate CheckTPM(z: ZSet, limit: int, now: int) {
    limit == UNLIMITED || SumValues(Counts(Entries(z, now))) < limit
  }

  // ----- histories -----

  datatype Event = Event(member: string, at: int)

  function Times(h: seq<Event>): seq<int> {
    if h == [] then [] else Times(h[..|h| - 1]) + [h[|h| - 1].at]
  }

  /** The members inside the window. */
  function Table(h: seq<Event>, now: int): map<string, int> {
    if h == [] then map[]
    else
      var n := |h| - 1;
      if InWindow(h[n].at, now) then Table(h[..n], now)[h[n].member := h[n].at] else Table(h[..n], now)
  }

  ghost predicate Members(h: seq<Event>, member: string) {
    exists i :: 0 <= i < |h| && h[i].member == member
  }

  /** Distinct members at times between zero and the clock. */
  ghost predicate Recorded(h: seq<Event>, clock: int) {
    && (forall i, j :: 0 <= i < j < |h| ==> h[i].member != h[j].member)
    && forall i :: 0 <= i < |h| ==> 0 <= h[i].at <= clock
  }

  /** The set shows the history's window now and at any later time. */
  ghost predicate Represents(z: ZSet, h: seq<Event>, clock: int) {
    forall now :: now >= clock ==> Entries(z, now) == Table(h, now)
  }

  lemma {:induction false} TableMembers(h: seq<Event>, now: int, m: string)
    requires m in Table(h, now)
    ensures Members(h, m) && InWindow(Table(h, now)[m], now)
    ensures exists i :: 0 <= i < |h| && h[i] == Event(m, Table(h, now)[m])
  {
    var n := |h| - 1;
    if !(InWindow(h[n].at, now) && m == h[n].member) {
      TableMembers(h[..n], now, m);
      var i :| 0 <= i < n && h[..n][i] == Event(m, Table(h[..n], now)[m]);
      assert h[i].member == m;
    } else {
      assert h[n] == Event(m, Table(h, now)[m]);
    }
  }

  lemma LastIsFresh(h: seq<Event>, now: int)
    requires h != [] && forall i, j :: 0 <= i < j < |h| ==> h[i].member != h[j].member
    ensures h[|h| - 1].member !in Table(h[..|h| - 1], now)
  {
    var n := |h| - 1;
    forall m | m in Table(h[..n], now) ensures m != h[n].member {
      TableMembers(h[..n], now, m);
      var i :| 0 <= i < n && h[..n][i].member == m;
      assert h[i].member == m;
    }
  }

  /** Counting members of the set is counting the history's window. */
  lemma {:induction false} TableSize(h: seq<Event>, now: int, clock: int)
    requires Recorded(h, clock)
    ensures |Table(h, now)| == |Recent(Times(h), now)|
    ensures |Times(h)| == |h|
  {
    if h != [] {
      var n := |h| - 1;
      TableSize(h[..n], now, clock);
      RecentAppend(Times(h[..n]), h[n].at, now);
      LastIsFresh(h, now);
    }
  }

  /** Pruning at one instant loses nothing a later window shows. */
  lemma {:induction false} PrunedTable(h: seq<Event>, a: int, b: int)
    requires a <= b && forall i :: 0 <= i < |h| ==> 0 <= h[i].at
    requires forall i, j :: 0 <= i < j < |h| ==> h[i].member != h[j].member
    ensures Pruned(Table(h, a), b) == Table(h, b)
  {
    if h != [] {
      var n := |h| - 1;
      PrunedTable(h[..n], a, b);
      LastIsFresh(h, a);
      LastIsFresh(h, b);
    }
  }

  lemma {:induction false} TableEmptyLater(h: seq<Event>, clock: int, now: int)
    requires forall i :: 0 <= i < |h| ==> h[i].at <= clock
    requires now >= clock + WINDOW
    ensures Table(h, now) == map[]
  {
    if h != [] {
      TableEmptyLater(h[..|h| - 1], clock, now);
    }
  }

  /** Recording a fresh member keeps the set faithful, as long as the key outlives the window. */
  lemma AddRepresents(z: ZSet, h: seq<Event>, clock: int, member: string, now: int, ttl: int)
    requires Recorded(h, clock) && Represents(z, h, clock) && 0 <= clock <= now
    requires !Members(h, member) && ttl >= WINDOW
    ensures Recorded(h + [Event(member, now)], now)
    ensures Represents(Add(z, member, now, ttl), h + [Event(member, now)], now)
  {
    var h' := h + [Event(member, now)];
    var z' := Add(z, member, now, ttl);
    assert h'[..|h|] == h;
    forall later | later >= now ensures Entries(z', later) == Table(h', later) {
      if later >= z'.deadline {
        TableEmptyLater(h', now, later);
      } else {
        assert Entries(z, now) == Table(h, now);
        AddedLater(h, member, now, later);
      }
    }
  }

  lemma AddedLater(h: seq<Event>, member: string, now: int, later: int)
    requires Recorded(h, now) && !Members(h, member) && 0 <= now <= later
    ensures Pruned(Table(h, now)[member := now], later) == Table(h + [Event(member, now)], later)
  {
    PrunedTable(h, now, later);
    if member in Table(h, now) {
      TableMembers(h, now, member);
    }
    if member in Table(h, later) {
      TableMembers(h, later, member);
    }
    assert (h + [Event(member, now)])[..|h|] == h;
    assert Pruned(Table(h, now)[member := now], later)
        == if InWindow(now, later) then Pruned(Table(h, now), later)[member := now] else Pruned(Table(h, now), later);
  }

  /** A refusal only prunes. */
  lemma PruneRepresents(z: ZSet, h: seq<Event>, clock: int, now: int)
    requires Recorded(h, clock) && Represents(z, h, clock) && clock <= now
    ensures Represents(ZSet(Entries(z, now), z.deadline), h, now)
  {
    forall later | later >= now ensures Entries(ZSet(Entries(z, now), z.deadline), later) == Table(h, later) {
      assert Entries(z, later) == Table(h, later) && Entries(z, now) == Table(h, now);
      PrunedTable(h, now, later);
    }
  }

  /** The script decides by the history's window and records exactly when it answers 1. */
  lemma TryAllowRPMRefines(z: ZSet, h: seq<Event>, clock: int, limit: int, member: string, now: int, ttl: int)
    requires Recorded(h, clock) && Represents(z, h, clock) && 0 <= clock <= now
    requires !Members(h, member) && ttl >= WINDOW
    ensures var (ok, z') := TryAllowRPM(z, limit, member, now, ttl);
      var h' := if ok then h + [Event(member, now)] else h;
      && (ok <==> limit == UNLIMITED || |Recent(Times(h), now)| < limit)
      && Recorded(h', now) && Represents(z', h', now)
  {
    TableSize(h, now, clock);
    assert Entries(z, now) == Table(h, now);
    if CheckRPM(z, limit, now) {
      AddRepresents(z, h, clock, member, now, ttl);
    } else {
      PruneRepresents(z, h, clock, now);
    }
  }

  // ----- retries -----

  /** Running the script again with the same member and time leaves at most the one recorded event. */
  lemma RetryRecordsOnce(z: ZSet, h: seq<Event>, clock: int, limit: int, member: string, now: int, ttl: int)
    requires Recorded(h, clock) && Represents(z, h, clock) && 0 <= clock <= now
    requires !Members(h, member) && ttl >= WINDOW
    requires CheckRPM(z, limit, now)
    ensures var once := Add(z, member, now, ttl);
      var (ok, twice) := TryAllowRPM(once, limit, member, now, ttl);
      && twice == once
      && (ok <==> limit == UNLIMITED || |Recent(Times(h), now)| + 1 < limit)
  {
    var once := Add(z, member, now, ttl);
    AddRepresents(z, h, clock, member, now, ttl);
    TableSize(h, now, clock);
    assert Entries(z, now) == Table(h, now);
    if member in Table(h, now) {
      TableMembers(h, now, member);
    }
    AddIsStable(z, member, now, ttl);
  }

  lemma AddIsStable(z: ZSet, member: string, now: int, ttl: int)
    requires ttl >= WINDOW
    ensures Entries(Add(z, member, now, ttl), now) == Add(z, member, now, ttl).entries
    ensures Add(Add(z, member, now, ttl), member, now, ttl) == Add(z, member, now, ttl)
  {
    var once := Add(z, member, now, ttl);
    assert forall m :: m in Entries(z, now) ==> !(0 <= Entries(z, now)[m] <= now - WINDOW);
  }

  // ----- tokens -----

  datatype TokenEvent = TokenEvent(uuid: string, count: int, at: int)

  function Uses(h: seq<TokenEvent>): seq<TokenUse> {
    if h == [] then [] else Uses(h[..|h| - 1]) + [TokenUse(h[|h| - 1].at, h[|h| - 1].count)]
  }

  function TokenEvents(h: seq<TokenEvent>): (e: seq<Event>)
    ensures |e| == |h|
    ensures forall i :: 0 <= i < |h| ==> e[i] == Event(TokenMember(h[i].uuid, h[i].count), h[i].at)
  {
    if h == [] then []
    else
      var n := |h| - 1;
      TokenEvents(h[..n]) + [Event(TokenMember(h[n].uuid, h[n].count), h[n].at)]
  }

  lemma CountsGrow(before: map<string, int>, m: string, at: int, count: int)
    requires m !in before && MemberCount(m) == count
    ensures SumValues(Counts(before[m := at])) == SumValues(Counts(before)) + count
  {
    var after := Counts(before[m := at]);
    assert after - {m} == Counts(before);
    SumValuesStep(after, m);
  }

  lemma UsesStep(h: seq<TokenEvent>, now: int)
    requires h != []
    ensures var n := |h| - 1;
      TokenSum(RecentTokens(Uses(h), now)) ==
        TokenSum(RecentTokens(Uses(h[..n]), now)) + if InWindow(h[n].at, now) then h[n].count else 0
  {
    var n := |h| - 1;
    UsesLength(h[..n]);
    var use := TokenUse(h[n].at, h[n].count);
    assert Uses(h) == Uses(h[..n]) + [use];
    RecentTokensAppend(Uses(h[..n]), use, now);
    var kept := RecentTokens(Uses(h[..n]), now);
    assert (kept + [use])[..|kept|] == kept;
    assert kept + [] == kept;
  }

  lemma {:induction false} TableTokens(h: seq<TokenEvent>, now: int, clock: int)
    requires Recorded(TokenEvents(h), clock)
    requires forall i :: 0 <= i < |h| ==> ':' !in h[i].uuid
    ensures SumValues(Counts(Table(TokenEvents(h), now))) == TokenSum(RecentTokens(Uses(h), now))
  {
    if h == [] {
      assert Counts(map[]) == map[];
    } else {
      var n := |h| - 1;
      var events := TokenEvents(h);
      assert events[..n] == TokenEvents(h[..n]);
      TableTokens(h[..n], now, clock);
      LastIsFresh(events, now);
      UsesStep(h, now);
      if InWindow(h[n].at, now) {
        MemberCountOfToken(h[n].uuid, h[n].count);
        CountsGrow(Table(events[..n], now), events[n].member, h[n].at, h[n].count);
      }
    }
  }

  lemma {:induction false} UsesLength(h: seq<TokenEvent>)
    ensures |Uses(h)| == |h|
  {
    if h != [] { UsesLength(h[..|h| - 1]); }
  }

  /** The token script decides by the same token window. */
  lemma CheckTPMRefines(z: ZSet, h: seq<TokenEvent>, clock: int, limit: int, now: int)
    requires Recorded(TokenEvents(h), clock) && Represents(z, TokenEvents(h), clock) && clock <= now
    requires forall i :: 0 <= i < |h| ==> ':' !in h[i].uuid
    ensures CheckTPM(z, limit, now) <==> limit == UNLIMITED || TokenSum(RecentTokens(Uses(h), now)) < limit
  {
    TableTokens(h, now, clock);
    assert Entries(z, now) == Table(TokenEvents(h), now);
  }

  // ----- the two backends over whole runs -----

  /** The set and decisions after attempts with the given members and times. */
  function ScriptRun(attempts: seq<Event>, limit: int, ttl: int): (ZSet, seq<bool>) {
    if attempts == [] then (NO_SET, [])
    else
      var n := |attempts| - 1;
      var (z, decisions) := ScriptRun(attempts[..n], limit, ttl);
      var (ok, z') := TryAllowRPM(z, limit, attempts[n].member, attempts[n].at, ttl);
      (z', decisions + [ok])
  }

  ghost predicate Attempts(attempts: seq<Event>) {
    && (forall i, j :: 0 <= i < j < |attempts| ==> attempts[i].at <= attempts[j].at && attempts[i].member != attempts[j].member)
    && forall i :: 0 <= i < |attempts| ==> 0 <= attempts[i].at
  }

  function Admitted(attempts: seq<Event>, decisions: seq<bool>): seq<Event>
    requires |decisions| == |attempts|
  {
    if attempts == [] then []
    else
      var n := |attempts| - 1;
      Admitted(attempts[..n], decisions[..n]) + if decisions[n] then [attempts[n]] else []
  }

  lemma {:induction false} AdmittedMembers(attempts: seq<Event>, decisions: seq<bool>, e: Event)
    requires |decisions| == |attempts|
    ensures e in Admitted(attempts, decisions) ==> e in attempts
  {
    if attempts != [] {
      AdmittedMembers(attempts[..|attempts| - 1], decisions[..|attempts| - 1], e);
    }
  }

  lemma FreshMember(attempts: seq<Event>, decisions: seq<bool>, member: string)
    requires |decisions| == |attempts|
    requires forall i :: 0 <= i < |attempts| ==> attempts[i].member != member
    ensures !Members(Admitted(attempts, decisions), member)
  {
    var h := Admitted(attempts, decisions);
    forall i | 0 <= i < |h| ensures h[i].member != member {
      AdmittedMembers(attempts, decisions, h[i]);
    }
  }

  function Decisions(attempts: seq<Event>, limit: int, ttl: int): seq<bool> {
    ScriptRun(attempts, limit, ttl).1
  }

  lemma {:induction false} OneDecisionEach(attempts: seq<Event>, limit: int, ttl: int)
    ensures |Decisions(attempts, limit, ttl)| == |attempts|
  {
    if attempts != [] {
      OneDecisionEach(attempts[..|attempts| - 1], limit, ttl);
    }
  }

  /** The admitted attempts so far. */
  ghost function AdmittedBy(attempts: seq<Event>, limit: int, ttl: int): seq<Event> {
    OneDecisionEach(attempts, limit, ttl);
    Admitted(attempts, Decisions(attempts, limit, ttl))
  }

  function LastTime(attempts: seq<Event>): int {
    if attempts == [] then 0 else attempts[|attempts| - 1].at
  }

  /** One more attempt: it is admitted exactly when the window of all earlier admissions is below the limit. */
  lemma ScriptRunStep(attempts: seq<Event>, limit: int, ttl: int)
    requires attempts != [] && Attempts(attempts) && ttl >= WINDOW
    requires var before := attempts[..|attempts| - 1];
      && Recorded(AdmittedBy(before, limit, ttl), LastTime(before))
      && Represents(ScriptRun(before, limit, ttl).0, AdmittedBy(before, limit, ttl), LastTime(before))
    ensures var n := |attempts| - 1;
      var h := AdmittedBy(attempts[..n], limit, ttl);
      var ok := limit == UNLIMITED || |Recent(Times(h), attempts[n].at)| < limit;
      && Decisions(attempts, limit, ttl) == Decisions(attempts[..n], limit, ttl) + [ok]
      && AdmittedBy(attempts, limit, ttl) == (if ok then h + [attempts[n]] else h)
      && Recorded(AdmittedBy(attempts, limit, ttl), LastTime(attempts))
      && Represents(ScriptRun(attempts, limit, ttl).0, AdmittedBy(attempts, limit, ttl), LastTime(attempts))
  {
    var n := |attempts| - 1;
    var before, e := attempts[..n], attempts[n];
    var h := AdmittedBy(before, limit, ttl);
    OneDecisionEach(before, limit, ttl);
    OneDecisionEach(attempts, limit, ttl);
    FreshMember(before, Decisions(before, limit, ttl), e.member);
    TryAllowRPMRefines(ScriptRun(before, limit, ttl).0, h, LastTime(before), limit, e.member, e.at, ttl);
    assert Decisions(attempts, limit, ttl)[..n] == Decisions(before, limit, ttl);
    assert h + [] == h && e == Event(e.member, e.at);
  }

  lemma {:induction false} ScriptRunRepresents(attempts: seq<Event>, limit: int, ttl: int)
    requires Attempts(attempts) && ttl >= WINDOW
    ensures Recorded(AdmittedBy(attempts, limit, ttl), LastTime(attempts))
    ensures Represents(ScriptRun(attempts, limit, ttl).0, AdmittedBy(attempts, limit, ttl), LastTime(attempts))
  {
    if attempts != [] {
      ScriptRunRepresents(attempts[..|attempts| - 1], limit, ttl);
      ScriptRunStep(attempts, limit, ttl);
    }
  }

  lemma TimesAppend(h: seq<Event>, e: Event)
    ensures Times(h + [e]) == Times(h) + [e.at]
  {
    assert (h + [e])[..|h|] == h;
  }

  lemma {:induction false} SameAdmissions(attempts: seq<Event>, limit: int, ttl: int)
    requires Attempts(attempts) && ttl >= WINDOW
    requires limit == UNLIMITED || limit <= MAX_REQUESTS
    ensures Answers(Times(attempts), limit) == Decisions(attempts, limit, ttl)
    ensures limit != UNLIMITED ==> AfterAttempts(Times(attempts), limit).usage.requests == Times(AdmittedBy(attempts, limit, ttl))
  {
    if attempts != [] {
      var n := |attempts| - 1;
      SameAdmissions(attempts[..n], limit, ttl);
      ScriptRunRepresents(attempts[..n], limit, ttl);
      ScriptRunStep(attempts, limit, ttl);
      var h := AdmittedBy(attempts[..n], limit, ttl);
      WindowStep(Times(attempts[..n]), attempts[n].at, limit, Times(h));
      TimesAppend(h, attempts[n]);
    }
  }

  lemma WindowStep(before: seq<int>, now: int, limit: int, admitted: seq<int>)
    requires limit == UNLIMITED || (limit <= MAX_REQUESTS && AfterAttempts(before, limit).usage.requests == admitted)
    ensures var ok := limit == UNLIMITED || |Recent(admitted, now)| < limit;
      && Answers(before + [now], limit) == Answers(before, limit) + [ok]
      && (limit != UNLIMITED ==>
            AfterAttempts(before + [now], limit).usage.requests == if ok then admitted + [now] else admitted)
  {
    assert (before + [now])[..|before|] == before;
  }

  // ----- how long a key must live -----

  /** A second attempt after the key has expired but while the first is still inside the window. */
  function TwoAttempts(ttl: int): seq<Event> {
    [Event("a", 0), Event("b", if ttl < 0 then 0 else ttl)]
  }

  /** With a shorter time to live the set forgets early: a second request passes a limit of one. A negative one
      deletes the key at once. */
  lemma ShortTTLForgets(ttl: int)
    requires ttl < WINDOW
    ensures Attempts(TwoAttempts(ttl))
    ensures Decisions(TwoAttempts(ttl), 1, ttl) == [true, true]
    ensures Answers(Times(TwoAttempts(ttl)), 1) == [true, false]
  {
    var two := TwoAttempts(ttl);
    SecondOfTwo(ttl);
    WindowOfTwo(two[1].at);
    TimesOfTwo(two[0], two[1]);
  }

  lemma TimesOfTwo(e: Event, f: Event)
    ensures Times([e, f]) == [e.at, f.at]
  {
    assert [e, f][..1] == [e] && [e][..0] == [];
    assert Times([e]) == [e.at];
  }

  lemma FirstOfTwo(ttl: int)
    ensures ScriptRun([Event("a", 0)], 1, ttl) == (ZSet(map["a" := 0], ttl), [true])
  {
    var first := Event("a", 0);
    var none: map<string, int> := map[];
    assert [first][..0] == [];
    assert Entries(NO_SET, 0) == none && none["a" := 0] == map["a" := 0];
    assert ScriptRun([], 1, ttl) == (NO_SET, []);
    assert CheckRPM(NO_SET, 1, 0);
    assert Add(NO_SET, "a", 0, ttl) == ZSet(map["a" := 0], ttl);
    var ok: seq<bool> := [];
    assert ok + [true] == [true];
  }

  lemma SecondOfTwo(ttl: int)
    requires ttl < WINDOW
    ensures Decisions(TwoAttempts(ttl), 1, ttl) == [true, true]
  {
    var two := TwoAttempts(ttl);
    FirstOfTwo(ttl);
    assert two[..1] == [Event("a", 0)];
    var z := ZSet(map["a" := 0], ttl);
    assert Entries(z, two[1].at) == map[];
    assert CheckRPM(z, 1, two[1].at);
    assert [true] + [true] == [true, true];
  }

  lemma WindowOfOne()
    ensures Answers([0], 1) == [true] && AfterAttempts([0], 1).usage.requests == [0]
  {
    assert [0][..0] == [];
    assert AfterAttempts([], 1).usage == UNUSED && Answers([], 1) == [];
    assert Recent([], 0) == [] && RequestsBelow(UNUSED, 1, 0);
  }

  lemma WindowOfTwo(at: int)
    requires 0 <= at < WINDOW
    ensures Answers([0, at], 1) == [true, false]
  {
    WindowOfOne();
    assert [0, at][..1] == [0];
    assert [0][..0] == [] && Recent([0], at) == [0];
  }

  /** The script and the in-process window answer every run alike, attempt by attempt, exactly when a key lives at
      least as long as the window. */
  lemma SameDecisions(ttl: int)
    ensures (forall attempts, limit :: Attempts(attempts) && (limit == UNLIMITED || limit <= MAX_REQUESTS) ==>
               Answers(Times(attempts), limit) == Decisions(attempts, limit, ttl))
       <==> ttl >= WINDOW
  {
    if ttl >= WINDOW {
      forall attempts, limit | Attempts(attempts) && (limit == UNLIMITED || limit <= MAX_REQUESTS)
        ensures Answers(Times(attempts), limit) == Decisions(attempts, limit, ttl)
      {
        SameAdmissions(attempts, limit, ttl);
      }
    } else {
      ShortTTLForgets(ttl);
      assert Answers(Times(TwoAttempts(ttl)), 1)[1] != Decisions(TwoAttempts(ttl), 1, ttl)[1];
    }
  }
}
