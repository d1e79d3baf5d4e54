/** Scripts of many callers on one shared store, retries among them: each run has the time its caller captured before the
    first attempt, and the server's own clock (internal/ratelimit/redis_backend.go). */
module RedisInterference {
  import opened Collections
  import opened Window
  import opened RedisScripts
  import opened RedisAdmission

  /** A query whose two keys differ. */
  type PairQuery = q: Query | q.credKey != q.modelKey
    witness Query("key", UNLIMITED, UNLIMITED, "", "", UNLIMITED, UNLIMITED, "")

  datatype Script =
    | AllowRPM(key: string, limit: int, member: string)
    | AllowAll(q: PairQuery)
    | Consume(key: string, member: string)

  /** One execution on the server. */
  datatype Run = Run(script: Script, now: int, clock: int)

  // ----- one execution -----

  /** The keys the server has not deleted by this clock; a key that was only looked at stands for an absent one. */
  function Unexpired(sets: map<string, ZSet>, clock: int): map<string, ZSet> {
    map key | key in sets && Alive(sets[key], clock) :: sets[key]
  }

  predicate Alive(z: ZSet, clock: int) {
    clock < z.deadline || z == NO_SET
  }

  function At(s: Store, clock: int): Store {
    Store(Unexpired(s.rpm, clock), Unexpired(s.tpm, clock))
  }

  /** A key written now lives on from the server's clock. */
  function Life(r: Run, ttl: int): int {
    ttl + r.clock - r.now
  }

  ghost predicate SaysYes(s: Store, r: Run) {
    match r.script
    case AllowRPM(key, limit, _) => CheckRPM(SetOf(At(s, r.clock).rpm, key), limit, r.now)
    case AllowAll(q) => AllHold(At(s, r.clock), q, r.now)
    case Consume(_, _) => true
  }

  ghost function Execute(s: Store, r: Run, ttl: int): Store {
    var t := At(s, r.clock);
    match r.script
    case AllowRPM(key, limit, member) =>
      t.(rpm := t.rpm[key := TryAllowRPM(SetOf(t.rpm, key), limit, member, r.now, Life(r, ttl)).1])
    case AllowAll(q) => AllowedAll(t, q, r.now, Life(r, ttl))
    case Consume(key, member) => Consumed(t, key, member, r.now, Life(r, ttl))
  }

  /** Running a script again at once leaves the store as it is. */
  lemma ExecuteTwice(s: Store, r: Run, ttl: int)
    requires r.now <= r.clock && ttl >= WINDOW
    ensures Execute(Execute(s, r, ttl), r, ttl) == Execute(s, r, ttl)
  {
    StaysUnexpired(s, r, ttl);
    var t, life := At(s, r.clock), Life(r, ttl);
    match r.script
    case AllowRPM(key, limit, member) => AllowRPMTwice(SetOf(t.rpm, key), limit, member, r.now, life);
    case AllowAll(q) => AllowedTwice(t, q, r.now, life);
    case Consume(key, member) => ConsumedTwice(t, key, member, r.now, life);
  }

  lemma AllowRPMTwice(z: ZSet, limit: int, member: string, now: int, ttl: int)
    requires ttl >= WINDOW
    ensures var (ok, z') := TryAllowRPM(z, limit, member, now, ttl);
      && TryAllowRPM(z', limit, member, now, ttl).1 == z'
      && (!ok ==> !TryAllowRPM(z', limit, member, now, ttl).0)
  {
    if CheckRPM(z, limit, now) {
      AddIsStable(z, member, now, ttl);
    } else {
      PrunedIsSettled(z, now);
    }
  }

  // ----- what an execution does to one set -----

  /** The member a script asks to record in a request set, and in a token set. */
  function RequestMember(script: Script, k: string): Option<string> {
    match script
    case AllowRPM(key, _, member) => if key == k then Some(member) else None
    case AllowAll(q) => MemberFor(q, k)
    case Consume(_, _) => None
  }

  /** What a run records in the request set of k. */
  ghost function RequestRecorded(s: Store, r: Run, k: string): Option<string> {
    if SaysYes(s, r) then RequestMember(r.script, k) else None
  }

  function TokensMember(script: Script, k: string): Option<string> {
    if script.Consume? && script.key == k then Some(script.member) else None
  }

  function SetAt(z: ZSet, clock: int): ZSet {
    if clock < z.deadline then z else NO_SET
  }

  /** A set records a member, or is at most pruned. */
  ghost predicate SetMoves(z: ZSet, after: ZSet, recorded: Option<string>, r: Run, ttl: int) {
    match recorded
    case Some(m) => after == Add(SetAt(z, r.clock), m, r.now, Life(r, ttl))
    case None => MaybePruned(SetAt(z, r.clock), after, r.now)
  }

  lemma SetOfUnexpired(sets: map<string, ZSet>, clock: int, k: string)
    ensures SetOf(Unexpired(sets, clock), k) == SetAt(SetOf(sets, k), clock)
    ensures Alive(SetAt(SetOf(sets, k), clock), clock)
  {
  }

  lemma ExecuteMoves(s: Store, r: Run, ttl: int, k: string)
    ensures SetMoves(SetOf(s.rpm, k), SetOf(Execute(s, r, ttl).rpm, k), RequestRecorded(s, r, k), r, ttl)
    ensures SetMoves(SetOf(s.tpm, k), SetOf(Execute(s, r, ttl).tpm, k), TokensMember(r.script, k), r, ttl)
  {
    SetOfUnexpired(s.rpm, r.clock, k);
    SetOfUnexpired(s.tpm, r.clock, k);
    if r.script.AllowAll? {
      AllowedAllSets(At(s, r.clock), r.script.q, r.now, Life(r, ttl), k);
    }
  }

  lemma StaysUnexpired(s: Store, r: Run, ttl: int)
    requires r.now <= r.clock && ttl > 0
    ensures At(Execute(s, r, ttl), r.clock) == Execute(s, r, ttl)
  {
    var t := Execute(s, r, ttl);
    forall k | k in t.rpm ensures Alive(t.rpm[k], r.clock) {
      ExecuteMoves(s, r, ttl, k);
      MovedIsAlive(SetOf(s.rpm, k), SetOf(t.rpm, k), RequestRecorded(s, r, k), r, ttl);
    }
    forall k | k in t.tpm ensures Alive(t.tpm[k], r.clock) {
      ExecuteMoves(s, r, ttl, k);
      MovedIsAlive(SetOf(s.tpm, k), SetOf(t.tpm, k), TokensMember(r.script, k), r, ttl);
    }
  }

  lemma MovedIsAlive(z: ZSet, after: ZSet, recorded: Option<string>, r: Run, ttl: int)
    requires SetMoves(z, after, recorded, r, ttl) && r.now <= r.clock && ttl > 0
    ensures Alive(after, r.clock)
  {
  }

  // ----- a set against the log of what was recorded in it -----

  /** Members and the times their callers captured. */
  type Log = map<string, int>

  function Within(entries: Log, clock: int): Log {
    map m | m in entries && entries[m] > clock - WINDOW :: entries[m]
  }

  /** Nothing in the set that was not recorded, nothing recorded inside the window that is not in the set. */
  ghost predicate Exact(z: ZSet, log: Log, clock: int) {
    && (forall m :: m in z.entries ==> m in log && log[m] == z.entries[m])
    && (forall m :: m in z.entries ==> z.entries[m] <= clock && z.entries[m] + WINDOW <= z.deadline)
    && (forall m :: m in log && log[m] > clock - WINDOW ==> m in z.entries)
  }

  lemma ExactShows(z: ZSet, log: Log, clock: int)
    requires Exact(z, log, clock)
    ensures Within(z.entries, clock) == Within(log, clock)
  {
  }

  lemma LaterExact(z: ZSet, log: Log, clock: int, later: int)
    requires Exact(z, log, clock) && clock <= later
    ensures Exact(SetAt(z, later), log, later)
  {
  }

  lemma PrunedExact(z: ZSet, after: ZSet, log: Log, now: int, clock: int)
    requires Exact(z, log, clock) && now <= clock && Alive(z, clock)
    requires MaybePruned(z, after, now)
    ensures Exact(after, log, clock)
  {
  }

  lemma AddExact(z: ZSet, log: Log, m: string, now: int, clock: int, ttl: int)
    requires Exact(z, log, clock) && now <= clock && Alive(z, clock)
    requires (m in log ==> log[m] == now) && ttl >= WINDOW
    ensures Exact(Add(z, m, now, ttl + clock - now), log[m := now], clock)
  {
  }

  function Logged(log: Log, recorded: Option<string>, now: int): Log {
    match recorded
    case Some(m) => log[m := now]
    case None => log
  }

  lemma MoveKeepsExact(z: ZSet, after: ZSet, log: Log, recorded: Option<string>, r: Run, clock: int, ttl: int)
    requires Exact(z, log, clock) && clock <= r.clock && r.now <= r.clock && ttl >= WINDOW
    requires SetMoves(z, after, recorded, r, ttl)
    requires recorded.Some? && recorded.value in log ==> log[recorded.value] == r.now
    ensures Exact(after, Logged(log, recorded, r.now), r.clock)
  {
    LaterExact(z, log, clock, r.clock);
    match recorded
    case Some(m) => AddExact(SetAt(z, r.clock), log, m, r.now, r.clock, ttl);
    case None => PrunedExact(SetAt(z, r.clock), after, log, r.now, r.clock);
  }

  // ----- whole runs -----

  /** The store after runs in this order. */
  ghost function AfterRuns(s: Store, runs: seq<Run>, ttl: int): Store
    decreases |runs|, 1
  {
    if runs == [] then s else AfterLast(s, runs, ttl)
  }

  /** The last of them, on what the others left. */
  ghost function AfterLast(s: Store, runs: seq<Run>, ttl: int): Store
    requires runs != []
    decreases |runs|, 0
  {
    Execute(AfterRuns(s, runs[..|runs| - 1], ttl), runs[|runs| - 1], ttl)
  }

  lemma OneRun(s: Store, r: Run, ttl: int)
    ensures AfterRuns(s, [r], ttl) == Execute(s, r, ttl)
  {
    assert [r][..0] == [];
    assert AfterLast(s, [r], ttl) == Execute(AfterRuns(s, [], ttl), r, ttl);
  }

  function LastClock(runs: seq<Run>, clock: int): int {
    if runs == [] then clock else runs[|runs| - 1].clock
  }

  /** A member is used with one captured time only, however often and by whomever it is retried. */
  ghost predicate Captured(script: Script, now: int, captured: string -> int) {
    && (forall k :: RequestMember(script, k).Some? ==> captured(RequestMember(script, k).value) == now)
    && (forall k :: TokensMember(script, k).Some? ==> captured(TokensMember(script, k).value) == now)
  }

  /** The server's clock never goes back, and no caller's captured time is ahead of it. */
  ghost predicate Timely(runs: seq<Run>, clock: int, captured: string -> int) {
    runs != [] ==>
      var before, r := runs[..|runs| - 1], runs[|runs| - 1];
      && Timely(before, clock, captured)
      && LastClock(before, clock) <= r.clock && r.now <= r.clock
      && Captured(r.script, r.now, captured)
  }

  /** Everything recorded in the request set of k, with the captured times. */
  ghost function RequestLog(s: Store, log: Log, runs: seq<Run>, ttl: int, k: string): Log {
    if runs == [] then log
    else
      var n := |runs| - 1;
      Logged(RequestLog(s, log, runs[..n], ttl, k), RequestRecorded(AfterRuns(s, runs[..n], ttl), runs[n], k), runs[n].now)
  }

  function TokenLog(log: Log, runs: seq<Run>, k: string): Log {
    if runs == [] then log
    else
      var n := |runs| - 1;
      Logged(TokenLog(log, runs[..n], k), TokensMember(runs[n].script, k), runs[n].now)
  }

  ghost predicate CapturedLog(log: Log, captured: string -> int) {
    forall m :: m in log ==> log[m] == captured(m)
  }

  /** However the scripts of all callers interleave, and however often some are retried, every set holds exactly what was
      recorded in it inside the window: each member once, at its captured time. */
  lemma {:induction false} SetsAreExact(s: Store, requests: Log, tokens: Log, runs: seq<Run>, ttl: int, k: string,
                                        clock: int, captured: string -> int)
    requires Exact(SetOf(s.rpm, k), requests, clock) && CapturedLog(requests, captured)
    requires Exact(SetOf(s.tpm, k), tokens, clock) && CapturedLog(tokens, captured)
    requires Timely(runs, clock, captured) && ttl >= WINDOW
    ensures Exact(SetOf(AfterRuns(s, runs, ttl).rpm, k), RequestLog(s, requests, runs, ttl, k), LastClock(runs, clock))
    ensures Exact(SetOf(AfterRuns(s, runs, ttl).tpm, k), TokenLog(tokens, runs, k), LastClock(runs, clock))
    ensures CapturedLog(RequestLog(s, requests, runs, ttl, k), captured) && CapturedLog(TokenLog(tokens, runs, k), captured)
  {
    if runs != [] {
      var before, r := runs[..|runs| - 1], runs[|runs| - 1];
      SetsAreExact(s, requests, tokens, before, ttl, k, clock, captured);
      var t := AfterRuns(s, before, ttl);
      RunKeepsRequests(t, RequestLog(s, requests, before, ttl, k), r, ttl, k, LastClock(before, clock), captured);
      RunKeepsTokens(t, TokenLog(tokens, before, k), r, ttl, k, LastClock(before, clock), captured);
    }
  }

  lemma RunKeepsRequests(t: Store, log: Log, r: Run, ttl: int, k: string, clock: int, captured: string -> int)
    requires Exact(SetOf(t.rpm, k), log, clock) && CapturedLog(log, captured) && ttl >= WINDOW
    requires clock <= r.clock && r.now <= r.clock && Captured(r.script, r.now, captured)
    ensures var after := Logged(log, RequestRecorded(t, r, k), r.now);
      Exact(SetOf(Execute(t, r, ttl).rpm, k), after, r.clock) && CapturedLog(after, captured)
  {
    ExecuteMoves(t, r, ttl, k);
    MoveKeepsExact(SetOf(t.rpm, k), SetOf(Execute(t, r, ttl).rpm, k), log,
                   RequestRecorded(t, r, k), r, clock, ttl);
  }

  lemma RunKeepsTokens(t: Store, log: Log, r: Run, ttl: int, k: string, clock: int, captured: string -> int)
    requires Exact(SetOf(t.tpm, k), log, clock) && CapturedLog(log, captured) && ttl >= WINDOW
    requires clock <= r.clock && r.now <= r.clock && Captured(r.script, r.now, captured)
    ensures var after := Logged(log, TokensMember(r.script, k), r.now);
      Exact(SetOf(Execute(t, r, ttl).tpm, k), after, r.clock) && CapturedLog(after, captured)
  {
    ExecuteMoves(t, r, ttl, k);
    MoveKeepsExact(SetOf(t.tpm, k), SetOf(Execute(t, r, ttl).tpm, k), log, TokensMember(r.script, k), r, clock, ttl);
  }

  /** Some run recorded the member in the request set of k. */
  ghost predicate RecordedBySome(s: Store, runs: seq<Run>, ttl: int, k: string, m: string) {
    runs != [] &&
      var n := |runs| - 1;
      || RecordedBySome(s, runs[..n], ttl, k, m)
      || RequestRecorded(AfterRuns(s, runs[..n], ttl), runs[n], k) == Some(m)
  }

  lemma {:induction false} LoggedIffRecorded(s: Store, log: Log, runs: seq<Run>, ttl: int, k: string, m: string)
    ensures m in RequestLog(s, log, runs, ttl, k) <==> m in log || RecordedBySome(s, runs, ttl, k, m)
  {
    if runs != [] {
      LoggedIffRecorded(s, log, runs[..|runs| - 1], ttl, k, m);
    }
  }

  ghost predicate ConsumedBySome(runs: seq<Run>, k: string, m: string) {
    exists i :: 0 <= i < |runs| && TokensMember(runs[i].script, k) == Some(m)
  }

  lemma {:induction false} LoggedIffConsumed(log: Log, runs: seq<Run>, k: string, m: string)
    ensures m in TokenLog(log, runs, k) <==> m in log || ConsumedBySome(runs, k, m)
  {
    if runs != [] {
      var n := |runs| - 1;
      LoggedIffConsumed(log, runs[..n], k, m);
      assert ConsumedBySome(runs, k, m) <==> ConsumedBySome(runs[..n], k, m) || TokensMember(runs[n].script, k) == Some(m) by {
        assert forall i :: 0 <= i < n ==> runs[..n][i] == runs[i];
      }
    }
  }

  /** A member is in its set, at its captured time, exactly when some run recorded it and the window still covers it;
      how many attempts there were, and what others did in between, makes no difference. */
  lemma RecordedOnce(s: Store, requests: Log, tokens: Log, runs: seq<Run>, ttl: int, k: string,
                     clock: int, captured: string -> int, m: string)
    requires Exact(SetOf(s.rpm, k), requests, clock) && CapturedLog(requests, captured)
    requires Exact(SetOf(s.tpm, k), tokens, clock) && CapturedLog(tokens, captured)
    requires Timely(runs, clock, captured) && ttl >= WINDOW
    ensures var held := Within(SetOf(AfterRuns(s, runs, ttl).rpm, k).entries, LastClock(runs, clock));
      && (m in held <==> (m in requests || RecordedBySome(s, runs, ttl, k, m)) && captured(m) > LastClock(runs, clock) - WINDOW)
      && (m in held ==> held[m] == captured(m))
    ensures var held := Within(SetOf(AfterRuns(s, runs, ttl).tpm, k).entries, LastClock(runs, clock));
      && (m in held <==> (m in tokens || ConsumedBySome(runs, k, m)) && captured(m) > LastClock(runs, clock) - WINDOW)
      && (m in held ==> held[m] == captured(m))
  {
    SetsAreExact(s, requests, tokens, runs, ttl, k, clock, captured);
    ExactShows(SetOf(AfterRuns(s, runs, ttl).rpm, k), RequestLog(s, requests, runs, ttl, k), LastClock(runs, clock));
    ExactShows(SetOf(AfterRuns(s, runs, ttl).tpm, k), TokenLog(tokens, runs, k), LastClock(runs, clock));
    LoggedIffRecorded(s, requests, runs, ttl, k, m);
    LoggedIffConsumed(tokens, runs, k, m);
  }
}
