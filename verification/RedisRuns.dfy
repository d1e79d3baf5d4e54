/** Whole runs of token recordings and TryAllowAll attempts on the shared store and on the in-process backend
    (internal/ratelimit/redis_backend.go, local_backend.go). */
module RedisRuns {
  import opened Collections
  import opened Window
  import opened RedisScripts
  import opened RedisAdmission
  import opened RedisRefinement
  import L = LocalBackend

  datatype Op =
    | ConsumeOp(key: string, e: TokenEvent)
    | AttemptOp(q: Query, at: int)

  function TimeOf(op: Op): int {
    match op
    case ConsumeOp(_, e) => e.at
    case AttemptOp(_, at) => at
  }

  // ----- the shared store -----

  ghost function StoreStep(s: Store, op: Op, ttl: int): Store {
    match op
    case ConsumeOp(key, e) => Consumed(s, key, TokenMember(e.uuid, e.count), e.at, ttl)
    case AttemptOp(q, at) => AllowedAll(s, q, at, ttl)
  }

  /** Recording tokens is always answered. */
  ghost predicate StoreAnswer(s: Store, op: Op) {
    op.AttemptOp? ==> AllHold(s, op.q, op.at)
  }

  ghost function StoreAfter(ops: seq<Op>, ttl: int): Store {
    if ops == [] then Store(map[], map[]) else StoreStep(StoreAfter(ops[..|ops| - 1], ttl), ops[|ops| - 1], ttl)
  }

  ghost function StoreAnswers(ops: seq<Op>, ttl: int): seq<bool> {
    if ops == [] then []
    else StoreAnswers(ops[..|ops| - 1], ttl) + [StoreAnswer(StoreAfter(ops[..|ops| - 1], ttl), ops[|ops| - 1])]
  }

  // ----- the in-process backend; each case is what the corresponding method ensures -----

  ghost predicate LocalAnswer(usage: map<string, Usage>, op: Op) {
    op.AttemptOp? ==>
      L.AllBelow(usage, op.q.credKey, op.q.credRPM, op.q.credTPM, op.q.modelKey, op.q.modelRPM, op.q.modelTPM, op.at)
  }

  ghost function LocalStep(usage: map<string, Usage>, op: Op): map<string, Usage> {
    match op
    case ConsumeOp(key, e) => usage[key := RecordTokens(L.UsageOf(usage, key), e.count, e.at)]
    case AttemptOp(q, at) => if LocalAnswer(usage, op) then L.RecordAll(usage, q.credKey, q.modelKey, at) else usage
  }

  ghost function LocalAfter(ops: seq<Op>): map<string, Usage> {
    if ops == [] then map[] else LocalStep(LocalAfter(ops[..|ops| - 1]), ops[|ops| - 1])
  }

  ghost function LocalAnswers(ops: seq<Op>): seq<bool> {
    if ops == [] then []
    else LocalAnswers(ops[..|ops| - 1]) + [LocalAnswer(LocalAfter(ops[..|ops| - 1]), ops[|ops| - 1])]
  }

  /** The history both sides stand for. */
  ghost function HistoryAfter(ops: seq<Op>): Histories {
    if ops == [] then map[]
    else HistoryStep(HistoryAfter(ops[..|ops| - 1]), LocalAfter(ops[..|ops| - 1]), ops[|ops| - 1])
  }

  ghost function HistoryStep(hist: Histories, usage: map<string, Usage>, op: Op): Histories {
    match op
    case ConsumeOp(key, e) => WithTokens(hist, key, e)
    case AttemptOp(q, at) => if LocalAnswer(usage, op) then WithAdmission(hist, q, at) else hist
  }

  // ----- what callers supply -----

  function MembersOf(op: Op): set<string> {
    if op.AttemptOp? then {op.q.credMember, op.q.modelMember} else {}
  }

  function IdsOf(op: Op): set<string> {
    if op.ConsumeOp? then {op.e.uuid} else {}
  }

  function UsedMembers(ops: seq<Op>): set<string> {
    if ops == [] then {} else UsedMembers(ops[..|ops| - 1]) + MembersOf(ops[|ops| - 1])
  }

  function UsedIds(ops: seq<Op>): set<string> {
    if ops == [] then {} else UsedIds(ops[..|ops| - 1]) + IdsOf(ops[|ops| - 1])
  }

  function LastTime(ops: seq<Op>): int {
    if ops == [] then 0 else TimeOf(ops[|ops| - 1])
  }

  /** Time does not go back, and the two keys differ. */
  predicate OrderlyOp(before: seq<Op>, op: Op) {
    0 <= LastTime(before) <= TimeOf(op) && (op.AttemptOp? ==> op.q.credKey != op.q.modelKey)
  }

  predicate Orderly(ops: seq<Op>) {
    ops != [] ==> Orderly(ops[..|ops| - 1]) && OrderlyOp(ops[..|ops| - 1], ops[|ops| - 1])
  }

  /** An orderly operation whose members and identifiers are fresh. */
  predicate FreshOp(before: seq<Op>, op: Op) {
    && OrderlyOp(before, op)
    && MembersOf(op) !! UsedMembers(before) && IdsOf(op) !! UsedIds(before)
    && (op.ConsumeOp? ==> ':' !in op.e.uuid)
  }

  predicate FreshRun(ops: seq<Op>) {
    ops != [] ==> FreshRun(ops[..|ops| - 1]) && FreshOp(ops[..|ops| - 1], ops[|ops| - 1])
  }

  /** The in-process buffers never have to drop a record. */
  ghost predicate OpFits(usage: map<string, Usage>, op: Op) {
    match op
    case ConsumeOp(key, e) => TokensFit(usage, key, e.at)
    case AttemptOp(q, at) => LocalAnswer(usage, op) ==> AdmissionFits(usage, q, at)
  }

  ghost predicate RunFits(ops: seq<Op>) {
    ops != [] ==> RunFits(ops[..|ops| - 1]) && OpFits(LocalAfter(ops[..|ops| - 1]), ops[|ops| - 1])
  }

  // ----- histories hold what callers supplied -----

  lemma {:induction false} HistoryMembers(ops: seq<Op>, key: string, i: nat)
    requires FreshRun(ops) && i < |HistoryOf(HistoryAfter(ops), key).requests|
    ensures HistoryOf(HistoryAfter(ops), key).requests[i].member in UsedMembers(ops)
  {
    if ops != [] {
      var before, op := ops[..|ops| - 1], ops[|ops| - 1];
      if i < |HistoryOf(HistoryAfter(before), key).requests| {
        HistoryMembers(before, key, i);
      }
      if op.AttemptOp? {
        AdmissionHistory(HistoryAfter(before), op.q, op.at, key);
      }
    }
  }

  lemma {:induction false} HistoryIds(ops: seq<Op>, key: string, i: nat)
    requires FreshRun(ops) && i < |HistoryOf(HistoryAfter(ops), key).tokens|
    ensures HistoryOf(HistoryAfter(ops), key).tokens[i].uuid in UsedIds(ops)
  {
    if ops != [] {
      var before, op := ops[..|ops| - 1], ops[|ops| - 1];
      if i < |HistoryOf(HistoryAfter(before), key).tokens| {
        HistoryIds(before, key, i);
      }
      if op.AttemptOp? {
        AdmissionHistory(HistoryAfter(before), op.q, op.at, key);
      }
    }
  }

  lemma FreshAttempt(before: seq<Op>, op: Op)
    requires FreshRun(before) && FreshOp(before, op) && op.AttemptOp?
    ensures FreshMembers(HistoryAfter(before), op.q)
  {
    forall key, i: nat | i < |HistoryOf(HistoryAfter(before), key).requests|
      ensures HistoryOf(HistoryAfter(before), key).requests[i].member !in MembersOf(op)
    {
      HistoryMembers(before, key, i);
    }
  }

  lemma FreshTokens(before: seq<Op>, op: Op)
    requires FreshRun(before) && FreshOp(before, op) && op.ConsumeOp?
    ensures FreshId(HistoryOf(HistoryAfter(before), op.key).tokens, op.e)
  {
    forall i: nat | i < |HistoryOf(HistoryAfter(before), op.key).tokens|
      ensures HistoryOf(HistoryAfter(before), op.key).tokens[i].uuid != op.e.uuid
    {
      HistoryIds(before, op.key, i);
    }
  }

  // ----- both sides in step -----

  lemma EmptyStoreShows()
    ensures StoreShows(Store(map[], map[]), map[], 0) && UsageShows(map[], map[])
  {
    forall key ensures KeyShows(Store(map[], map[]), NOTHING, key, 0) {
      assert TokenEvents([]) == [];
      assert Represents(NO_SET, [], 0);
    }
  }

  /** Store and usage stand for one history. */
  ghost predicate InStep(s: Store, usage: map<string, Usage>, hist: Histories, clock: int) {
    StoreShows(s, hist, clock) && UsageShows(usage, hist)
  }

  lemma ConsumeInStep(s: Store, usage: map<string, Usage>, hist: Histories, clock: int, op: Op, ttl: int)
    requires InStep(s, usage, hist, clock) && 0 <= clock <= TimeOf(op) && ttl >= WINDOW
    requires op.ConsumeOp? && FreshId(HistoryOf(hist, op.key).tokens, op.e) && OpFits(usage, op)
    ensures InStep(StoreStep(s, op, ttl), LocalStep(usage, op), HistoryStep(hist, usage, op), TimeOf(op))
  {
    StoreAfterTokens(s, hist, clock, op.key, op.e, ttl);
    UsageAfterTokens(usage, hist, op.key, op.e);
  }

  lemma AttemptInStep(s: Store, usage: map<string, Usage>, hist: Histories, clock: int, op: Op, ttl: int)
    requires InStep(s, usage, hist, clock) && 0 <= clock <= TimeOf(op) && ttl >= WINDOW
    requires op.AttemptOp? && op.q.credKey != op.q.modelKey && FreshMembers(hist, op.q) && OpFits(usage, op)
    ensures StoreAnswer(s, op) == LocalAnswer(usage, op)
    ensures InStep(StoreStep(s, op, ttl), LocalStep(usage, op), HistoryStep(hist, usage, op), TimeOf(op))
  {
    DecisionsRefine(s, hist, usage, clock, op.q, op.at);
    AttemptRefines(s, hist, usage, clock, op.q, op.at, ttl);
  }

  lemma {:induction false} RunInStep(ops: seq<Op>, ttl: int)
    requires FreshRun(ops) && RunFits(ops) && ttl >= WINDOW
    ensures InStep(StoreAfter(ops, ttl), LocalAfter(ops), HistoryAfter(ops), LastTime(ops))
    ensures StoreAnswers(ops, ttl) == LocalAnswers(ops)
  {
    if ops == [] {
      EmptyStoreShows();
    } else {
      var before, op := ops[..|ops| - 1], ops[|ops| - 1];
      RunInStep(before, ttl);
      var s, usage, hist := StoreAfter(before, ttl), LocalAfter(before), HistoryAfter(before);
      if op.AttemptOp? {
        FreshAttempt(before, op);
        AttemptInStep(s, usage, hist, LastTime(before), op, ttl);
      } else {
        FreshTokens(before, op);
        ConsumeInStep(s, usage, hist, LastTime(before), op, ttl);
      }
    }
  }

  /** Over every run of token recordings and attempts, with fresh members and keys that outlive the window, the scripts
      answer every attempt as the in-process backend does, as long as its buffers drop nothing. */
  lemma SameAnswers(ops: seq<Op>, ttl: int)
    requires FreshRun(ops) && RunFits(ops) && ttl >= WINDOW
    ensures StoreAnswers(ops, ttl) == LocalAnswers(ops)
  {
    RunInStep(ops, ttl);
  }
}
