/** What the hybrid backend's queued writes leave in the shared store (internal/ratelimit/hybrid_backend.go). */
module HybridWrites {
  import opened Collections
  import opened Window
  import opened RedisScripts
  import opened RedisAdmission
  import opened RedisInterference
  import opened HybridBackend

  /** A request is written by a script without a limit, tokens by the consuming one; both keep the captured time. */
  function WriteOf(op: AsyncOp, clock: int): Run {
    Run(match op.kind case OpRPM => AllowRPM(op.key, UNLIMITED, op.member) case OpTPM => Consume(op.key, op.member), op.at, clock)
  }

  /** The scripts of flushed operations, in order. */
  function Writes(ops: seq<AsyncOp>, clocks: seq<int>): (runs: seq<Run>)
    requires |ops| == |clocks|
    ensures |runs| == |ops| && forall i :: 0 <= i < |ops| ==> runs[i] == WriteOf(ops[i], clocks[i])
  {
    seq(|ops|, i requires 0 <= i < |ops| => WriteOf(ops[i], clocks[i]))
  }

  // ----- an admission -----

  /** An admitted request offers one write for each key it has a member for, and nothing else; a refused one none. */
  lemma OffersAreMembers(q: PairQuery, now: int, op: AsyncOp)
    ensures op in Offers(true, q.credKey, q.credMember, q.modelKey, q.modelMember, now) <==>
              op.kind == OpRPM && op.at == now && MemberFor(q, op.key) == Some(op.member)
    ensures |Offers(true, q.credKey, q.credMember, q.modelKey, q.modelMember, now)| == if q.modelKey == "" then 1 else 2
    ensures Offers(false, q.credKey, q.credMember, q.modelKey, q.modelMember, now) == []
  {
  }

  lemma WriteMoves(s: Store, op: AsyncOp, clock: int, ttl: int, k: string)
    requires op.at <= clock && ttl > 0 && op.kind == OpRPM
    ensures var t := Execute(s, WriteOf(op, clock), ttl);
      SetAt(SetOf(t.rpm, k), clock) ==
        if op.key == k then Add(SetAt(SetOf(s.rpm, k), clock), op.member, op.at, ttl + clock - op.at)
        else SetAt(SetOf(s.rpm, k), clock)
  {
    SetOfUnexpired(s.rpm, clock, k);
  }

  lemma OneMoreWrite(s: Store, t: Store, before: seq<Run>, r: Run, ttl: int)
    requires t == AfterRuns(s, before, ttl)
    ensures AfterRuns(s, before + [r], ttl) == Execute(t, r, ttl)
  {
    var runs := before + [r];
    assert runs[..|runs| - 1] == before;
    assert AfterLast(s, runs, ttl) == Execute(t, r, ttl);
  }

  lemma OffersMove(s: Store, q: PairQuery, now: int, clock: int, ttl: int, k: string)
    requires now <= clock && ttl > 0 && MemberFor(q, k).Some?
    ensures var ops := Offers(true, q.credKey, q.credMember, q.modelKey, q.modelMember, now);
      SetAt(SetOf(AfterRuns(s, Writes(ops, seq(|ops|, _ => clock)), ttl).rpm, k), clock) ==
        Add(SetAt(SetOf(s.rpm, k), clock), MemberFor(q, k).value, now, ttl + clock - now)
  {
    var ops := Offers(true, q.credKey, q.credMember, q.modelKey, q.modelMember, now);
    var runs := Writes(ops, seq(|ops|, _ => clock));
    WriteMoves(s, ops[0], clock, ttl, k);
    if q.modelKey == "" {
      assert runs == [WriteOf(ops[0], clock)];
      OneRun(s, runs[0], ttl);
    } else {
      assert runs == [runs[0]] + [runs[1]];
      OneRun(s, runs[0], ttl);
      OneMoreWrite(s, Execute(s, runs[0], ttl), [runs[0]], runs[1], ttl);
      WriteMoves(Execute(s, runs[0], ttl), ops[1], clock, ttl, k);
    }
  }

  /** Written out at one instant, an admission adds to each of its keys the member that the shared script would have added. */
  lemma AdmissionReachesStore(s: Store, q: PairQuery, now: int, clock: int, ttl: int, k: string)
    requires now <= clock && ttl > 0 && MemberFor(q, k).Some?
    ensures var ops := Offers(true, q.credKey, q.credMember, q.modelKey, q.modelMember, now);
      var after := SetAt(SetOf(AfterRuns(s, Writes(ops, seq(|ops|, _ => clock)), ttl).rpm, k), clock);
      && after == Add(SetAt(SetOf(s.rpm, k), clock), MemberFor(q, k).value, now, ttl + clock - now)
      && (AllHold(At(s, clock), q, now) ==> after == SetOf(Execute(s, Run(AllowAll(q), now, clock), ttl).rpm, k))
  {
    OffersMove(s, q, now, clock, ttl, k);
    ExecuteMoves(s, Run(AllowAll(q), now, clock), ttl, k);
  }

  // ----- everything flushed -----

  /** Some operation writes this member under the key. */
  ghost predicate WrittenBySome(ops: seq<AsyncOp>, kind: OpKind, k: string, m: string) {
    exists i :: 0 <= i < |ops| && ops[i].kind == kind && ops[i].key == k && ops[i].member == m
  }

  lemma WrittenSnoc(ops: seq<AsyncOp>, kind: OpKind, k: string, m: string)
    requires ops != []
    ensures var n := |ops| - 1; WrittenBySome(ops, kind, k, m) <==>
      WrittenBySome(ops[..n], kind, k, m) || (ops[n].kind == kind && ops[n].key == k && ops[n].member == m)
  {
    var n := |ops| - 1;
    if WrittenBySome(ops[..n], kind, k, m) {
      var i :| 0 <= i < n && ops[..n][i].kind == kind && ops[..n][i].key == k && ops[..n][i].member == m;
      assert ops[i].member == m;
    }
    if WrittenBySome(ops, kind, k, m) && !(ops[n].kind == kind && ops[n].key == k && ops[n].member == m) {
      var i :| 0 <= i < |ops| && ops[i].kind == kind && ops[i].key == k && ops[i].member == m;
      assert ops[..n][i].member == m;
    }
  }

  lemma {:induction false} WritesAreLogged(s: Store, ops: seq<AsyncOp>, clocks: seq<int>, ttl: int, k: string, m: string)
    requires |ops| == |clocks|
    ensures m in RequestLog(s, map[], Writes(ops, clocks), ttl, k) <==> WrittenBySome(ops, OpRPM, k, m)
    ensures m in TokenLog(map[], Writes(ops, clocks), k) <==> WrittenBySome(ops, OpTPM, k, m)
  {
    if ops != [] {
      var n := |ops| - 1;
      WritesAreLogged(s, ops[..n], clocks[..n], ttl, k, m);
      assert Writes(ops, clocks)[..n] == Writes(ops[..n], clocks[..n]);
      WrittenSnoc(ops, OpRPM, k, m);
      WrittenSnoc(ops, OpTPM, k, m);
    }
  }

  /** The members a set shows inside the window. */
  ghost predicate Shows(z: ZSet, m: string, clock: int) {
    m in z.entries && z.entries[m] > clock - WINDOW
  }

  /**
   Flushed onto an empty store, in batches of any size: inside the window every key shows exactly the members that were
   written to it, requests among the requests and tokens among the tokens, each at the time its caller captured.
   */
  lemma FlushedIsShown(ops: seq<AsyncOp>, clocks: seq<int>, ttl: int, k: string, m: string, captured: string -> int)
    requires |ops| == |clocks| && ttl >= WINDOW
    requires Timely(Writes(ops, clocks), 0, captured)
    ensures var runs := Writes(ops, clocks);
      var t, clock := AfterRuns(Store(map[], map[]), runs, ttl), LastClock(runs, 0);
      && (Shows(SetOf(t.rpm, k), m, clock) <==> WrittenBySome(ops, OpRPM, k, m) && captured(m) > clock - WINDOW)
      && (Shows(SetOf(t.tpm, k), m, clock) <==> WrittenBySome(ops, OpTPM, k, m) && captured(m) > clock - WINDOW)
  {
    var s, runs := Store(map[], map[]), Writes(ops, clocks);
    SetsAreExact(s, map[], map[], runs, ttl, k, 0, captured);
    WritesAreLogged(s, ops, clocks, ttl, k, m);
  }
}
