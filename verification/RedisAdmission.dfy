/** luaTryAllowAll and luaConsumeTokens over whole stores, against the in-process backend
    (internal/ratelimit/redis_backend.go, local_backend.go). */
module RedisAdmission {
  import opened Collections
  import opened Window
  import opened RedisScripts

  /** The stored sets, by limiter key. */
  datatype Store = Store(rpm: map<string, ZSet>, tpm: map<string, ZSet>)

  /** The arguments of one TryAllowAll; the members are fixed before the first attempt. */
  datatype Query = Query(credKey: string, credRPM: int, credTPM: int, credMember: string,
                         modelKey: string, modelRPM: int, modelTPM: int, modelMember: string)

  function SetOf(sets: map<string, ZSet>, key: string): ZSet {
    if key in sets then sets[key] else NO_SET
  }

  function PrunedSet(z: ZSet, now: int): ZSet {
    ZSet(Entries(z, now), z.deadline)
  }

  function PrunedAt(sets: map<string, ZSet>, key: string, now: int): map<string, ZSet> {
    sets[key := PrunedSet(SetOf(sets, key), now)]
  }

  function Zadd(sets: map<string, ZSet>, key: string, member: string, now: int, ttl: int): map<string, ZSet> {
    sets[key := ZSet(SetOf(sets, key).entries[member := now], now + ttl)]
  }

  // ----- the script -----

  ghost predicate KeyBelow(s: Store, key: string, rpmLimit: int, tpmLimit: int, now: int) {
    CheckRPM(SetOf(s.rpm, key), rpmLimit, now) && CheckTPM(SetOf(s.tpm, key), tpmLimit, now)
  }

  /** What checking one key prunes: the tokens only when the requests passed and tokens are limited. */
  ghost function KeyChecked(s: Store, key: string, rpmLimit: int, tpmLimit: int, now: int): Store {
    Store(PrunedAt(s.rpm, key, now),
          if CheckRPM(SetOf(s.rpm, key), rpmLimit, now) && tpmLimit != UNLIMITED then PrunedAt(s.tpm, key, now) else s.tpm)
  }

  ghost predicate AllHold(s: Store, q: Query, now: int) {
    && KeyBelow(s, q.credKey, q.credRPM, q.credTPM, now)
    && (q.modelKey != "" ==> KeyBelow(s, q.modelKey, q.modelRPM, q.modelTPM, now))
  }

  ghost function AllChecked(s: Store, q: Query, now: int): Store {
    var t := KeyChecked(s, q.credKey, q.credRPM, q.credTPM, now);
    if KeyBelow(s, q.credKey, q.credRPM, q.credTPM, now) && q.modelKey != ""
    then KeyChecked(t, q.modelKey, q.modelRPM, q.modelTPM, now) else t
  }

  ghost function Recorded(s: Store, q: Query, now: int, ttl: int): Store {
    var rpm := Zadd(s.rpm, q.credKey, q.credMember, now, ttl);
    Store(if q.modelKey == "" then rpm else Zadd(rpm, q.modelKey, q.modelMember, now, ttl), s.tpm)
  }

  /** luaTryAllowAll leaves: checks, then, when they all hold, one event under each key. */
  ghost function AllowedAll(s: Store, q: Query, now: int, ttl: int): Store {
    if AllHold(s, q, now) then Recorded(AllChecked(s, q, now), q, now, ttl) else AllChecked(s, q, now)
  }

  /** luaConsumeTokens */
  function Consumed(s: Store, key: string, member: string, now: int, ttl: int): Store {
    s.(tpm := s.tpm[key := Add(SetOf(s.tpm, key), member, now, ttl)])
  }

  // ----- pruning -----

  /** Pruned already, as far as now goes. */
  ghost predicate Settled(z: ZSet, now: int) {
    PrunedSet(z, now) == z
  }

  lemma PrunedIsSettled(z: ZSet, now: int)
    ensures Settled(PrunedSet(z, now), now)
    ensures Entries(PrunedSet(z, now), now) == Entries(z, now)
  {
  }

  lemma AddedIsSettled(z: ZSet, member: string, now: int, ttl: int)
    requires ttl >= WINDOW
    ensures Settled(Add(z, member, now, ttl), now)
  {
    AddIsStable(z, member, now, ttl);
  }

  ghost predicate MaybePruned(before: ZSet, after: ZSet, now: int) {
    after == before || after == PrunedSet(before, now)
  }

  lemma CheckedSets(s: Store, key: string, rpmLimit: int, tpmLimit: int, now: int, k: string)
    ensures var t := KeyChecked(s, key, rpmLimit, tpmLimit, now);
            && SetOf(t.rpm, k) == (if k == key then PrunedSet(SetOf(s.rpm, k), now) else SetOf(s.rpm, k))
            && SetOf(t.tpm, k) == (if k == key && CheckRPM(SetOf(s.rpm, k), rpmLimit, now) && tpmLimit != UNLIMITED
                                   then PrunedSet(SetOf(s.tpm, k), now) else SetOf(s.tpm, k))
  {
  }

  lemma AllCheckedSets(s: Store, q: Query, now: int, k: string)
    requires q.credKey != q.modelKey
    ensures MaybePruned(SetOf(s.rpm, k), SetOf(AllChecked(s, q, now).rpm, k), now)
    ensures MaybePruned(SetOf(s.tpm, k), SetOf(AllChecked(s, q, now).tpm, k), now)
    ensures AllHold(s, q, now) ==>
              SetOf(AllChecked(s, q, now).rpm, k) ==
                if k == q.credKey || (q.modelKey != "" && k == q.modelKey) then PrunedSet(SetOf(s.rpm, k), now)
                else SetOf(s.rpm, k)
  {
    CheckedSets(s, q.credKey, q.credRPM, q.credTPM, now, k);
    CheckedSets(KeyChecked(s, q.credKey, q.credRPM, q.credTPM, now), q.modelKey, q.modelRPM, q.modelTPM, now, k);
  }

  lemma RecordedSets(s: Store, q: Query, now: int, ttl: int, k: string)
    requires q.credKey != q.modelKey
    ensures Recorded(s, q, now, ttl).tpm == s.tpm
    ensures SetOf(Recorded(s, q, now, ttl).rpm, k) ==
              if k == q.credKey then ZSet(SetOf(s.rpm, k).entries[q.credMember := now], now + ttl)
              else if q.modelKey != "" && k == q.modelKey
              then ZSet(SetOf(s.rpm, k).entries[q.modelMember := now], now + ttl)
              else SetOf(s.rpm, k)
  {
  }

  /** The member recorded under a key, if the key is one of the two. */
  function MemberFor(q: Query, k: string): Option<string> {
    if k == q.credKey then Some(q.credMember)
    else if q.modelKey != "" && k == q.modelKey then Some(q.modelMember)
    else None
  }

  /** Every set after the script: an admission adds one member to each of the two keys, anything else at most prunes. */
  lemma AllowedAllSets(s: Store, q: Query, now: int, ttl: int, k: string)
    requires q.credKey != q.modelKey
    ensures MaybePruned(SetOf(s.tpm, k), SetOf(AllowedAll(s, q, now, ttl).tpm, k), now)
    ensures !AllHold(s, q, now) || MemberFor(q, k).None? ==>
              MaybePruned(SetOf(s.rpm, k), SetOf(AllowedAll(s, q, now, ttl).rpm, k), now)
    ensures AllHold(s, q, now) && MemberFor(q, k).Some? ==>
              SetOf(AllowedAll(s, q, now, ttl).rpm, k) == Add(SetOf(s.rpm, k), MemberFor(q, k).value, now, ttl)
  {
    AllCheckedSets(s, q, now, k);
    RecordedSets(AllChecked(s, q, now), q, now, ttl, k);
  }

  // ----- running the script again -----

  lemma PrunedAtSettled(sets: map<string, ZSet>, key: string, now: int)
    requires key in sets && Settled(sets[key], now)
    ensures PrunedAt(sets, key, now) == sets
  {
  }

  lemma CheckedTwice(s: Store, key: string, rpmLimit: int, tpmLimit: int, now: int)
    ensures var t := KeyChecked(s, key, rpmLimit, tpmLimit, now);
            && KeyChecked(t, key, rpmLimit, tpmLimit, now) == t
            && (KeyBelow(t, key, rpmLimit, tpmLimit, now) <==> KeyBelow(s, key, rpmLimit, tpmLimit, now))
            && key in t.rpm && Settled(t.rpm[key], now)
  {
    var t := KeyChecked(s, key, rpmLimit, tpmLimit, now);
    PrunedIsSettled(SetOf(s.rpm, key), now);
    PrunedIsSettled(SetOf(s.tpm, key), now);
    PrunedAtSettled(t.rpm, key, now);
    if CheckRPM(SetOf(s.rpm, key), rpmLimit, now) && tpmLimit != UNLIMITED {
      PrunedAtSettled(t.tpm, key, now);
    }
  }

  /** Checking one key leaves what checking the other sees. */
  lemma CheckedElsewhere(s: Store, key: string, rpmLimit: int, tpmLimit: int, now: int,
                         other: string, otherRPM: int, otherTPM: int)
    requires key != other
    ensures var t := KeyChecked(s, key, rpmLimit, tpmLimit, now);
            KeyBelow(t, other, otherRPM, otherTPM, now) <==> KeyBelow(s, other, otherRPM, otherTPM, now)
  {
  }

  /** Both sets of a key are pruned already, the tokens' only when they are limited. */
  ghost predicate SettledFor(t: Store, key: string, tpmLimit: int, now: int) {
    && key in t.rpm && Settled(t.rpm[key], now)
    && (tpmLimit != UNLIMITED ==> key in t.tpm && Settled(t.tpm[key], now))
  }

  lemma CheckedSettles(s: Store, key: string, rpmLimit: int, tpmLimit: int, now: int)
    requires KeyBelow(s, key, rpmLimit, tpmLimit, now)
    ensures SettledFor(KeyChecked(s, key, rpmLimit, tpmLimit, now), key, tpmLimit, now)
  {
    PrunedIsSettled(SetOf(s.rpm, key), now);
    PrunedIsSettled(SetOf(s.tpm, key), now);
  }

  lemma CheckingSettled(t: Store, key: string, rpmLimit: int, tpmLimit: int, now: int)
    requires SettledFor(t, key, tpmLimit, now)
    ensures KeyChecked(t, key, rpmLimit, tpmLimit, now) == t
  {
    PrunedAtSettled(t.rpm, key, now);
    if tpmLimit != UNLIMITED { PrunedAtSettled(t.tpm, key, now); }
  }

  lemma SettledElsewhere(s: Store, key: string, tpmLimit: int, now: int, other: string, otherRPM: int, otherTPM: int)
    requires key != other && SettledFor(s, key, tpmLimit, now)
    ensures SettledFor(KeyChecked(s, other, otherRPM, otherTPM, now), key, tpmLimit, now)
  {
  }

  /** A refusing script, run again, refuses again and leaves the store as it is. */
  lemma RefusedTwice(s: Store, q: Query, now: int)
    requires q.credKey != q.modelKey && !AllHold(s, q, now)
    ensures var t := AllChecked(s, q, now); !AllHold(t, q, now) && AllChecked(t, q, now) == t
  {
    var t1 := KeyChecked(s, q.credKey, q.credRPM, q.credTPM, now);
    CheckedTwice(s, q.credKey, q.credRPM, q.credTPM, now);
    if KeyBelow(s, q.credKey, q.credRPM, q.credTPM, now) {
      CheckedElsewhere(s, q.credKey, q.credRPM, q.credTPM, now, q.modelKey, q.modelRPM, q.modelTPM);
      CheckedElsewhere(t1, q.modelKey, q.modelRPM, q.modelTPM, now, q.credKey, q.credRPM, q.credTPM);
      CheckedTwice(t1, q.modelKey, q.modelRPM, q.modelTPM, now);
      CheckedSettles(s, q.credKey, q.credRPM, q.credTPM, now);
      SettledElsewhere(t1, q.credKey, q.credTPM, now, q.modelKey, q.modelRPM, q.modelTPM);
      CheckingSettled(KeyChecked(t1, q.modelKey, q.modelRPM, q.modelTPM, now), q.credKey, q.credRPM, q.credTPM, now);
    }
  }

  lemma CheckedAllSettles(s: Store, q: Query, now: int)
    requires q.credKey != q.modelKey && AllHold(s, q, now)
    ensures SettledFor(AllChecked(s, q, now), q.credKey, q.credTPM, now)
    ensures q.modelKey != "" ==> SettledFor(AllChecked(s, q, now), q.modelKey, q.modelTPM, now)
  {
    var t1 := KeyChecked(s, q.credKey, q.credRPM, q.credTPM, now);
    CheckedSettles(s, q.credKey, q.credRPM, q.credTPM, now);
    if q.modelKey != "" {
      CheckedElsewhere(s, q.credKey, q.credRPM, q.credTPM, now, q.modelKey, q.modelRPM, q.modelTPM);
      CheckedSettles(t1, q.modelKey, q.modelRPM, q.modelTPM, now);
      SettledElsewhere(t1, q.credKey, q.credTPM, now, q.modelKey, q.modelRPM, q.modelTPM);
    }
  }

  /** The set of a key holds its recorded member already. */
  ghost predicate Holds(sets: map<string, ZSet>, key: string, member: string, now: int, ttl: int) {
    && key in sets && Settled(sets[key], now)
    && sets[key].entries == sets[key].entries[member := now] && sets[key].deadline == now + ttl
  }

  lemma ZaddAgain(sets: map<string, ZSet>, key: string, member: string, now: int, ttl: int)
    requires Holds(sets, key, member, now, ttl)
    ensures Zadd(sets, key, member, now, ttl) == sets
  {
  }

  lemma RecordedHolds(s: Store, q: Query, now: int, ttl: int)
    requires q.credKey != q.modelKey && AllHold(s, q, now) && ttl >= WINDOW
    ensures Holds(AllowedAll(s, q, now, ttl).rpm, q.credKey, q.credMember, now, ttl)
    ensures q.modelKey != "" ==> Holds(AllowedAll(s, q, now, ttl).rpm, q.modelKey, q.modelMember, now, ttl)
  {
    AllowedAllSets(s, q, now, ttl, q.credKey);
    AddedIsSettled(SetOf(s.rpm, q.credKey), q.credMember, now, ttl);
    if q.modelKey != "" {
      AllowedAllSets(s, q, now, ttl, q.modelKey);
      AddedIsSettled(SetOf(s.rpm, q.modelKey), q.modelMember, now, ttl);
    }
  }

  /** Running luaTryAllowAll again with the same members and time leaves the store as after one run. */
  lemma AllowedTwice(s: Store, q: Query, now: int, ttl: int)
    requires q.credKey != q.modelKey && ttl >= WINDOW
    ensures AllowedAll(AllowedAll(s, q, now, ttl), q, now, ttl) == AllowedAll(s, q, now, ttl)
    ensures AllHold(AllowedAll(s, q, now, ttl), q, now) ==> AllHold(s, q, now)
  {
    if !AllHold(s, q, now) {
      RefusedTwice(s, q, now);
    } else {
      var t := AllowedAll(s, q, now, ttl);
      CheckedAllSettles(s, q, now);
      RecordedHolds(s, q, now, ttl);
      assert SettledFor(t, q.credKey, q.credTPM, now);
      CheckingSettled(t, q.credKey, q.credRPM, q.credTPM, now);
      ZaddAgain(t.rpm, q.credKey, q.credMember, now, ttl);
      if q.modelKey != "" {
        assert SettledFor(t, q.modelKey, q.modelTPM, now);
        CheckingSettled(t, q.modelKey, q.modelRPM, q.modelTPM, now);
        ZaddAgain(t.rpm, q.modelKey, q.modelMember, now, ttl);
      }
    }
  }

  /** The same for luaConsumeTokens. */
  lemma ConsumedTwice(s: Store, key: string, member: string, now: int, ttl: int)
    requires ttl >= WINDOW
    ensures Consumed(Consumed(s, key, member, now, ttl), key, member, now, ttl) == Consumed(s, key, member, now, ttl)
  {
    AddIsStable(SetOf(s.tpm, key), member, now, ttl);
  }
}
