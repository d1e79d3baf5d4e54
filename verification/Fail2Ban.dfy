/** Bans of credential and model pairs after repeated provider errors (internal/fail2ban/fail2ban.go). */
module Fail2Ban {
  import opened Collections

  /** A duration of 0 is permanent. */
  datatype Rule = Rule(maxAttempts: int, banDuration: int)

  datatype Policy = Policy(fallback: Rule, errorCodes: set<int>, rules: map<int, Rule>) {
    function RuleFor(code: int): Rule {
      if code in rules then rules[code] else fallback
    }

    /** An empty code list tracks every code. */
    predicate Tracks(code: int) {
      errorCodes == {} || code in errorCodes
    }

    /** Failures of this code that ban a pair. */
    function Threshold(code: int): int {
      if RuleFor(code).maxAttempts < 1 then 1 else RuleFor(code).maxAttempts
    }

    /** Codes that count failures and so can ban. */
    predicate Counts(code: int) {
      Tracks(code) && !IsSuccess(code)
    }
  }

  datatype Ban = Ban(banTime: int, banDuration: int, errorCode: int)

  predicate Active(ban: Ban, now: int) {
    ban.banDuration == 0 || now - ban.banTime <= ban.banDuration
  }

  /** The expiry test RecordResponse uses before counting a response. */
  predicate Lapsed(ban: Ban, now: int) {
    ban.banDuration > 0 && now - ban.banTime > ban.banDuration
  }

  function BanKey(credential: string, model: string): string {
    credential + "|" + model
  }

  /** Everything kept about one pair. */
  datatype Pair = Pair(failures: map<int, int>, ban: Option<Ban>)

  const CLEAR := Pair(map[], None)

  predicate IsSuccess(code: int) {
    200 <= code < 300
  }

  function Count(failures: map<int, int>, code: int): int {
    if code in failures then failures[code] else 0
  }

  /** Counts one response against a pair that is not banned. */
  function Counted(p: Pair, policy: Policy, code: int, now: int): Pair {
    if IsSuccess(code) then p.(failures := map[])
    else if !policy.Tracks(code) then p
    else
      var n := Count(p.failures, code) + 1;
      Pair(p.failures[code := n],
           if n >= policy.RuleFor(code).maxAttempts then Some(Ban(now, policy.RuleFor(code).banDuration, code)) else p.ban)
  }

  /** The pair as RecordResponse leaves it. */
  function Responded(p: Pair, policy: Policy, code: int, now: int): Pair {
    if p.ban.Some? && !Lapsed(p.ban.value, now) then p
    else Counted(if p.ban.Some? then CLEAR else p, policy, code, now)
  }

  /** The pair as an expiry check leaves it: an expired ban takes the counters with it. */
  function Expired(p: Pair, now: int): Pair {
    if p.ban.Some? && !Active(p.ban.value, now) then CLEAR else p
  }

  function Unbanned(p: Pair): Pair {
    if p.ban.Some? then CLEAR else p
  }

  /** The two maps of the ban table. */
  datatype Table = Table(failures: map<string, map<int, int>>, banned: map<string, Ban>) {
    function At(key: string): Pair {
      Pair(if key in failures then failures[key] else map[],
           if key in banned then Some(banned[key]) else None)
    }

    function Put(key: string, p: Pair): Table {
      Table(if p.failures == map[] then failures - {key} else failures[key := p.failures],
            if p.ban.Some? then banned[key := p.ban.value] else banned - {key})
    }

    /** Keys whose ban is in force. */
    function ActiveKeys(now: int): set<string> {
      set key | key in banned && Active(banned[key], now)
    }

    /** Lifts the bans of every key that starts with the prefix. */
    ghost function WithoutPrefix(prefix: string): Table {
      var lifted := set key | key in banned && prefix <= key;
      Table(failures - lifted, banned - lifted)
    }

    ghost predicate NoEmptyCounters() {
      forall key :: key in failures ==> failures[key] != map[]
    }
  }

  const EMPTY := Table(map[], map[])

  class Fail2Ban {
    const policy: Policy
    var failures: map<string, map<int, int>>
    var banned: map<string, Ban>

    ghost function State(): Table
      reads this
    {
      Table(failures, banned)
    }

    constructor (policy: Policy)
      ensures this.policy == policy && State() == EMPTY
    {
      this.policy := policy;
      failures, banned := map[], map[];
    }

    method RecordResponse(credential: string, model: string, code: int, now: int)
      requires State().NoEmptyCounters()
      modifies this
      ensures State().NoEmptyCounters()
      ensures State() == old(State()).Put(BanKey(credential, model),
                                          Responded(old(State()).At(BanKey(credential, model)), policy, code, now))
    {
      var key := BanKey(credential, model);
      ghost var before := State();
      if key in banned {
        var ban := banned[key];
        if ban.banDuration > 0 && now - ban.banTime > ban.banDuration {
          banned := banned - {key};
          failures := failures - {key};
        } else {
          PutSame(before, key);
          return;
        }
      }
      ghost var p := if key in before.banned then CLEAR else before.At(key);
      assert State().At(key) == p && State().Put(key, p) == State();
      CountResponse(key, code, now);
      PutTwice(before, key, p, Counted(p, policy, code, now));
    }

    /** The counting half of RecordResponse, for a key that is not banned. */
    method CountResponse(key: string, code: int, now: int)
      requires State().NoEmptyCounters() && key !in banned
      modifies this
      ensures State().NoEmptyCounters()
      ensures State() == old(State()).Put(key, Counted(old(State()).At(key), policy, code, now))
    {
      PutSame(State(), key);
      if code >= 200 && code < 300 {
        failures := failures - {key};
        return;
      }
      if policy.errorCodes != {} && code !in policy.errorCodes {
        return;
      }
      var rule := policy.RuleFor(code);
      var codes := if key in failures then failures[key] else map[];
      codes := codes[code := (if code in codes then codes[code] else 0) + 1];
      failures := failures[key := codes];
      if codes[code] >= rule.maxAttempts {
        banned := banned[key := Ban(now, rule.banDuration, code)];
      }
    }

    /** Reads the ban; an expired one is removed on the way. */
    method IsBanned(credential: string, model: string, now: int) returns (result: bool)
      requires State().NoEmptyCounters()
      modifies this
      ensures State().NoEmptyCounters()
      ensures result <==> BanKey(credential, model) in old(State()).ActiveKeys(now)
      ensures State() == old(State()).Put(BanKey(credential, model), Expired(old(State()).At(BanKey(credential, model)), now))
    {
      var key := BanKey(credential, model);
      PutSame(State(), key);
      if key !in banned {
        return false;
      }
      var ban := banned[key];
      if ban.banDuration == 0 {
        return true;
      }
      if now - ban.banTime > ban.banDuration {
        banned := banned - {key};
        failures := failures - {key};
        return false;
      }
      return true;
    }

    method Unban(credential: string, model: string)
      requires State().NoEmptyCounters()
      modifies this
      ensures State().NoEmptyCounters()
      ensures State() == old(State()).Put(BanKey(credential, model), Unbanned(old(State()).At(BanKey(credential, model))))
    {
      var key := BanKey(credential, model);
      PutSame(State(), key);
      if key in banned {
        banned := banned - {key};
        failures := failures - {key};
      }
    }

    method UnbanCredential(credential: string)
      requires State().NoEmptyCounters()
      modifies this
      ensures State().NoEmptyCounters()
      ensures State() == old(State()).WithoutPrefix(credential + "|")
    {
      var prefix := credential + "|";
      var pending := banned.Keys;
      ghost var lifted := {};
      while pending != {}
        invariant pending <= old(banned.Keys)
        invariant lifted == set key | key in old(banned) && key !in pending && prefix <= key
        invariant banned == old(banned) - lifted && failures == old(failures) - lifted
        decreases pending
      {
        var key :| key in pending;
        pending := pending - {key};
        if prefix <= key {
          lifted := lifted + {key};
          banned := banned - {key};
          failures := failures - {key};
        }
      }
    }

    method HasAnyBan(credential: string, now: int) returns (result: bool)
      ensures result <==> exists key :: key in State().ActiveKeys(now) && credential + "|" <= key
    {
      var prefix := credential + "|";
      var pending := banned.Keys;
      while pending != {}
        invariant pending <= banned.Keys
        invariant forall key :: key in State().ActiveKeys(now) && prefix <= key ==> key in pending
        decreases pending
      {
        var key :| key in pending;
        pending := pending - {key};
        if prefix <= key {
          var ban := banned[key];
          if ban.banDuration == 0 || now - ban.banTime <= ban.banDuration {
            assert key in State().ActiveKeys(now);
            return true;
          }
        }
      }
      return false;
    }

    method GetBannedCount(now: int) returns (count: nat)
      ensures count == |State().ActiveKeys(now)|
    {
      count := 0;
      var pending := banned.Keys;
      ghost var counted := {};
      while pending != {}
        invariant pending <= banned.Keys
        invariant counted == set key | key in banned && key !in pending && Active(banned[key], now)
        invariant count == |counted|
        decreases pending
      {
        var key :| key in pending;
        pending := pending - {key};
        var ban := banned[key];
        if ban.banDuration == 0 || now - ban.banTime <= ban.banDuration {
          counted := counted + {key};
          count := count + 1;
        }
      }
      assert counted == State().ActiveKeys(now);
    }
  }

  lemma PutTwice(t: Table, key: string, p: Pair, q: Pair)
    ensures t.Put(key, p).Put(key, q) == t.Put(key, q)
  {
  }

  lemma PutSame(t: Table, key: string)
    requires t.NoEmptyCounters()
    ensures t.Put(key, t.At(key)) == t
  {
  }
}
