/** Configured limits in front of the local backend (internal/ratelimit/rpm.go). */
module RpmLimiter {
  import opened Window
  import opened LocalBackend

  /** -1 means unlimited. */
  datatype LimiterConfig = LimiterConfig(rpm: int, tpm: int)

  function MakeModelKey(credential: string, model: string): string {
    credential + ":" + model
  }

  function CredKey(credential: string): string {
    "c:" + credential
  }

  function ModelCounterKey(credential: string, model: string): string {
    "m:" + MakeModelKey(credential, model)
  }

  /** The counter a selection charges for the model, or none when no model limit is configured. */
  function ModelCounter(modelLimits: map<string, LimiterConfig>, credential: string, model: string): string {
    if model != "" && MakeModelKey(credential, model) in modelLimits then ModelCounterKey(credential, model) else ""
  }

  function ModelConfig(modelLimits: map<string, LimiterConfig>, credential: string, model: string): LimiterConfig {
    if model != "" && MakeModelKey(credential, model) in modelLimits
    then modelLimits[MakeModelKey(credential, model)]
    else LimiterConfig(UNLIMITED, UNLIMITED)
  }

  /** Every configured limit that applies to the pair leaves room for one more request. */
  ghost predicate Permits(limits: map<string, LimiterConfig>, modelLimits: map<string, LimiterConfig>,
                          usage: map<string, Usage>, credential: string, model: string, now: int)
  {
    && credential in limits
    && var modelCfg := ModelConfig(modelLimits, credential, model);
       AllBelow(usage, CredKey(credential), limits[credential].rpm, limits[credential].tpm,
                ModelCounter(modelLimits, credential, model), modelCfg.rpm, modelCfg.tpm, now)
  }

  /** The credentials that could be admitted for the model right now. */
  ghost function RoomOf(limits: map<string, LimiterConfig>, modelLimits: map<string, LimiterConfig>,
                        usage: map<string, Usage>, model: string, now: int): set<string>
  {
    set name | name in limits && Permits(limits, modelLimits, usage, name, model, now)
  }

  class RPMLimiter {
    var limits: map<string, LimiterConfig>
    var modelLimits: map<string, LimiterConfig>
    const backend: LocalBackend

    ghost predicate Valid()
      reads this, backend, backend.Repr
    {
      this !in backend.Repr && backend.Valid()
    }

    constructor ()
      ensures Valid() && fresh(backend) && fresh(backend.Repr)
      ensures limits == map[] && modelLimits == map[] && backend.usage == map[]
    {
      limits, modelLimits := map[], map[];
      backend := new LocalBackend();
    }

    method AddCredentialWithTPM(name: string, rpm: int, tpm: int)
      modifies this`limits
      ensures limits == old(limits)[name := LimiterConfig(rpm, tpm)]
    {
      limits := limits[name := LimiterConfig(rpm, tpm)];
    }

    method AddModelWithTPM(credential: string, model: string, rpm: int, tpm: int)
      modifies this`modelLimits
      ensures modelLimits == old(modelLimits)[MakeModelKey(credential, model) := LimiterConfig(rpm, tpm)]
    {
      modelLimits := modelLimits[MakeModelKey(credential, model) := LimiterConfig(rpm, tpm)];
    }

    /** Drops the model's limit and forgets everything it has used. */
    method RemoveModel(credential: string, model: string)
      requires Valid()
      modifies this`modelLimits, backend
      ensures Valid()
      ensures modelLimits == old(modelLimits) - {MakeModelKey(credential, model)}
      ensures backend.usage == old(backend.usage) - {ModelCounterKey(credential, model)}
    {
      modelLimits := modelLimits - {MakeModelKey(credential, model)};
      backend.DeleteKey(ModelCounterKey(credential, model));
    }

    method CanAllow(credential: string, now: int) returns (ok: bool)
      requires Valid() && backend.clock <= now
      modifies backend.Repr
      ensures Valid() && old(backend.clock) <= backend.clock <= now && fresh(backend.Repr - old(backend.Repr))
      ensures backend.usage == old(backend.usage)
      ensures ok <==>
        (credential in limits && RequestsBelow(UsageOf(backend.usage, CredKey(credential)), limits[credential].rpm, now))
    {
      if credential !in limits {
        return false;
      }
      ok := backend.CanAllowRPM(CredKey(credential), limits[credential].rpm, now);
    }

    method AllowTokens(credential: string, now: int) returns (ok: bool)
      requires Valid() && backend.clock <= now
      modifies backend.Repr
      ensures Valid() && old(backend.clock) <= backend.clock <= now && fresh(backend.Repr - old(backend.Repr))
      ensures backend.usage == old(backend.usage)
      ensures ok <==>
        (credential in limits && TokensBelow(UsageOf(backend.usage, CredKey(credential)), limits[credential].tpm, now))
    {
      if credential !in limits {
        return false;
      }
      ok := backend.CanAllowTPM(CredKey(credential), limits[credential].tpm, now);
    }

    /** A model without configured limits is not tracked and always allowed. */
    method CanAllowModel(credential: string, model: string, now: int) returns (ok: bool)
      requires Valid() && backend.clock <= now
      modifies backend.Repr
      ensures Valid() && old(backend.clock) <= backend.clock <= now && fresh(backend.Repr - old(backend.Repr))
      ensures backend.usage == old(backend.usage)
      ensures ok <==>
        (MakeModelKey(credential, model) in modelLimits ==>
           RequestsBelow(UsageOf(backend.usage, ModelCounterKey(credential, model)),
                      modelLimits[MakeModelKey(credential, model)].rpm, now))
    {
      if MakeModelKey(credential, model) !in modelLimits {
        return true;
      }
      ok := backend.CanAllowRPM(ModelCounterKey(credential, model), modelLimits[MakeModelKey(credential, model)].rpm, now);
    }

    method AllowModelTokens(credential: string, model: string, now: int) returns (ok: bool)
      requires Valid() && backend.clock <= now
      modifies backend.Repr
      ensures Valid() && old(backend.clock) <= backend.clock <= now && fresh(backend.Repr - old(backend.Repr))
      ensures backend.usage == old(backend.usage)
      ensures ok <==>
        (MakeModelKey(credential, model) in modelLimits ==>
           TokensBelow(UsageOf(backend.usage, ModelCounterKey(credential, model)),
                      modelLimits[MakeModelKey(credential, model)].tpm, now))
    {
      if MakeModelKey(credential, model) !in modelLimits {
        return true;
      }
      ok := backend.CanAllowTPM(ModelCounterKey(credential, model), modelLimits[MakeModelKey(credential, model)].tpm, now);
    }

    /** Checks every limit of the pair and records one request under each counter, or nothing at all. */
    method TryAllowAll(credential: string, model: string, now: int) returns (ok: bool)
      requires Valid() && backend.clock <= now
      modifies backend.Repr
      ensures Valid() && old(backend.clock) <= backend.clock <= now && fresh(backend.Repr - old(backend.Repr))
      ensures ok == Permits(limits, modelLimits, old(backend.usage), credential, model, now)
      ensures backend.usage ==
        if ok then RecordAll(old(backend.usage), CredKey(credential), ModelCounter(modelLimits, credential, model), now)
        else old(backend.usage)
    {
      if credential !in limits {
        return false;
      }
      var modelRPM, modelTPM, modelKey := UNLIMITED, UNLIMITED, "";
      if model != "" {
        if MakeModelKey(credential, model) in modelLimits {
          var cfg := modelLimits[MakeModelKey(credential, model)];
          modelRPM, modelTPM, modelKey := cfg.rpm, cfg.tpm, ModelCounterKey(credential, model);
        }
      }
      CountersDiffer(credential, model);
      ok := backend.TryAllowAll(CredKey(credential), limits[credential].rpm, limits[credential].tpm,
                                modelKey, modelRPM, modelTPM, now);
    }

    /** Unknown credentials consume nothing. */
    method ConsumeTokens(credential: string, count: int, now: int)
      requires Valid() && backend.clock <= now
      modifies backend.Repr
      ensures Valid() && old(backend.clock) <= backend.clock <= now && fresh(backend.Repr - old(backend.Repr))
      ensures backend.usage ==
        if credential in limits
        then old(backend.usage)[CredKey(credential) := RecordTokens(UsageOf(old(backend.usage), CredKey(credential)), count, now)]
        else old(backend.usage)
    {
      if credential in limits {
        backend.ConsumeTokens(CredKey(credential), count, now);
      }
    }
  }

  /** The longer credential is the shorter one, the separator and the start of the shorter one's model. */
  ghost predicate Straddles(credential: string, model: string, longer: string, shorter: string) {
    exists x :: longer == credential + ":" + x && model == x + ":" + shorter
  }

  /** Two pairs share a counter exactly when they are the same pair, or when one credential continues the other across the
      separator; credentials without the separator never do. */
  lemma ModelKeysCoincide(c: string, m: string, c': string, m': string)
    ensures MakeModelKey(c, m) == MakeModelKey(c', m') <==>
            (c == c' && m == m') || Straddles(c, m, c', m') || Straddles(c', m', c, m)
    ensures ':' !in c && ':' !in c' ==> (MakeModelKey(c, m) == MakeModelKey(c', m') <==> c == c' && m == m')
  {
    if MakeModelKey(c, m) == MakeModelKey(c', m') {
      if |c| <= |c'| {
        SharedKey(c, m, c', m');
      } else {
        SharedKey(c', m', c, m);
      }
    }
    if Straddles(c, m, c', m') {
      StraddlingShares(c, m, c', m');
    }
    if Straddles(c', m', c, m) {
      StraddlingShares(c', m', c, m);
    }
  }

  lemma StraddlingShares(c: string, m: string, c': string, m': string)
    requires Straddles(c, m, c', m')
    ensures MakeModelKey(c, m) == MakeModelKey(c', m') && ':' in c'
  {
    var x :| c' == c + ":" + x && m == x + ":" + m';
    assert c'[|c|] == ':';
    assert c + ":" + (x + ":" + m') == (c + ":" + x) + ":" + m';
  }

  lemma SharedKey(c: string, m: string, c': string, m': string)
    requires |c| <= |c'| && MakeModelKey(c, m) == MakeModelKey(c', m')
    ensures (c == c' && m == m') || Straddles(c, m, c', m')
  {
    var key := MakeModelKey(c, m);
    assert key[..|c|] == c && key[|c|] == ':' && key[|c| + 1..] == m;
    assert key[..|c'|] == c' && key[|c'|] == ':' && key[|c'| + 1..] == m';
    if |c| < |c'| {
      var x := c'[|c| + 1..];
      assert c' == c + ":" + x;
      assert m == x + ":" + m';
    }
  }

  /** Credential and model counters never share a key. */
  lemma CountersDiffer(credential: string, model: string)
    ensures CredKey(credential) != "" && CredKey(credential) != ModelCounterKey(credential, model)
  {
    assert CredKey(credential)[0] == 'c' && ModelCounterKey(credential, model)[0] == 'm';
  }
}
