/** The model manager's index as it is updated in place (internal/models/manager.go). */
module ModelManager {
  import opened Collections
  import opened Strings
  import opened ModelIndex

  datatype Credential = Credential(name: string, isProxy: bool)

  datatype DBModel = DBModel(name: string, credential: string)

  function Names(creds: seq<Credential>): set<string> {
    set c | c in creds :: c.name
  }

  const SYNTHETIC := "db-model-"

  function NonSynthetic(creds: seq<Credential>): set<string> {
    set c | c in creds && !(SYNTHETIC <= c.name) :: c.name
  }

  /** Where a model without a credential of its own goes. */
  function GlobalTargets(staticCreds: seq<Credential>, allCreds: seq<Credential>): set<string> {
    if Names(staticCreds) == {} then NonSynthetic(allCreds) else Names(staticCreds)
  }

  predicate MapsTo(limit: string, known: set<string>, global: set<string>, c: string) {
    if limit != "" then limit == c && c in known else c in global
  }

  /** One of these limits maps the model to the credential. */
  predicate Targets(limits: seq<string>, known: set<string>, global: set<string>, c: string) {
    exists l :: l in limits && MapsTo(l, known, global, c)
  }

  predicate Mapped(limits: Limits, known: set<string>, global: set<string>, c: string, m: string) {
    m in limits && Targets(limits[m], known, global, c)
  }

  // ----- building both maps from the limits -----

  /** Both maps under construction, with the pairs they hold to recognise duplicates. */
  class Builder {
    var forward: Lists
    var reverse: Lists
    var seen: set<(string, string)>

    ghost predicate Valid()
      reads this
    {
      && Sound(Index(forward, reverse))
      && (forall c, m :: Has(forward, c, m) ==> (c, m) in seen)
      && (forall c, m :: Has(reverse, m, c) <==> (c, m) in seen)
    }

    /** Both maps hold the same pairs. */
    ghost predicate Even()
      reads this
    {
      Valid() && forall c, m :: Has(forward, c, m) <==> (c, m) in seen
    }

    constructor ()
      ensures Even() && seen == {} && forward == map[]
    {
      forward, reverse, seen := map[], map[], {};
    }

    method Add(c: string, m: string)
      requires Even()
      modifies this
      ensures Even() && seen == old(seen) + {(c, m)}
    {
      AddedKeepsSound(Index(forward, reverse), c, m);
      PairAdded(forward, reverse, c, m);
      if (c, m) !in seen {
        forward := forward[c := Get(forward, c) + [m]];
        reverse := reverse[m := Get(reverse, m) + [c]];
      }
      seen := seen + {(c, m)};
    }

    /** A credential without models gets an empty list of its own. */
    method Register(c: string)
      requires Even()
      modifies this`forward
      ensures Even() && c in forward && old(forward).Keys <= forward.Keys
    {
      if c !in forward {
        forward := forward[c := []];
      }
    }

    /** A credential's former list at once, and the credential back in the lists of its models. */
    method Restore(c: string, models: seq<string>)
      requires Valid() && Distinct(models)
      modifies this
      ensures Valid() && forward == old(forward)[c := models]
      ensures forall d, m :: (d, m) in seen <==> (d, m) in old(seen) || (d == c && m in models)
    {
      forward := forward[c := models];
      for i := 0 to |models|
        invariant forward == old(forward)[c := models]
        invariant DistinctLists(reverse) && NoEmptyList(reverse)
        invariant forall d, m :: Has(reverse, m, d) <==> (d, m) in seen
        invariant forall d, m :: (d, m) in seen <==> (d, m) in old(seen) || (d == c && m in models[..i])
      {
        var m := models[i];
        assert models[..i + 1] == models[..i] + [m];
        PairAdded(forward, reverse, c, m);
        AddToDistinct(reverse, m, c);
        if (c, m) !in seen {
          reverse := reverse[m := Get(reverse, m) + [c]];
          seen := seen + {(c, m)};
        }
      }
      assert models[..|models|] == models;
    }

    method AddTargets(targets: set<string>, m: string)
      requires Even()
      modifies this
      ensures Even() && forall c, x :: (c, x) in seen <==> (c, x) in old(seen) || (x == m && c in targets)
    {
      var pending := targets;
      while pending != {}
        invariant Even() && pending <= targets
        invariant forall c, x :: (c, x) in seen <==> (c, x) in old(seen) || (x == m && c in targets - pending)
        decreases |pending|
      {
        var c :| c in pending;
        pending := pending - {c};
        Add(c, m);
      }
    }

    method AddModelLimits(m: string, limits: seq<string>, known: set<string>, global: set<string>)
      requires Even()
      modifies this
      ensures Even()
      ensures forall c, x :: (c, x) in seen <==> (c, x) in old(seen) || (x == m && Targets(limits, known, global, c))
    {
      for i := 0 to |limits|
        invariant Even()
        invariant forall c, x :: (c, x) in seen <==>
                    (c, x) in old(seen) || (x == m && Targets(limits[..i], known, global, c))
      {
        TargetsSnoc(limits, i, known, global);
        if limits[i] != "" {
          if limits[i] in known {
            Add(limits[i], m);
          }
        } else {
          AddTargets(global, m);
        }
      }
      assert limits[..|limits|] == limits;
    }
  }

  lemma PairAdded(forward: Lists, reverse: Lists, c: string, m: string)
    ensures forall d, x :: Has(AddTo(forward, c, m), d, x) <==> Has(forward, d, x) || (d == c && x == m)
    ensures forall d, x :: Has(AddTo(reverse, m, c), x, d) <==> Has(reverse, x, d) || (d == c && x == m)
  {
    forall d, x
      ensures Has(AddTo(forward, c, m), d, x) <==> Has(forward, d, x) || (d == c && x == m)
      ensures Has(AddTo(reverse, m, c), x, d) <==> Has(reverse, x, d) || (d == c && x == m)
    {
      AddToHas(forward, c, m, d, x);
      AddToHas(reverse, m, c, x, d);
    }
  }

  lemma TargetsSnoc(limits: seq<string>, i: nat, known: set<string>, global: set<string>)
    requires i < |limits|
    ensures forall c :: Targets(limits[..i + 1], known, global, c) <==>
              Targets(limits[..i], known, global, c) || MapsTo(limits[i], known, global, c)
  {
    assert limits[..i + 1] == limits[..i] + [limits[i]];
  }

  /** Goes through the models in no particular order. */
  method MapLimits(limits: Limits, known: set<string>, global: set<string>) returns (b: Builder)
    ensures fresh(b) && b.Even()
    ensures forall c, m :: (c, m) in b.seen <==> Mapped(limits, known, global, c, m)
  {
    b := new Builder();
    var pending := limits.Keys;
    while pending != {}
      invariant b.Even() && pending <= limits.Keys
      invariant forall c, m :: (c, m) in b.seen <==> m !in pending && Mapped(limits, known, global, c, m)
      decreases |pending|
    {
      var m :| m in pending;
      pending := pending - {m};
      b.AddModelLimits(m, limits[m], known, global);
    }
  }

  // ----- what the operations do, as relations on the index -----

  function AppendLimit(limits: Limits, m: DBModel): Limits {
    limits[m.name := (if m.name in limits then limits[m.name] else []) + [m.credential]]
  }

  /** The configured limits with those of the database behind them. */
  function Merged(configured: Limits, dbModels: seq<DBModel>): Limits {
    if dbModels == [] then configured
    else AppendLimit(Merged(configured, dbModels[..|dbModels| - 1]), dbModels[|dbModels| - 1])
  }

  /** Proxies that have discovered models keep their list. */
  predicate Kept(forward: Lists, creds: seq<Credential>, c: string) {
    Get(forward, c) != [] && exists p :: p in creds && p.isProxy && p.name == c
  }

  ghost predicate ForwardRebuilt(before: Lists, creds: seq<Credential>, pairs: iset<(string, string)>, after: Lists) {
    forall c, m :: Has(after, c, m) <==> if Kept(before, creds, c) then Has(before, c, m) else (c, m) in pairs
  }

  ghost predicate ReverseRebuilt(before: Lists, creds: seq<Credential>, pairs: iset<(string, string)>, after: Lists) {
    forall c, m :: Has(after, m, c) <==> (c, m) in pairs || (Kept(before, creds, c) && Has(before, c, m))
  }

  ghost predicate Registered(creds: seq<Credential>, forward: Lists) {
    forall c :: c in creds && !c.isProxy ==> c.name in forward
  }

  ghost function Pairs(limits: Limits, staticCreds: seq<Credential>, allCreds: seq<Credential>): iset<(string, string)> {
    iset c, m | Mapped(limits, Names(allCreds), GlobalTargets(staticCreds, allCreds), c, m) :: (c, m)
  }

  ghost predicate Rebuilt(before: Index, limits: Limits, staticCreds: seq<Credential>, allCreds: seq<Credential>,
                          after: Index)
  {
    var pairs := Pairs(limits, staticCreds, allCreds);
    && ForwardRebuilt(before.forward, allCreds, pairs, after.forward)
    && ReverseRebuilt(before.forward, allCreds, pairs, after.reverse)
    && Registered(allCreds, after.forward)
  }

  /** A rebuilt index matches both ways exactly when every kept list already has the models mapped to its proxy. */
  lemma RebuiltMatches(before: Index, limits: Limits, staticCreds: seq<Credential>, allCreds: seq<Credential>, after: Index)
    requires Rebuilt(before, limits, staticCreds, allCreds, after)
    ensures Matching(after) <==>
            forall c, m :: Kept(before.forward, allCreds, c) && (c, m) in Pairs(limits, staticCreds, allCreds) ==>
                             Has(before.forward, c, m)
  {
  }

  /** A model bound to nobody goes to every configured credential, or, when none is configured, to every credential but the
      synthetic ones; a bound one goes to its own, as long as that is known. */
  lemma RebuiltLists(before: Index, limits: Limits, staticCreds: seq<Credential>, allCreds: seq<Credential>, after: Index,
                     c: string, m: string)
    requires Rebuilt(before, limits, staticCreds, allCreds, after)
    requires Get(before.forward, c) == [] || forall p :: p in allCreds && p.name == c ==> !p.isProxy
    ensures Has(after.forward, c, m) <==>
      m in limits &&
      ((c != "" && c in limits[m] && exists p :: p in allCreds && p.name == c) ||
       ("" in limits[m] &&
          if staticCreds == [] then !("db-model-" <= c) && exists p :: p in allCreds && p.name == c
          else exists p :: p in staticCreds && p.name == c))
  {
    var known, global := Names(allCreds), GlobalTargets(staticCreds, allCreds);
    NamesEmpty(staticCreds);
    assert !Kept(before.forward, allCreds, c);
    assert Has(after.forward, c, m) <==> (c, m) in Pairs(limits, staticCreds, allCreds);
    if m in limits {
      if c != "" && c in limits[m] && c in known {
        assert MapsTo(c, known, global, c);
      }
      if "" in limits[m] && c in global {
        assert MapsTo("", known, global, c);
      }
    }
  }

  lemma NamesEmpty(creds: seq<Credential>)
    ensures Names(creds) == {} <==> creds == []
  {
    if creds != [] {
      assert creds[0].name in Names(creds);
    }
  }

  /** The limits in force are the configured ones and those of the database, model by model. */
  lemma {:induction false} MergedMembers(configured: Limits, dbModels: seq<DBModel>, m: string, credential: string)
    ensures var merged := Merged(configured, dbModels);
      && (m in merged <==> m in configured || exists d :: d in dbModels && d.name == m)
      && (m in merged && credential in merged[m] <==>
            (m in configured && credential in configured[m]) || DBModel(m, credential) in dbModels)
      && (m in configured ==> m in merged && configured[m] <= merged[m])
  {
    if dbModels != [] {
      var n := |dbModels| - 1;
      MergedMembers(configured, dbModels[..n], m, credential);
      assert dbModels == dbModels[..n] + [dbModels[n]];
    }
  }

  /** It can fail: a proxy with a discovered model, and another one mapped to it by the configuration. */
  lemma RebuiltCanMismatch(after: Index)
    requires Rebuilt(Index(map["p" := ["x"]], map["x" := ["p"]]), map["m" := ["p"]], [],
                     [Credential("p", true)], after)
    ensures Has(after.reverse, "m", "p") && !Has(after.forward, "p", "m")
  {
    var creds := [Credential("p", true)];
    assert creds[0].isProxy && creds[0] in creds;
    assert "p" in ["p"] && MapsTo("p", Names(creds), GlobalTargets([], creds), "p");
    assert ("p", "m") in Pairs(map["m" := ["p"]], [], creds);
  }

  lemma KeptSnoc(before: Lists, creds: seq<Credential>, i: nat, c: string)
    requires i < |creds|
    ensures Kept(before, creds[..i + 1], c) <==>
            Kept(before, creds[..i], c) || (creds[i].isProxy && creds[i].name == c && Get(before, c) != [])
  {
    assert creds[..i + 1] == creds[..i] + [creds[i]];
  }

  // ----- runs -----

  /** The index, and the limits in force. */
  datatype State = State(index: Index, limits: Limits)

  datatype Op =
    | AddOp(credential: string, model: string)
    | ReplaceOp(credential: string, models: seq<string>)
    | UpdateOp(dbModels: seq<DBModel>, staticCreds: seq<Credential>, allCreds: seq<Credential>)

  ghost function Replace(s: State, c: string, ids: seq<string>): Index {
    if c == "" then s.index else Replaced(s.index, c, Replacement(s.limits, c, ids))
  }

  ghost predicate Next(configured: Limits, s: State, op: Op, s': State) {
    match op
    case AddOp(c, m) => s' == State(Added(s.index, c, m), s.limits)
    case ReplaceOp(c, ids) => s' == State(Replace(s, c, ids), s.limits)
    case UpdateOp(dbModels, staticCreds, allCreds) =>
      && s'.limits == Merged(configured, dbModels)
      && Rebuilt(s.index, s'.limits, staticCreds, allCreds, s'.index)
      && DistinctLists(s'.index.forward) && DistinctLists(s'.index.reverse) && NoEmptyList(s'.index.reverse)
  }

  lemma NextKeepsSound(configured: Limits, s: State, op: Op, s': State)
    requires Sound(s.index) && Next(configured, s, op, s')
    ensures Sound(s'.index)
    ensures Matching(s.index) && !op.UpdateOp? ==> Matching(s'.index)
  {
    match op
    case AddOp(c, m) => AddedKeepsSound(s.index, c, m);
    case ReplaceOp(c, ids) =>
      ReplacementDistinct(s.limits, c, ids);
      ReplacedKeepsSound(s.index, c, Replacement(s.limits, c, ids));
    case UpdateOp(_, _, _) =>
  }

  ghost predicate IsRun(configured: Limits, states: seq<State>, ops: seq<Op>) {
    |states| == |ops| + 1 && forall i :: 0 <= i < |ops| ==> StepAt(configured, states, ops, i)
  }

  ghost predicate StepAt(configured: Limits, states: seq<State>, ops: seq<Op>, i: nat)
    requires i < |ops| && |states| == |ops| + 1
  {
    Next(configured, states[i], ops[i], states[i + 1])
  }

  /** Whatever the operations, no list repeats itself, no model keeps an empty list, and every listing is mutual
      from the credential's side. */
  lemma {:induction false} EveryIndexIsSound(configured: Limits, states: seq<State>, ops: seq<Op>, i: nat)
    requires IsRun(configured, states, ops) && i < |states| && Sound(states[0].index)
    ensures Sound(states[i].index)
  {
    if i > 0 {
      EveryIndexIsSound(configured, states, ops, i - 1);
      assert StepAt(configured, states, ops, i - 1);
      NextKeepsSound(configured, states[i - 1], ops[i - 1], states[i]);
    }
  }

  /** The configuration limits the model to the credential, or to nobody in particular. */
  predicate LimitedTo(limits: Limits, m: string, c: string) {
    m in limits && ("" in limits[m] || c in limits[m])
  }

  lemma ReplacedListings(s: State, c: string, ids: seq<string>)
    ensures var after := Replaced(s.index, c, Replacement(s.limits, c, ids));
      forall d, m ::
        var lists := if d == c then (m in ids && m != "") || LimitedTo(s.limits, m, d) else Has(s.index.forward, d, m);
        var listed := if d == c then lists else Has(s.index.reverse, m, d);
        && (Has(after.forward, d, m) <==> lists)
        && (Has(after.reverse, m, d) <==> listed)
  {
    var after := Replaced(s.index, c, Replacement(s.limits, c, ids));
    forall d, m
      ensures Has(after.forward, d, m) <==>
        if d == c then (m in ids && m != "") || LimitedTo(s.limits, m, d) else Has(s.index.forward, d, m)
      ensures Has(after.reverse, m, d) <==>
        if d == c then (m in ids && m != "") || LimitedTo(s.limits, m, d) else Has(s.index.reverse, m, d)
    {
      ReplacedAgrees(s.index, c, Replacement(s.limits, c, ids), d, m);
      ReplacementMembers(s.limits, c, ids, m);
    }
  }

  // ----- the manager -----

  class Manager {
    var credentialModels: Lists
    var modelToCredentials: Lists
    var modelLimits: Limits
    const staticModelLimits: Limits

    ghost function Abstract(): State
      reads this
    {
      State(Index(credentialModels, modelToCredentials), modelLimits)
    }

    constructor (configured: Limits)
      ensures staticModelLimits == configured && Abstract() == State(Index(map[], map[]), configured)
      ensures Sound(Abstract().index)
    {
      credentialModels, modelToCredentials, modelLimits, staticModelLimits := map[], map[], configured, configured;
    }

    /** The initial load, into an empty index: both maps say exactly what the configuration maps. */
    method LoadModelsFromConfig(creds: seq<Credential>)
      requires Abstract().index == Index(map[], map[])
      modifies this`credentialModels, this`modelToCredentials
      ensures modelLimits == map[] ==> Abstract() == old(Abstract())
      ensures Sound(Abstract().index) && Matching(Abstract().index)
      ensures modelLimits != map[] ==>
        Registered(creds, credentialModels) &&
        forall c, m :: Has(credentialModels, c, m) <==> Mapped(modelLimits, Names(creds), Names(creds), c, m)
    {
      if |modelLimits| == 0 {
        return;
      }
      var b := MapLimits(modelLimits, Names(creds), Names(creds));
      RegisterAll(b, creds);
      credentialModels, modelToCredentials := b.forward, b.reverse;
    }

    method AddModel(credentialName: string, modelID: string)
      modifies this`credentialModels, this`modelToCredentials
      ensures Next(staticModelLimits, old(Abstract()), AddOp(credentialName, modelID), Abstract())
      ensures forall c, m ::
        && (Has(credentialModels, c, m) <==> Has(old(credentialModels), c, m) || (c == credentialName && m == modelID))
        && (Has(modelToCredentials, m, c) <==> Has(old(modelToCredentials), m, c) || (c == credentialName && m == modelID))
    {
      if modelID !in Get(credentialModels, credentialName) {
        credentialModels := credentialModels[credentialName := Get(credentialModels, credentialName) + [modelID]];
      }
      if credentialName !in Get(modelToCredentials, modelID) {
        modelToCredentials := modelToCredentials[modelID := Get(modelToCredentials, modelID) + [credentialName]];
      }
    }

    method DesiredModels(modelIDs: seq<string>) returns (desired: seq<string>)
      ensures desired == Desired(modelIDs)
    {
      var desiredSet := {};
      desired := [];
      for i := 0 to |modelIDs|
        invariant desired == Desired(modelIDs[..i])
        invariant forall m :: m in desiredSet <==> m in desired
      {
        assert modelIDs[..i + 1][..i] == modelIDs[..i];
        var modelID := modelIDs[i];
        if modelID == "" || modelID in desiredSet {
          continue;
        }
        desiredSet := desiredSet + {modelID};
        desired := desired + [modelID];
      }
      assert modelIDs[..|modelIDs|] == modelIDs;
    }

    method ConfiguredModels(credentialName: string, desired: seq<string>) returns (configured: seq<string>)
      ensures configured == Listed(Configured(modelLimits, credentialName) - Members(desired))
    {
      var pending := modelLimits.Keys;
      var found: set<string> := {};
      while pending != {}
        invariant pending <= modelLimits.Keys
        invariant found == set m | m in modelLimits && m !in pending && m !in desired && IsConfigured(modelLimits, m, credentialName)
        decreases |pending|
      {
        var modelID :| modelID in pending;
        pending := pending - {modelID};
        if modelID in desired || !IsConfigured(modelLimits, modelID, credentialName) {
          continue;
        }
        found := found + {modelID};
      }
      assert found == Configured(modelLimits, credentialName) - Members(desired);
      configured := SetToList(found);
    }

    method RemoveCredential(creds: seq<string>, credentialName: string) returns (kept: seq<string>)
      ensures kept == Without(creds, credentialName)
    {
      kept := [];
      for i := 0 to |creds|
        invariant kept == Without(creds[..i], credentialName)
      {
        assert creds[..i + 1][..i] == creds[..i];
        if creds[i] != credentialName {
          kept := kept + [creds[i]];
        }
      }
      assert creds[..|creds|] == creds;
    }

    /** Takes the credential out of every model's list. */
    method DropCredential(credentialName: string)
      modifies this`modelToCredentials
      ensures modelToCredentials == Dropped(old(modelToCredentials), credentialName)
    {
      ghost var before := modelToCredentials;
      var pending := modelToCredentials.Keys;
      while pending != {}
        invariant pending <= before.Keys
        invariant forall m :: m in pending ==> m in modelToCredentials && modelToCredentials[m] == before[m]
        invariant forall m :: m in modelToCredentials && m !in pending ==>
                    m in Dropped(before, credentialName) && modelToCredentials[m] == Dropped(before, credentialName)[m]
        invariant forall m :: m in Dropped(before, credentialName) ==> m in modelToCredentials
        decreases |pending|
      {
        var modelID :| modelID in pending;
        pending := pending - {modelID};
        var kept := RemoveCredential(modelToCredentials[modelID], credentialName);
        if |kept| == 0 {
          modelToCredentials := modelToCredentials - {modelID};
        } else {
          modelToCredentials := modelToCredentials[modelID := kept];
        }
      }
      assert modelToCredentials == Dropped(before, credentialName);
    }

    method ClaimModels(models: seq<string>, credentialName: string)
      modifies this`modelToCredentials
      ensures modelToCredentials == Claimed(old(modelToCredentials), models, credentialName)
    {
      for i := 0 to |models|
        invariant modelToCredentials == Claimed(old(modelToCredentials), models[..i], credentialName)
      {
        assert models[..i + 1][..i] == models[..i];
        var modelID := models[i];
        if credentialName !in Get(modelToCredentials, modelID) {
          modelToCredentials := modelToCredentials[modelID := Get(modelToCredentials, modelID) + [credentialName]];
        }
      }
      assert models[..|models|] == models;
    }

    method ReplaceModelsForCredential(credentialName: string, modelIDs: seq<string>)
      modifies this`credentialModels, this`modelToCredentials
      ensures Next(staticModelLimits, old(Abstract()), ReplaceOp(credentialName, modelIDs), Abstract())
      ensures credentialName == "" ==> credentialModels == old(credentialModels) && modelToCredentials == old(modelToCredentials)
      ensures credentialName != "" ==> forall c, m ::
        var lists := if c == credentialName then (m in modelIDs && m != "") || LimitedTo(modelLimits, m, c)
                     else Has(old(credentialModels), c, m);
        var listed := if c == credentialName then lists else Has(old(modelToCredentials), m, c);
        && (Has(credentialModels, c, m) <==> lists)
        && (Has(modelToCredentials, m, c) <==> listed)
    {
      if credentialName == "" {
        return;
      }
      var desired := DesiredModels(modelIDs);
      var configured := ConfiguredModels(credentialName, desired);
      var replacement := desired + configured;
      assert replacement == Replacement(modelLimits, credentialName, modelIDs);
      credentialModels := credentialModels[credentialName := replacement];
      DropCredential(credentialName);
      ClaimModels(replacement, credentialName);
      ReplacedListings(old(Abstract()), credentialName, modelIDs);
    }

    method MergeLimits(dbModels: seq<DBModel>) returns (limits: Limits)
      ensures limits == Merged(staticModelLimits, dbModels)
    {
      limits := staticModelLimits;
      for i := 0 to |dbModels|
        invariant limits == Merged(staticModelLimits, dbModels[..i])
      {
        assert dbModels[..i + 1][..i] == dbModels[..i];
        limits := AppendLimit(limits, dbModels[i]);
      }
      assert dbModels[..|dbModels|] == dbModels;
    }

    method RegisterAll(b: Builder, creds: seq<Credential>)
      requires b.Even()
      modifies b`forward
      ensures b.Even() && Registered(creds, b.forward)
    {
      for i := 0 to |creds|
        invariant b.Even()
        invariant forall j :: 0 <= j < i && !creds[j].isProxy ==> creds[j].name in b.forward
      {
        if !creds[i].isProxy {
          b.Register(creds[i].name);
        }
      }
    }

    method RestoreProxies(b: Builder, creds: seq<Credential>, ghost pairs: iset<(string, string)>)
      requires b.Even() && DistinctLists(credentialModels) && Registered(creds, b.forward)
      requires forall c, m :: (c, m) in b.seen <==> (c, m) in pairs
      modifies b
      ensures b.Valid() && Registered(creds, b.forward)
      ensures ForwardRebuilt(credentialModels, creds, pairs, b.forward)
      ensures ReverseRebuilt(credentialModels, creds, pairs, b.reverse)
    {
      for i := 0 to |creds|
        invariant b.Valid() && Registered(creds, b.forward)
        invariant ForwardRebuilt(credentialModels, creds[..i], pairs, b.forward)
        invariant forall c, m :: (c, m) in b.seen <==>
                    (c, m) in pairs || (Kept(credentialModels, creds[..i], c) && Has(credentialModels, c, m))
      {
        var c := creds[i].name;
        forall d ensures Kept(credentialModels, creds[..i + 1], d) <==>
                         Kept(credentialModels, creds[..i], d) || (creds[i].isProxy && c == d && Get(credentialModels, d) != [])
        {
          KeptSnoc(credentialModels, creds, i, d);
        }
        if creds[i].isProxy && c in credentialModels && |credentialModels[c]| > 0 {
          b.Restore(c, credentialModels[c]);
        }
      }
      assert creds[..|creds|] == creds;
    }

    method UpdateDBModels(dbModels: seq<DBModel>, staticCreds: seq<Credential>, allCreds: seq<Credential>)
      requires Sound(Abstract().index)
      modifies this
      ensures Next(staticModelLimits, old(Abstract()), UpdateOp(dbModels, staticCreds, allCreds), Abstract())
    {
      modelLimits := MergeLimits(dbModels);
      ghost var pairs := Pairs(modelLimits, staticCreds, allCreds);
      var b := MapLimits(modelLimits, Names(allCreds), GlobalTargets(staticCreds, allCreds));
      RegisterAll(b, allCreds);
      RestoreProxies(b, allCreds, pairs);
      credentialModels, modelToCredentials := b.forward, b.reverse;
    }

    // ----- deciding -----

    method HasModel(credentialName: string, modelID: string) returns (has: bool)
      ensures has == Serves(Abstract(), credentialName, modelID)
      ensures modelID in modelToCredentials ==> (has <==> credentialName in modelToCredentials[modelID])
      ensures modelID !in modelToCredentials && credentialName !in credentialModels ==> has
      ensures modelID !in modelToCredentials && credentialName in credentialModels ==>
        (has <==> modelID in credentialModels[credentialName] || (credentialModels[credentialName] == [] && modelLimits == map[]))
    {
      if modelID in modelToCredentials {
        return credentialName in modelToCredentials[modelID];
      }
      var hasStaticModels := |modelLimits| > 0;
      var credentialExists := false;
      if credentialName in credentialModels {
        credentialExists := true;
        var models := credentialModels[credentialName];
        if modelID in models {
          return true;
        }
        if |models| > 0 {
          return false;
        }
      }
      if hasStaticModels && credentialExists {
        return false;
      }
      return true;
    }
  }

  predicate Serves(s: State, c: string, m: string) {
    if m in s.index.reverse then c in s.index.reverse[m]
    else if c in s.index.forward then m in s.index.forward[c] || (s.index.forward[c] == [] && |s.limits| == 0)
    else true
  }

  /** Some credential is listed for the model. */
  ghost predicate ListedBySome(lists: Lists, m: string) {
    exists d :: Has(lists, m, d)
  }

  /**
   In a sound index a credential serves the models that list it; a model that lists nobody only when nothing is known
   about the credential, or nothing but an empty list while no limits are configured. Listed models are always served,
   and while the maps match, a credential with models serves exactly those.
   */
  lemma ServesListed(s: State, c: string, m: string)
    requires Sound(s.index)
    ensures Serves(s, c, m) <==>
      || Has(s.index.reverse, m, c)
      || (!ListedBySome(s.index.reverse, m)
          && Get(s.index.forward, c) == [] && (c in s.index.forward ==> s.limits == map[]))
    ensures Has(s.index.forward, c, m) ==> Serves(s, c, m)
    ensures Matching(s.index) && Get(s.index.forward, c) != [] ==> (Serves(s, c, m) <==> Has(s.index.forward, c, m))
  {
    assert Has(s.index.forward, c, m) ==> Has(s.index.reverse, m, c);
    assert Has(s.index.reverse, m, c) ==> ListedBySome(s.index.reverse, m);
    if m in s.index.reverse {
      assert Has(s.index.reverse, m, s.index.reverse[m][0]);
    } else {
      assert forall d :: !Has(s.index.reverse, m, d);
    }
    if Matching(s.index) && Has(s.index.reverse, m, c) {
      assert Has(s.index.forward, c, m);
    }
  }
}
