/** Smooth weighted round-robin counters of one selection cycle (internal/balancer/weighted.go). */
module Swrr {

  /** The weight fallback chain: model override, then credential default, then 1. */
  function EffectiveWeight(modelWeight: int, credWeight: int): (w: int)
    ensures w >= 1
    ensures modelWeight > 0 ==> w == modelWeight
    ensures modelWeight <= 0 < credWeight ==> w == credWeight
    ensures modelWeight <= 0 && credWeight <= 0 ==> w == 1
  {
    if modelWeight > 0 then modelWeight
    else if credWeight > 0 then credWeight
    else 1
  }

  /** A counter that has no node yet reads as zero. */
  function CurrentIn(nodes: map<string, int>, name: string): int {
    if name in nodes then nodes[name] else 0
  }

  /** Reconcile with the live set, then credit each live node its weight. */
  ghost function Advanced(nodes: map<string, int>, weights: map<string, int>): map<string, int> {
    map name | name in weights :: CurrentIn(nodes, name) + weights[name]
  }

  /** Charge the chosen node the total live weight. */
  function Charged(nodes: map<string, int>, name: string, total: int): map<string, int> {
    if name in nodes then nodes[name := nodes[name] - total] else nodes
  }

  /** Sum of a map's values; the order of summation does not matter (SumValuesStep). */
  ghost function SumValues(m: map<string, int>): int {
    if m == map[] then 0
    else var name :| name in m; m[name] + SumValues(m - {name})
  }

  lemma {:induction false} SumValuesStep(m: map<string, int>, name: string)
    requires name in m
    ensures SumValues(m) == m[name] + SumValues(m - {name})
    decreases |m|
  {
    var first :| first in m && SumValues(m) == m[first] + SumValues(m - {first});
    if first != name {
      SumValuesStep(m - {first}, name);
      SumValuesStep(m - {name}, first);
      assert m - {first} - {name} == m - {name} - {first};
    }
  }

  /** Identifies an independent selection cycle. */
  datatype SchedKey = SchedKey(model: string, fallbackOnly: bool, proxyOnly: bool, reqType: string,
                               excluding: bool, priority: int, scopeKey: string)

  class SwrrState {
    ghost const key: SchedKey
    var nodes: map<string, int>

    constructor (ghost key: SchedKey)
      ensures this.key == key && nodes == map[]
    {
      this.key := key;
      nodes := map[];
    }

    /** Drops nodes that are not live, credits the live ones, and totals the live weight. */
    method Advance(liveWeights: map<string, int>) returns (total: int)
      modifies this
      ensures nodes == Advanced(old(nodes), liveWeights)
      ensures total == SumValues(liveWeights)
    {
      var pending := nodes.Keys;
      while pending != {}
        invariant nodes == map n | n in old(nodes) && (n in pending || n in liveWeights) :: old(nodes)[n]
        decreases pending
      {
        var name :| name in pending;
        pending := pending - {name};
        if name !in liveWeights {
          nodes := nodes - {name};
        }
      }
      total := 0;
      pending := liveWeights.Keys;
      assert liveWeights - pending == map[];
      while pending != {}
        invariant pending <= liveWeights.Keys
        invariant forall n :: n in nodes <==> n in liveWeights && (n in old(nodes) || n !in pending)
        invariant forall n :: n in nodes ==>
          nodes[n] == if n in pending then old(nodes)[n] else CurrentIn(old(nodes), n) + liveWeights[n]
        invariant total == SumValues(liveWeights - pending)
        decreases pending
      {
        var name :| name in pending;
        ghost var done := liveWeights - pending;
        pending := pending - {name};
        nodes := nodes[name := CurrentIn(nodes, name) + liveWeights[name]];
        total := total + liveWeights[name];
        SumValuesStep(liveWeights - pending, name);
        assert liveWeights - pending - {name} == done;
      }
      assert liveWeights - {} == liveWeights;
    }

    method Commit(name: string, total: int)
      modifies this
      ensures nodes == Charged(old(nodes), name, total)
    {
      if name in nodes {
        nodes := nodes[name := nodes[name] - total];
      }
    }
  }
}
