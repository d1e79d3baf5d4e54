/**
 The node map of a selection cycle follows the schedule of SwrrFairness, so the fairness
 results hold of the credential names that selections commit.
 */
module SwrrCycle {
  import opened Collections
  import opened Swrr
  import opened SwrrFairness

  /** The live weights as the map a selection builds from its live candidates. */
  ghost predicate Weighs(weights: map<string, int>, names: seq<string>, w: seq<int>) {
    && |names| == |w|
    && (forall n :: n in weights <==> n in names)
    && forall i :: 0 <= i < |names| ==> weights[names[i]] == w[i]
  }

  /** The row shows the counters of the named nodes, in order. */
  ghost predicate Shows(row: seq<int>, nodes: map<string, int>, names: seq<string>) {
    && |row| == |names|
    && forall i :: 0 <= i < |names| ==> row[i] == CurrentIn(nodes, names[i])
  }

  lemma {:induction false} SumLast(w: seq<int>)
    requires w != []
    ensures Sum(w) == Sum(w[..|w| - 1]) + w[|w| - 1]
  {
    if |w| > 1 {
      SumLast(w[1..]);
      assert w[1..][..|w| - 2] == w[..|w| - 1][1..];
    }
  }

  /** The total Advance returns is the total weight of the live candidates. */
  lemma {:induction false} TotalWeight(weights: map<string, int>, names: seq<string>, w: seq<int>)
    requires Distinct(names) && Weighs(weights, names, w)
    ensures SumValues(weights) == Sum(w)
  {
    if names == [] {
      assert weights == map[];
    } else {
      var n := |names| - 1;
      var rest := weights - {names[n]};
      assert names == names[..n] + [names[n]];
      assert Weighs(rest, names[..n], w[..n]);
      TotalWeight(rest, names[..n], w[..n]);
      SumLast(w);
      SumValuesStep(weights, names[n]);
    }
  }

  lemma AdvanceCredits(nodes: map<string, int>, weights: map<string, int>, names: seq<string>, w: seq<int>, row: seq<int>)
    requires Weighs(weights, names, w) && Shows(row, nodes, names)
    ensures Shows(Credit(row, w), Advanced(nodes, weights), names)
  {
  }

  /** One committed round: reconcile and credit, then charge the leftmost largest live counter. */
  ghost predicate Committed(nodes: map<string, int>, name: string, nodes': map<string, int>,
                            weights: map<string, int>, names: seq<string>)
  {
    exists row ::
      && Shows(row, Advanced(nodes, weights), names)
      && |names| > 0
      && name == names[LeftmostMax(row)]
      && nodes' == Charged(Advanced(nodes, weights), name, SumValues(weights))
  }

  lemma ChargeShows(credited: map<string, int>, names: seq<string>, row: seq<int>, p: nat, total: int)
    requires Distinct(names) && Shows(row, credited, names)
    requires p < |names| && names[p] in credited
    ensures Shows(row[p := row[p] - total], Charged(credited, names[p], total), names)
  {
    forall i | 0 <= i < |names|
      ensures CurrentIn(Charged(credited, names[p], total), names[i]) == row[i] - if i == p then total else 0
    {
      assert i != p ==> names[i] != names[p];
    }
  }

  lemma SameRow(a: seq<int>, b: seq<int>, nodes: map<string, int>, names: seq<string>)
    requires Shows(a, nodes, names) && Shows(b, nodes, names)
    ensures a == b
  {
  }

  /** A committed round on the node map is a step of the schedule on the counter row. */
  lemma RoundRefinesStep(nodes: map<string, int>, name: string, nodes': map<string, int>,
                         weights: map<string, int>, names: seq<string>, w: seq<int>, row: seq<int>)
    requires Distinct(names) && Weighs(weights, names, w) && Shows(row, nodes, names)
    requires Committed(nodes, name, nodes', weights, names)
    ensures name == names[LeftmostMax(Credit(row, w))]
    ensures Shows(Step(row, w), nodes', names)
  {
    var credited := Advanced(nodes, weights);
    var c :| Shows(c, credited, names) && name == names[LeftmostMax(c)]
             && nodes' == Charged(credited, name, SumValues(weights));
    AdvanceCredits(nodes, weights, names, w, row);
    SameRow(c, Credit(row, w), credited, names);
    TotalWeight(weights, names, w);
    ChargeShows(credited, names, c, LeftmostMax(c), Sum(w));
  }

  /** A run of a fresh cycle with a fixed live set: node maps before and after each committed name. */
  ghost predicate IsRun(states: seq<map<string, int>>, committed: seq<string>, weights: map<string, int>, names: seq<string>) {
    && |states| == |committed| + 1
    && states[0] == map[]
    && forall k :: 0 <= k < |committed| ==> RoundAt(states, committed, weights, names, k)
  }

  ghost predicate RoundAt(states: seq<map<string, int>>, committed: seq<string>, weights: map<string, int>,
                          names: seq<string>, k: int)
    requires 0 <= k < |committed| < |states|
  {
    Committed(states[k], committed[k], states[k + 1], weights, names)
  }

  /** In every run the node map shows the scheduled counters. */
  lemma {:induction false} RunShowsSchedule(states: seq<map<string, int>>, committed: seq<string>,
                                            weights: map<string, int>, names: seq<string>, w: seq<int>, k: nat)
    requires |names| > 0 && Distinct(names) && Weighs(weights, names, w)
    requires IsRun(states, committed, weights, names) && k <= |committed|
    ensures Shows(After(w, k), states[k], names)
  {
    if k == 0 {
      FreshCycle(names, w);
    } else {
      RunShowsSchedule(states, committed, weights, names, w, k - 1);
      assert RoundAt(states, committed, weights, names, k - 1);
      ScheduledRound(states[k - 1], committed[k - 1], states[k], weights, names, w, k - 1);
    }
  }

  lemma FreshCycle(names: seq<string>, w: seq<int>)
    requires |names| == |w| > 0
    ensures Shows(After(w, 0), map[], names)
  {
  }

  ghost predicate Scheduled(committed: seq<string>, names: seq<string>, w: seq<int>, k: nat)
    requires k < |committed| && |names| == |w| > 0
  {
    committed[k] == names[PickAt(w, k)]
  }

  /** Every run commits exactly the scheduled names; SwrrFairness says what that schedule guarantees. */
  lemma RunFollowsSchedule(states: seq<map<string, int>>, committed: seq<string>,
                           weights: map<string, int>, names: seq<string>, w: seq<int>, k: nat)
    requires |names| > 0 && Distinct(names) && Weighs(weights, names, w)
    requires IsRun(states, committed, weights, names) && k < |committed|
    ensures Scheduled(committed, names, w, k)
  {
    RunShowsSchedule(states, committed, weights, names, w, k);
    assert RoundAt(states, committed, weights, names, k);
    ScheduledRound(states[k], committed[k], states[k + 1], weights, names, w, k);
  }

  lemma ScheduledRound(nodes: map<string, int>, name: string, nodes': map<string, int>,
                       weights: map<string, int>, names: seq<string>, w: seq<int>, k: nat)
    requires Distinct(names) && Weighs(weights, names, w) && |w| > 0 && Shows(After(w, k), nodes, names)
    requires Committed(nodes, name, nodes', weights, names)
    ensures name == names[PickAt(w, k)]
    ensures Shows(After(w, k + 1), nodes', names)
  {
    RoundRefinesStep(nodes, name, nodes', weights, names, w, After(w, k));
  }

  ghost predicate FollowsSchedule(committed: seq<string>, names: seq<string>, w: seq<int>)
    requires |names| == |w| > 0
  {
    forall k: nat :: k < |committed| ==> Scheduled(committed, names, w, k)
  }

  lemma WholeRunFollowsSchedule(states: seq<map<string, int>>, committed: seq<string>,
                                weights: map<string, int>, names: seq<string>, w: seq<int>)
    requires |names| > 0 && Distinct(names) && Weighs(weights, names, w)
    requires IsRun(states, committed, weights, names)
    ensures FollowsSchedule(committed, names, w)
  {
    forall k: nat | k < |committed| ensures Scheduled(committed, names, w, k) {
      RunFollowsSchedule(states, committed, weights, names, w, k);
    }
  }

  function Count(committed: seq<string>, name: string): nat {
    if committed == [] then 0
    else Count(committed[..|committed| - 1], name) + if committed[|committed| - 1] == name then 1 else 0
  }

  lemma {:induction false} CountIsPicks(committed: seq<string>, names: seq<string>, w: seq<int>, start: nat, stop: nat, i: nat)
    requires Distinct(names) && i < |names| == |w|
    requires start <= stop <= |committed|
    requires FollowsSchedule(committed, names, w)
    ensures Count(committed[start..stop], names[i]) == Picks(w, i, start, stop)
    decreases stop
  {
    if start == stop {
      CountNone(committed, names, w, start, i);
    } else {
      var k := stop - 1;
      CountIsPicks(committed, names, w, start, k, i);
      assert Scheduled(committed, names, w, k);
      CountOneMore(committed, names, w, start, k, i);
      assert committed[start..k + 1] == committed[start..stop];
    }
  }

  lemma CountNone(committed: seq<string>, names: seq<string>, w: seq<int>, start: nat, i: nat)
    requires start <= |committed| && i < |names| == |w|
    ensures Count(committed[start..start], names[i]) == Picks(w, i, start, start) == 0
  {
    assert committed[start..start] == [];
  }

  lemma CountOneMore(committed: seq<string>, names: seq<string>, w: seq<int>, start: nat, k: nat, i: nat)
    requires Distinct(names) && i < |names| == |w| && start <= k < |committed|
    requires Scheduled(committed, names, w, k)
    requires Count(committed[start..k], names[i]) == Picks(w, i, start, k)
    ensures Count(committed[start..k + 1], names[i]) == Picks(w, i, start, k + 1)
  {
    CountLast(committed, start, k, names[i]);
    SameIndex(names, PickAt(w, k), i);
  }

  lemma CountLast(committed: seq<string>, start: nat, k: nat, name: string)
    requires start <= k < |committed|
    ensures Count(committed[start..k + 1], name) == Count(committed[start..k], name) + if committed[k] == name then 1 else 0
  {
    assert committed[start..k + 1][..k - start] == committed[start..k];
  }

  lemma SameIndex(names: seq<string>, p: nat, i: nat)
    requires Distinct(names) && p < |names| && i < |names|
    ensures names[p] == names[i] <==> p == i
  {
  }

  /** In every run, any W consecutive commits name each credential exactly its weight times. */
  lemma EveryWindowOfCommitsIsExact(states: seq<map<string, int>>, committed: seq<string>,
                                    weights: map<string, int>, names: seq<string>, w: seq<int>,
                                    cycle: nat, start: nat, i: nat)
    requires |names| > 0 && Distinct(names) && Weighs(weights, names, w) && Weights(w)
    requires IsRun(states, committed, weights, names)
    requires cycle == Sum(w) && start + cycle <= |committed| && i < |names|
    ensures Count(committed[start..start + cycle], names[i]) == weights[names[i]]
  {
    WholeRunFollowsSchedule(states, committed, weights, names, w);
    CountIsPicks(committed, names, w, start, start + cycle, i);
    EveryWindowIsExact(w, cycle, start, i);
  }

  // ----- repeated names: namesakes share one node -----

  /** The first occurrences of a list, in order. */
  function Firsts(names: seq<string>): (firsts: seq<string>)
    ensures names != [] ==> firsts != []
  {
    if names == [] then []
    else
      var front, last := Firsts(names[..|names| - 1]), names[|names| - 1];
      if last in front then front else front + [last]
  }

  lemma {:induction false} FirstsMembers(names: seq<string>, x: string)
    ensures x in Firsts(names) <==> x in names
  {
    if names != [] {
      FirstsMembers(names[..|names| - 1], x);
      assert names == names[..|names| - 1] + [names[|names| - 1]];
    }
  }

  lemma {:induction false} FirstsDistinct(names: seq<string>)
    ensures Distinct(Firsts(names))
  {
    if names != [] {
      FirstsDistinct(names[..|names| - 1]);
    }
  }

  function Row(nodes: map<string, int>, names: seq<string>): (row: seq<int>)
    ensures |row| == |names|
  {
    seq(|names|, i requires 0 <= i < |names| => CurrentIn(nodes, names[i]))
  }

  /** A last element takes over only when it is larger. */
  lemma LeftmostMaxLast(s: seq<int>, last: int)
    requires s != []
    ensures LeftmostMax(s + [last]) == if last > s[LeftmostMax(s)] then |s| else LeftmostMax(s)
  {
    LeftmostMaxIsUnique(s, LeftmostMax(s));
    LeftmostMaxIsUnique(s + [last], if last > s[LeftmostMax(s)] then |s| else LeftmostMax(s));
  }

  lemma RowLast(nodes: map<string, int>, names: seq<string>, last: string)
    ensures Row(nodes, names + [last]) == Row(nodes, names) + [CurrentIn(nodes, last)]
  {
  }

  /** The leftmost maximum has the same name with and without the repetitions. */
  lemma {:induction false} SameMaximum(nodes: map<string, int>, names: seq<string>)
    requires names != []
    ensures names[LeftmostMax(Row(nodes, names))] == Firsts(names)[LeftmostMax(Row(nodes, Firsts(names)))]
  {
    var front, last := names[..|names| - 1], names[|names| - 1];
    assert names == front + [last];
    if front == [] {
      assert Firsts(names) == [last];
    } else {
      SameMaximum(nodes, front);
      var firsts := Firsts(front);
      RowLast(nodes, front, last);
      RowLast(nodes, firsts, last);
      LeftmostMaxLast(Row(nodes, front), CurrentIn(nodes, last));
      LeftmostMaxLast(Row(nodes, firsts), CurrentIn(nodes, last));
      if last in firsts {
        AtMostMaximum(nodes, firsts, last);
      }
    }
  }

  lemma AtMostMaximum(nodes: map<string, int>, names: seq<string>, name: string)
    requires name in names
    ensures CurrentIn(nodes, name) <= CurrentIn(nodes, names[LeftmostMax(Row(nodes, names))])
  {
    var i :| 0 <= i < |names| && names[i] == name;
    LeftmostMaxIsUnique(Row(nodes, names), LeftmostMax(Row(nodes, names)));
    assert Row(nodes, names)[i] <= Row(nodes, names)[LeftmostMax(Row(nodes, names))];
  }

  lemma CommittedOnFirsts(nodes: map<string, int>, name: string, nodes': map<string, int>,
                          weights: map<string, int>, names: seq<string>)
    requires Committed(nodes, name, nodes', weights, names)
    ensures Committed(nodes, name, nodes', weights, Firsts(names))
  {
    var credited := Advanced(nodes, weights);
    var row :| Shows(row, credited, names) && name == names[LeftmostMax(row)];
    SameRow(row, Row(credited, names), credited, names);
    SameMaximum(credited, names);
    assert Shows(Row(credited, Firsts(names)), credited, Firsts(names));
  }

  /** The weights are those of exactly these names, all at least 1. */
  ghost predicate WeighsNames(weights: map<string, int>, names: seq<string>) {
    names != [] && (forall n :: n in weights <==> n in names) && forall n :: n in weights ==> weights[n] >= 1
  }

  function WeightsOf(weights: map<string, int>, names: seq<string>): (w: seq<int>)
    requires forall n :: n in names ==> n in weights
    ensures |w| == |names|
  {
    seq(|names|, i requires 0 <= i < |names| => weights[names[i]])
  }

  lemma FirstsWeigh(weights: map<string, int>, names: seq<string>)
    requires WeighsNames(weights, names)
    ensures forall n :: n in Firsts(names) ==> n in weights
    ensures Weighs(weights, Firsts(names), WeightsOf(weights, Firsts(names))) && Weights(WeightsOf(weights, Firsts(names)))
    ensures SumValues(weights) == Sum(WeightsOf(weights, Firsts(names))) >= 1
  {
    forall n ensures n in Firsts(names) <==> n in weights {
      FirstsMembers(names, n);
    }
    var w := WeightsOf(weights, Firsts(names));
    FirstsDistinct(names);
    TotalWeight(weights, Firsts(names), w);
    SumPositive(w);
  }

  /** These consecutive commits name every credential exactly its weight times. */
  ghost predicate WindowExact(committed: seq<string>, weights: map<string, int>, cycle: nat, start: nat) {
    start + cycle <= |committed| ==>
      forall n :: n in weights ==> Count(committed[start..start + cycle], n) == weights[n]
  }

  /** Any W consecutive commits, W the total weight, are exact. */
  ghost predicate EveryWindowExact(committed: seq<string>, weights: map<string, int>) {
    SumValues(weights) >= 1 && forall start: nat :: WindowExact(committed, weights, SumValues(weights), start)
  }

  lemma FirstsRun(states: seq<map<string, int>>, committed: seq<string>, weights: map<string, int>, names: seq<string>)
    requires IsRun(states, committed, weights, names)
    ensures IsRun(states, committed, weights, Firsts(names))
  {
    forall k | 0 <= k < |committed| ensures RoundAt(states, committed, weights, Firsts(names), k) {
      assert RoundAt(states, committed, weights, names, k);
      CommittedOnFirsts(states[k], committed[k], states[k + 1], weights, names);
    }
  }

  /** The same fairness by name, whether or not names are repeated among the live candidates. */
  lemma EveryRunIsExactByName(states: seq<map<string, int>>, committed: seq<string>, weights: map<string, int>, names: seq<string>)
    requires IsRun(states, committed, weights, names) && WeighsNames(weights, names)
    ensures EveryWindowExact(committed, weights)
  {
    var firsts, cycle := Firsts(names), SumValues(weights);
    FirstsRun(states, committed, weights, names);
    FirstsDistinct(names);
    FirstsWeigh(weights, names);
    forall start: nat ensures WindowExact(committed, weights, cycle, start) {
      if start + cycle <= |committed| {
        forall n | n in weights ensures Count(committed[start..start + cycle], n) == weights[n] {
          FirstsMembers(names, n);
          var i: nat :| i < |firsts| && firsts[i] == n;
          EveryWindowOfCommitsIsExact(states, committed, weights, firsts, WeightsOf(weights, firsts), cycle, start, i);
        }
      }
    }
  }
}
