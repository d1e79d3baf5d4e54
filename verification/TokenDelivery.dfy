/** Which listed waiters can still get a response, and which cannot (internal/auth/vertex.go). */
module TokenDelivery {
  import opened Collections
  import opened TokenRefresh

  ghost predicate Runs(s: State, steps: seq<Step>)
    decreases |steps|
  {
    steps == [] || (Enabled(s, steps[0]) && Runs(Next(s, steps[0]), steps[1..]))
  }

  ghost function Final(s: State, steps: seq<Step>): State
    requires Runs(s, steps)
    decreases |steps|
  {
    if steps == [] then s else Final(Next(s, steps[0]), steps[1..])
  }

  /** The channel has been sent a response after these steps. */
  ghost predicate Reaches(s: State, steps: seq<Step>, ch: Chan) {
    Runs(s, steps) && ch in Final(s, steps).sends
  }

  ghost predicate Waits(s: State, c: string, ch: Chan) {
    c in s.refreshing && ch in s.refreshing[c]
  }

  /** Somebody is left who will serve or fail the credential's list: a worker to take its request, a Stop that has
      not failed everyone yet, a refresh in progress, or a caller that can still give up sending. */
  ghost predicate HasServer(s: State, c: string) {
    || !s.phase.workerDone
    || !s.phase.failedAll
    || (exists w :: w in s.processing && s.processing[w].credential == c)
    || (exists owner :: owner in s.sending && s.sending[owner] == c)
  }

  lemma Prepend(s: State, e: Step, rest: seq<Step>, ch: Chan)
    requires Enabled(s, e) && Reaches(Next(s, e), rest, ch)
    ensures Reaches(s, [e] + rest, ch)
  {
    assert ([e] + rest)[1..] == rest;
  }

  /** A sender that keeps delivering reaches every channel of its batch. */
  lemma {:induction false} BatchReaches(s: State, k: Sender, ch: Chan) returns (steps: seq<Step>)
    requires Inv(s) && k in s.batches && ch in s.batches[k].chans
    ensures Reaches(s, steps, ch)
    decreases |s.batches[k].chans|
  {
    DeliverKeepsInv(s, k);
    var first := s.batches[k].chans[0];
    assert first in s.batches[k].chans && At(s.place, first, InBatch(k)) && first !in s.buffers;
    var rest := [];
    if ch != first {
      rest := BatchReaches(DoDeliver(s, k), k, ch);
    }
    steps := [Deliver(k)] + rest;
    Prepend(s, Deliver(k), rest, ch);
  }

  lemma FinishReaches(s: State, w: nat, c: string, ch: Chan) returns (steps: seq<Step>)
    requires Inv(s) && w in s.processing && s.processing[w].credential == c && Waits(s, c, ch)
    ensures Reaches(s, steps, ch)
  {
    var e := Finish(w, Error("refresh failed"));
    FinishKeepsInv(s, w, Error("refresh failed"));
    var rest := BatchReaches(Next(s, e), Worker(w), ch);
    steps := [e] + rest;
    Prepend(s, e, rest, ch);
  }

  /** Taking another request leaves this one queued and its waiters waiting. */
  lemma TakeKeepsWaiting(s: State, r: Request, ch: Chan)
    requires Inv(s) && !s.phase.workerDone && r in s.queue && s.queue[0] != r && Waits(s, r.credential, ch)
    ensures var s' := DoTake(s);
      && Inv(s') && !s'.phase.workerDone && |s'.queue| < |s.queue|
      && r in s'.queue && Waits(s', r.credential, ch)
  {
    TakeKeepsInv(s);
    assert s.queue == [s.queue[0]] + DoTake(s).queue;
  }

  lemma {:induction false} QueueReaches(s: State, r: Request, ch: Chan) returns (steps: seq<Step>)
    requires Inv(s) && !s.phase.workerDone && r in s.queue && Waits(s, r.credential, ch)
    ensures Reaches(s, steps, ch)
    decreases |s.queue|
  {
    var s' := DoTake(s);
    var rest;
    if s.queue[0] == r {
      TakeKeepsInv(s);
      rest := FinishReaches(s', s.nextWorker, r.credential, ch);
    } else {
      TakeKeepsWaiting(s, r, ch);
      rest := QueueReaches(s', r, ch);
    }
    steps := [Take] + rest;
    Prepend(s, Take, rest, ch);
  }

  lemma GivingUpReaches(s: State, owner: Chan, c: string, ch: Chan) returns (steps: seq<Step>)
    requires Inv(s) && owner in s.sending && s.sending[owner] == c && Waits(s, c, ch)
    ensures Reaches(s, steps, ch)
  {
    GiveUpSendingKeepsInv(s, owner);
    var rest := BatchReaches(DoGiveUpSending(s, owner), Caller(owner), ch);
    steps := [GiveUpSending(owner)] + rest;
    Prepend(s, GiveUpSending(owner), rest, ch);
  }

  lemma FailAllReaches(s: State, c: string, ch: Chan) returns (steps: seq<Step>)
    requires Inv(s) && s.phase.stopped && !s.phase.failedAll && Waits(s, c, ch)
    ensures Reaches(s, steps, ch)
  {
    FailAllKeepsInv(s);
    var rest := BatchReaches(DoFailAll(s), Stopper(c), ch);
    steps := [FailAll] + rest;
    Prepend(s, FailAll, rest, ch);
  }

  lemma StopReaches(s: State, c: string, ch: Chan) returns (steps: seq<Step>)
    requires Inv(s) && !s.phase.failedAll && Waits(s, c, ch)
    ensures Reaches(s, steps, ch)
  {
    if s.phase.stopped {
      steps := FailAllReaches(s, c, ch);
    } else {
      var rest := FailAllReaches(Next(s, Stop), c, ch);
      steps := [Stop] + rest;
      Prepend(s, Stop, rest, ch);
    }
  }

  /** A server serves: in particular, while the worker is there its queue leads to the credential's request. */
  lemma ServerReaches(s: State, c: string, ch: Chan) returns (steps: seq<Step>)
    requires Inv(s) && Waits(s, c, ch) && HasServer(s, c)
    ensures Reaches(s, steps, ch)
  {
    if w :| w in s.processing && s.processing[w].credential == c {
      steps := FinishReaches(s, w, c, ch);
    } else if owner :| owner in s.sending && s.sending[owner] == c {
      steps := GivingUpReaches(s, owner, c, ch);
    } else if !s.phase.workerDone {
      var r := Request(c, s.creator[c]);
      assert Pending(r, s.sending, s.queue, s.processing);
      steps := QueueReaches(s, r, ch);
    } else {
      steps := StopReaches(s, c, ch);
    }
  }

  // ----- without a server nothing ever arrives -----

  /** Nobody will ever send to this channel: it is off every list, or on one that has no server. */
  ghost predicate Lost(s: State, c: string, ch: Chan) {
    s.phase.workerDone && s.phase.failedAll && LostIn(s.refreshing, s.processing, s.sending, s.place, c, ch)
  }

  ghost predicate LostIn(lists: map<string, seq<Chan>>, processing: map<nat, Request>, sending: map<Chan, string>,
                         place: map<Chan, Place>, c: string, ch: Chan)
  {
    || At(place, ch, Removed)
    || (&& At(place, ch, Listed(c)) && c in lists && ch in lists[c]
        && (forall w :: w in processing ==> processing[w].credential != c)
        && (forall owner :: owner in sending ==> sending[owner] != c))
  }

  lemma LostIsUnserved(s: State, c: string, ch: Chan)
    requires Inv(s) && Waits(s, c, ch)
    ensures Lost(s, c, ch) <==> !HasServer(s, c)
  {
    assert At(s.place, ch, Listed(c));
  }

  lemma LostIsUnsent(s: State, c: string, ch: Chan)
    requires Inv(s) && Lost(s, c, ch)
    ensures ch !in s.sends
  {
    assert ch in s.sends ==> At(s.place, ch, Sent);
  }

  /** Taking another credential's list leaves a lost channel where it is. */
  lemma TakeListLeavesLost(s: State, d: string, k: Sender, response: Response, c: string, ch: Chan)
    requires ListsPlaced(s.refreshing, s.place) && Lost(s, c, ch)
    requires d == c ==> At(s.place, ch, Removed)
    ensures Lost(TakeList(s, d, k, response), c, ch)
  {
    if d in s.refreshing {
      assert ch in s.refreshing[d] ==> At(s.place, ch, Listed(d));
    }
  }

  lemma CreateLeavesLost(s: State, d: string, c: string, ch: Chan)
    requires Inv(s) && Lost(s, c, ch) && d !in s.refreshing
    ensures Lost(DoCreate(s, d), c, ch)
  {
    assert s.nextChan !in s.place;
  }

  lemma JoinLeavesLost(s: State, d: string, c: string, ch: Chan)
    requires Inv(s) && Lost(s, c, ch) && d in s.refreshing
    ensures Lost(DoJoin(s, d), c, ch)
  {
    assert s.nextChan !in s.place;
    assert ch in s.refreshing[d] ==> ch in s.refreshing[d] + [s.nextChan];
  }

  lemma BeginLeavesLost(s: State, d: string, c: string, ch: Chan)
    requires Inv(s) && Lost(s, c, ch) && s.phase.entered > 0
    ensures Lost(DoBegin(s, d), c, ch)
  {
    var t := s.(phase := s.phase.(entered := s.phase.entered - 1));
    if d in s.refreshing { JoinLeavesLost(t, d, c, ch); } else { CreateLeavesLost(t, d, c, ch); }
  }

  lemma DeliverLeavesLost(s: State, k: Sender, c: string, ch: Chan)
    requires Inv(s) && Lost(s, c, ch) && k in s.batches && s.batches[k].chans != []
    ensures Lost(DoDeliver(s, k), c, ch)
  {
    var first := s.batches[k].chans[0];
    assert first in s.batches[k].chans && At(s.place, first, InBatch(k));
    FirstIsSent(s, k);
    assert At(s.place[first := Sent], ch, s.place[ch]);
  }

  lemma GiveUpWaitingLeavesLost(s: State, d: Chan, c: string, ch: Chan)
    requires Inv(s) && Lost(s, c, ch) && Enabled(s, GiveUpWaiting(d))
    ensures Lost(DoGiveUpWaiting(s, d), c, ch)
  {
    var e := s.waiting[d];
    if e in s.refreshing && d in s.refreshing[e] && d != ch && At(s.place, ch, Listed(c)) {
      assert ch in Without(s.refreshing[c], d);
    }
  }

  /** Whatever happens next, a lost channel stays lost. */
  lemma StepLeavesLost(s: State, e: Step, c: string, ch: Chan)
    requires Inv(s) && Lost(s, c, ch) && Enabled(s, e)
    ensures Lost(Next(s, e), c, ch)
  {
    match e
    case Enter =>
    case Begin(d) => BeginLeavesLost(s, d, c, ch);
    case SendRequest(_) =>
    case GiveUpSending(owner) =>
      TakeListLeavesLost(s.(sending := s.sending - {owner}), s.sending[owner], Caller(owner), Error("initiator cancelled"), c, ch);
    case Take =>
    case Finish(w, response) =>
      TakeListLeavesLost(s.(processing := s.processing - {w}), s.processing[w].credential, Worker(w), response, c, ch);
    case Deliver(k) => DeliverLeavesLost(s, k, c, ch);
    case GiveUpWaiting(d) => GiveUpWaitingLeavesLost(s, d, c, ch);
    case Receive(_) =>
    case Stop =>
    case FailAll =>
    case WorkerExit =>
  }

  lemma {:induction false} LostNeverReaches(s: State, steps: seq<Step>, c: string, ch: Chan)
    requires Inv(s) && Lost(s, c, ch)
    ensures !Reaches(s, steps, ch)
    decreases |steps|
  {
    LostIsUnsent(s, c, ch);
    if steps != [] && Runs(s, steps) {
      StepKeepsInv(s, steps[0]);
      StepLeavesLost(s, steps[0], c, ch);
      LostNeverReaches(Next(s, steps[0]), steps[1..], c, ch);
    }
  }

  /** In every reachable state, a listed waiter has a continuation that sends it a response exactly when its
      credential still has a server. */
  lemma WaiterIsServedIffServer(states: seq<State>, run: seq<Step>, i: nat, c: string, ch: Chan)
    requires Run(states, run) && i < |states| && Waits(states[i], c, ch)
    ensures (exists steps :: Reaches(states[i], steps, ch)) <==> HasServer(states[i], c)
  {
    var s := states[i];
    EveryStateIsSound(states, run, i);
    if HasServer(s, c) {
      var steps := ServerReaches(s, c, ch);
    } else {
      LostIsUnserved(s, c, ch);
      forall steps ensures !Reaches(s, steps, ch) {
        LostNeverReaches(s, steps, c, ch);
      }
    }
  }

  /** Until everyone was failed on Stop, every listed waiter can still be served. */
  lemma EveryWaiterCanBeServed(states: seq<State>, run: seq<Step>, i: nat, c: string, ch: Chan)
    requires Run(states, run) && i < |states| && Waits(states[i], c, ch) && !states[i].phase.failedAll
    ensures exists steps :: Reaches(states[i], steps, ch)
  {
    WaiterIsServedIffServer(states, run, i, c, ch);
  }

  /** A caller finds the manager running, Stop fails everyone listed, and only then does the caller list itself. */
  ghost function LateSteps(c: string): seq<Step> {
    [Enter, Stop, FailAll, Begin(c), SendRequest(0), WorkerExit]
  }

  ghost function LateStates(c: string): seq<State> {
    [INITIAL, Stopping(false, false), Stopping(true, false), Stopping(true, true), LateBegun(c), LateSent(c, false), LateSent(c, true)]
  }

  ghost function Stopping(stopped: bool, failedAll: bool): State {
    INITIAL.(phase := Phase(1, stopped, failedAll, false))
  }

  ghost function LateBegun(c: string): State {
    INITIAL.(refreshing := map[c := [0]], sending := map[0 := c], nextChan := 1,
             phase := Phase(0, true, true, false), creator := map[c := 0], place := map[0 := Listed(c)])
  }

  ghost function LateSent(c: string, workerDone: bool): State {
    LateBegun(c).(queue := [Request(c, 0)], sending := map[], waiting := map[0 := c],
                   phase := Phase(0, true, true, workerDone))
  }

  ghost predicate Moves(s: State, e: Step, t: State) {
    Enabled(s, e) && t == Next(s, e)
  }

  lemma NoBatches()
    ensures StopBatches(map[]) == map[]
  {
  }

  lemma NoPlaces()
    ensures StopPlaces(map[]) == map[]
  {
  }

  lemma FailsNobody(s: State)
    requires s.refreshing == map[] && s.creator == map[] && s.batches == map[] && s.place == map[]
    ensures DoFailAll(s) == s.(phase := s.phase.(failedAll := true))
  {
    NoBatches();
    NoPlaces();
    var none: map<Sender, Batch> := map[];
    assert none + none == none;
  }

  lemma LateBegins(c: string)
    ensures DoBegin(Stopping(true, true), c) == LateBegun(c)
  {
    assert INITIAL.refreshing[c := [0]] == map[c := [0]];
  }

  lemma LateSends(c: string)
    ensures DoSendRequest(LateBegun(c), 0) == LateSent(c, false)
  {
    assert map[0 := c] - {0} == map[];
  }

  lemma LateStops()
    ensures Moves(INITIAL, Enter, Stopping(false, false))
    ensures Moves(Stopping(false, false), Stop, Stopping(true, false))
    ensures Moves(Stopping(true, false), FailAll, Stopping(true, true))
  {
    FailsNobody(Stopping(true, false));
  }

  lemma LateListsItself(c: string)
    ensures Moves(Stopping(true, true), Begin(c), LateBegun(c))
    ensures Moves(LateBegun(c), SendRequest(0), LateSent(c, false))
    ensures Moves(LateSent(c, false), WorkerExit, LateSent(c, true))
  {
    LateBegins(c);
    LateSends(c);
  }

  lemma LateRun(c: string)
    ensures Run(LateStates(c), LateSteps(c))
  {
    LateStops();
    LateListsItself(c);
    var states, steps := LateStates(c), LateSteps(c);
    forall i | 0 <= i < 6 ensures StepAt(states, steps, i) {
      assert i == 0 || i == 1 || i == 2 || i == 3 || i == 4 || i == 5;
      assert Moves(states[i], steps[i], states[i + 1]);
    }
  }

  /** Such a caller can be left to a worker that has gone: it is listed, and no continuation sends it anything. */
  lemma LateWaiterIsOrphaned(c: string)
    ensures Run(LateStates(c), LateSteps(c))
    ensures Waits(LateStates(c)[6], c, 0)
    ensures forall more :: !Reaches(LateStates(c)[6], more, 0)
  {
    LateRun(c);
    EveryStateIsSound(LateStates(c), LateSteps(c), 6);
    LostIsUnserved(LateStates(c)[6], c, 0);
    forall more ensures !Reaches(LateStates(c)[6], more, 0) {
      LostNeverReaches(LateStates(c)[6], more, c, 0);
    }
  }
}
