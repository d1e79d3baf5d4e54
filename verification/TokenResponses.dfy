/** What a waiter is sent: the outcome of a refresh of its own credential, or an error (internal/auth/vertex.go). */
module TokenResponses {
  import opened Collections
  import opened TokenRefresh
  import opened TokenDelivery

  /** This step answers everyone listed for the credential with this response. */
  predicate AnswersWith(s: State, e: Step, c: string, r: Response) {
    match e
    case Finish(w, response) => w in s.processing && s.processing[w].credential == c && r == response
    case GiveUpSending(owner) => owner in s.sending && s.sending[owner] == c && r.Error?
    case FailAll => r.Error?
    case _ => false
  }

  /** The step takes the channel off the credential's list, to answer it with this response. */
  ghost predicate TakesOff(s: State, e: Step, after: State, c: string, ch: Chan, r: Response) {
    Waits(s, c, ch) && !Waits(after, c, ch) && AnswersWith(s, e, c, r)
  }

  /** The channel holds this response, or somebody is about to send it. */
  ghost predicate Owed(s: State, ch: Chan, r: Response) {
    Holds(s.buffers, ch, r) || ToBeSent(s.batches, ch, r)
  }

  ghost predicate Holds(buffers: map<Chan, Response>, ch: Chan, r: Response) {
    ch in buffers && buffers[ch] == r
  }

  ghost predicate ToBeSent(batches: map<Sender, Batch>, ch: Chan, r: Response) {
    exists k :: k in batches && ch in batches[k].chans && batches[k].response == r
  }

  // ----- one step -----

  lemma BatchAdded(batches: map<Sender, Batch>, k: Sender, b: Batch, ch: Chan, r: Response)
    requires ToBeSent(batches[k := b], ch, r)
    ensures ToBeSent(batches, ch, r) || (ch in b.chans && b.response == r)
  {
  }

  lemma BatchesAdded(batches: map<Sender, Batch>, more: map<Sender, Batch>, ch: Chan, r: Response)
    requires ToBeSent(batches + more, ch, r)
    ensures ToBeSent(batches, ch, r) || ToBeSent(more, ch, r)
  {
  }

  lemma TakingOwes(s: State, d: string, sender: Sender, response: Response, ch: Chan, r: Response)
    requires Owed(TakeList(s, d, sender, response), ch, r)
    ensures Owed(s, ch, r) || (Waits(s, d, ch) && r == response)
  {
    if d in s.refreshing && !Holds(s.buffers, ch, r) {
      BatchAdded(s.batches, sender, Batch(s.refreshing[d], response), ch, r);
    }
  }

  lemma BatchShortened(batches: map<Sender, Batch>, k: Sender, ch: Chan, r: Response)
    requires k in batches && batches[k].chans != []
    requires ToBeSent(if |batches[k].chans| == 1 then batches - {k}
                      else batches[k := Batch(batches[k].chans[1..], batches[k].response)], ch, r)
    ensures ToBeSent(batches, ch, r)
  {
    if |batches[k].chans| != 1 {
      BatchAdded(batches, k, Batch(batches[k].chans[1..], batches[k].response), ch, r);
    }
  }

  /** What an effective send does; a channel that already holds a response is never sent to. */
  lemma DeliveringFields(s: State, sender: Sender)
    requires sender in s.batches && s.batches[sender].chans != [] && s.batches[sender].chans[0] !in s.buffers
    ensures var (t, batch) := (DoDeliver(s, sender), s.batches[sender]);
      && t.batches == (if |batch.chans| == 1 then s.batches - {sender}
                       else s.batches[sender := Batch(batch.chans[1..], batch.response)])
      && t.buffers == s.buffers[batch.chans[0] := batch.response]
      && t.place == s.place[batch.chans[0] := Sent]
      && t.refreshing == s.refreshing
  {
  }

  lemma DeliversToEmpty(s: State, sender: Sender)
    requires Inv(s) && sender in s.batches
    ensures s.batches[sender].chans != [] && s.batches[sender].chans[0] !in s.buffers
  {
    var ch := s.batches[sender].chans[0];
    assert ch in s.batches[sender].chans && At(s.place, ch, InBatch(sender));
  }

  lemma DeliveringOwes(s: State, sender: Sender, ch: Chan, r: Response)
    requires Inv(s) && sender in s.batches && Enabled(s, Deliver(sender)) && Owed(DoDeliver(s, sender), ch, r)
    ensures Owed(s, ch, r)
  {
    DeliversToEmpty(s, sender);
    DeliveringFields(s, sender);
    var batch := s.batches[sender];
    if ch == batch.chans[0] && batch.response == r {
      assert ch in batch.chans;
    } else if !Holds(s.buffers, ch, r) {
      BatchShortened(s.batches, sender, ch, r);
    }
  }

  lemma FailingOwes(s: State, ch: Chan, r: Response)
    requires Owed(DoFailAll(s), ch, r)
    ensures Owed(s, ch, r) || (r.Error? && exists c :: Waits(s, c, ch))
  {
    if !Holds(s.buffers, ch, r) {
      BatchesAdded(s.batches, StopBatches(s.refreshing), ch, r);
      if ToBeSent(StopBatches(s.refreshing), ch, r) {
        var k :| k in StopBatches(s.refreshing) && ch in StopBatches(s.refreshing)[k].chans
                 && StopBatches(s.refreshing)[k].response == r;
        assert Waits(s, k.credential, ch);
      }
    }
  }

  ghost predicate SomebodyTakesOff(s: State, e: Step, after: State, ch: Chan, r: Response) {
    exists c :: TakesOff(s, e, after, c, ch, r)
  }

  lemma GivingUpTakesOff(s: State, owner: Chan, ch: Chan, r: Response)
    requires owner in s.sending && Owed(DoGiveUpSending(s, owner), ch, r) && !Owed(s, ch, r)
    ensures TakesOff(s, GiveUpSending(owner), DoGiveUpSending(s, owner), s.sending[owner], ch, r)
  {
    var t := s.(sending := s.sending - {owner});
    TakingOwes(t, s.sending[owner], Caller(owner), Error("initiator cancelled"), ch, r);
    assert Owed(t, ch, r) <==> Owed(s, ch, r);
  }

  lemma FinishingTakesOff(s: State, w: nat, response: Response, ch: Chan, r: Response)
    requires w in s.processing && Owed(DoFinish(s, w, response), ch, r) && !Owed(s, ch, r)
    ensures TakesOff(s, Finish(w, response), DoFinish(s, w, response), s.processing[w].credential, ch, r)
  {
    var t := s.(processing := s.processing - {w});
    TakingOwes(t, s.processing[w].credential, Worker(w), response, ch, r);
    assert Owed(t, ch, r) <==> Owed(s, ch, r);
  }

  lemma FailingTakesOff(s: State, ch: Chan, r: Response)
    requires Owed(DoFailAll(s), ch, r) && !Owed(s, ch, r)
    ensures SomebodyTakesOff(s, FailAll, DoFailAll(s), ch, r)
  {
    FailingOwes(s, ch, r);
    var c :| Waits(s, c, ch);
    assert TakesOff(s, FailAll, DoFailAll(s), c, ch, r);
  }

  /** Steps that answer nobody and send nothing. */
  predicate Silent(e: Step) {
    !e.GiveUpSending? && !e.Finish? && !e.Deliver? && !e.FailAll?
  }

  lemma SilentSendsNothing(s: State, e: Step)
    requires Enabled(s, e) && Silent(e)
    ensures Next(s, e).batches == s.batches
    ensures e.Receive? || Next(s, e).buffers == s.buffers
    ensures e.Receive? ==> Next(s, e).buffers == s.buffers - {e.chan}
  {
    match e
    case Begin(c) => BeginSendsNothing(s, c);
    case GiveUpWaiting(ch) => GivingUpWaitingSendsNothing(s, ch);
    case _ =>
  }

  lemma BeginSendsNothing(s: State, c: string)
    requires s.phase.entered > 0
    ensures DoBegin(s, c).batches == s.batches && DoBegin(s, c).buffers == s.buffers
  {
    BeginFields(s, c);
  }

  lemma BeginFields(s: State, c: string)
    requires s.phase.entered > 0
    ensures var t := DoBegin(s, c);
      && t.batches == s.batches && t.buffers == s.buffers
      && t.place == s.place[s.nextChan := Listed(c)]
      && t.refreshing == s.refreshing[c := if c in s.refreshing then s.refreshing[c] + [s.nextChan] else [s.nextChan]]
  {
    var t := s.(phase := s.phase.(entered := s.phase.entered - 1));
    if c in s.refreshing {
      JoinFields(t, c);
    } else {
      CreateFields(t, c);
    }
  }

  lemma JoinFields(s: State, c: string)
    requires c in s.refreshing
    ensures var t := DoJoin(s, c);
      && t.batches == s.batches && t.buffers == s.buffers
      && t.place == s.place[s.nextChan := Listed(c)]
      && t.refreshing == s.refreshing[c := s.refreshing[c] + [s.nextChan]]
  {
  }

  lemma CreateFields(s: State, c: string)
    ensures var t := DoCreate(s, c);
      && t.batches == s.batches && t.buffers == s.buffers
      && t.place == s.place[s.nextChan := Listed(c)] && t.refreshing == s.refreshing[c := [s.nextChan]]
  {
  }

  lemma GivingUpWaitingSendsNothing(s: State, ch: Chan)
    requires ch in s.waiting
    ensures DoGiveUpWaiting(s, ch).batches == s.batches && DoGiveUpWaiting(s, ch).buffers == s.buffers
  {
    if Waits(s, s.waiting[ch], ch) {
      LeavingListFields(s, ch);
    } else {
      assert DoGiveUpWaiting(s, ch) == s.(waiting := s.waiting - {ch});
    }
  }

  lemma LeavingListFields(s: State, ch: Chan)
    requires ch in s.waiting && Waits(s, s.waiting[ch], ch)
    ensures DoGiveUpWaiting(s, ch).batches == s.batches && DoGiveUpWaiting(s, ch).buffers == s.buffers
  {
  }

  /** Whatever a channel is owed was owed before, or this step took the channel off its list for it. */
  lemma StepOwes(s: State, e: Step, ch: Chan, r: Response)
    requires Inv(s) && Enabled(s, e) && Owed(Next(s, e), ch, r) && !Owed(s, ch, r)
    ensures SomebodyTakesOff(s, e, Next(s, e), ch, r)
  {
    if Silent(e) {
      SilentSendsNothing(s, e);
      assert false;
    } else if e.GiveUpSending? {
      GivingUpTakesOff(s, e.chan, ch, r);
    } else if e.Finish? {
      FinishingTakesOff(s, e.worker, e.response, ch, r);
    } else if e.FailAll? {
      FailingTakesOff(s, ch, r);
    } else {
      DeliveringOwes(s, e.sender, ch, r);
      assert false;
    }
  }

  lemma BeginLists(s: State, d: string, c: string, ch: Chan)
    requires s.phase.entered > 0 && Waits(DoBegin(s, d), c, ch) && !Waits(s, c, ch)
    ensures c == d && ch == s.nextChan
  {
    BeginFields(s, d);
  }

  lemma GivingUpWaitingListsNobody(s: State, gone: Chan, c: string, ch: Chan)
    requires gone in s.waiting && Waits(DoGiveUpWaiting(s, gone), c, ch)
    ensures Waits(s, c, ch)
  {
  }

  /** A channel comes onto a list only when its caller asks for that credential. */
  lemma StepLists(s: State, e: Step, c: string, ch: Chan)
    requires Inv(s) && Enabled(s, e) && Waits(Next(s, e), c, ch) && !Waits(s, c, ch)
    ensures e == Begin(c) && ch == s.nextChan
  {
    if e.Begin? {
      BeginLists(s, e.credential, c, ch);
    } else if e.GiveUpWaiting? {
      GivingUpWaitingListsNobody(s, e.chan, c, ch);
      assert false;
    } else {
      OthersListNobody(s, e, c);
      assert false;
    }
  }

  lemma OthersListNobody(s: State, e: Step, c: string)
    requires Inv(s) && Enabled(s, e) && !e.Begin? && !e.GiveUpWaiting?
    ensures c in Next(s, e).refreshing ==> c in s.refreshing && Next(s, e).refreshing[c] == s.refreshing[c]
  {
    match e
    case GiveUpSending(owner) =>
      TakingListsNobody(s.(sending := s.sending - {owner}), s.sending[owner], Caller(owner), Error("initiator cancelled"), c);
    case Finish(w, response) =>
      TakingListsNobody(s.(processing := s.processing - {w}), s.processing[w].credential, Worker(w), response, c);
    case FailAll =>
    case Deliver(sender) =>
      DeliversToEmpty(s, sender);
      DeliveringFields(s, sender);
    case Enter =>
    case SendRequest(_) =>
    case Take =>
    case Receive(_) =>
    case Stop =>
    case WorkerExit =>
  }

  lemma TakingListsNobody(s: State, d: string, sender: Sender, response: Response, c: string)
    ensures var after := TakeList(s, d, sender, response).refreshing;
      c in after ==> c in s.refreshing && after[c] == s.refreshing[c]
  {
  }

  /** Once off its list a channel is never listed again, and never on another list. */
  lemma StepKeepsPlace(s: State, e: Step, ch: Chan)
    requires Inv(s) && Enabled(s, e) && ch in s.place
    ensures ch in Next(s, e).place
    ensures Next(s, e).place[ch].Listed? ==> Next(s, e).place[ch] == s.place[ch]
  {
    match e
    case Begin(c) => BeginKeepsPlace(s, c, ch);
    case GiveUpWaiting(gone) => GivingUpWaitingKeepsPlace(s, gone, ch);
    case Deliver(sender) => DeliveringKeepsPlace(s, sender, ch);
    case GiveUpSending(owner) => TakingKeepsPlace(s.(sending := s.sending - {owner}), s.sending[owner], Caller(owner), Error("initiator cancelled"), ch);
    case Finish(w, response) => TakingKeepsPlace(s.(processing := s.processing - {w}), s.processing[w].credential, Worker(w), response, ch);
    case FailAll =>
    case _ => assert Next(s, e).place == s.place;
  }

  lemma BeginKeepsPlace(s: State, c: string, ch: Chan)
    requires s.phase.entered > 0 && ch in s.place && s.nextChan !in s.place
    ensures ch in DoBegin(s, c).place && DoBegin(s, c).place[ch] == s.place[ch]
  {
    BeginFields(s, c);
  }

  lemma GivingUpWaitingKeepsPlace(s: State, gone: Chan, ch: Chan)
    requires gone in s.waiting && ch in s.place
    ensures var after := DoGiveUpWaiting(s, gone).place;
      ch in after && (after[ch].Listed? ==> after[ch] == s.place[ch])
  {
  }

  lemma DeliveringKeepsPlace(s: State, sender: Sender, ch: Chan)
    requires Inv(s) && sender in s.batches && Enabled(s, Deliver(sender)) && ch in s.place
    ensures var after := DoDeliver(s, sender).place;
      ch in after && (after[ch].Listed? ==> after[ch] == s.place[ch])
  {
    DeliversToEmpty(s, sender);
    DeliveringFields(s, sender);
  }

  lemma TakingKeepsPlace(s: State, c: string, sender: Sender, response: Response, ch: Chan)
    requires ch in s.place
    ensures var after := TakeList(s, c, sender, response).place;
      ch in after && (after[ch].Listed? ==> after[ch] == s.place[ch])
  {
  }

  // ----- whole runs -----

  lemma {:induction false} ListedByItsCaller(states: seq<State>, steps: seq<Step>, k: nat, c: string, ch: Chan) returns (j: nat)
    requires Run(states, steps) && k < |states| && Waits(states[k], c, ch)
    ensures j < k && steps[j] == Begin(c) && states[j].nextChan == ch
  {
    assert k > 0;
    EveryStateIsSound(states, steps, k - 1);
    assert StepAt(states, steps, k - 1);
    if Waits(states[k - 1], c, ch) {
      j := ListedByItsCaller(states, steps, k - 1, c, ch);
    } else {
      StepLists(states[k - 1], steps[k - 1], c, ch);
      j := k - 1;
    }
  }

  lemma {:induction false} OwedSince(states: seq<State>, steps: seq<Step>, i: nat, ch: Chan, r: Response) returns (k: nat, c: string)
    requires Run(states, steps) && i < |states| && Owed(states[i], ch, r)
    ensures k < i && TakesOff(states[k], steps[k], states[k + 1], c, ch, r)
  {
    NobodyOwedAtFirst(ch, r);
    if Owed(states[i - 1], ch, r) {
      k, c := OwedSince(states, steps, i - 1, ch, r);
    } else {
      k := i - 1;
      c := OwedFromHere(states, steps, k, ch, r);
    }
  }

  lemma NobodyOwedAtFirst(ch: Chan, r: Response)
    ensures !Owed(INITIAL, ch, r)
  {
  }

  lemma OwedFromHere(states: seq<State>, steps: seq<Step>, k: nat, ch: Chan, r: Response) returns (c: string)
    requires Run(states, steps) && k < |steps| && Owed(states[k + 1], ch, r) && !Owed(states[k], ch, r)
    ensures TakesOff(states[k], steps[k], states[k + 1], c, ch, r)
  {
    EveryStateIsSound(states, steps, k);
    assert StepAt(states, steps, k);
    StepOwes(states[k], steps[k], ch, r);
    c :| TakesOff(states[k], steps[k], states[k + 1], c, ch, r);
  }

  /**
   Whatever a channel holds in any state of any run is the answer to its own caller: that caller asked for a credential,
   and a later step took the channel off this credential's list. That step was the end of a refresh of the credential,
   and the response is what the refresh ended with; or an initiator's giving up or Stop, and the response is an error.
   */
  lemma ResponseIsItsOwn(states: seq<State>, steps: seq<Step>, i: nat, ch: Chan) returns (c: string, j: nat, k: nat)
    requires Run(states, steps) && i < |states| && ch in states[i].buffers
    ensures j < k < i && steps[j] == Begin(c) && states[j].nextChan == ch
    ensures TakesOff(states[k], steps[k], states[k + 1], c, ch, states[i].buffers[ch])
  {
    k, c := OwedSince(states, steps, i, ch, states[i].buffers[ch]);
    j := ListedByItsCaller(states, steps, k, c, ch);
  }

  // ----- everyone listed when a refresh ends -----

  ghost predicate OffEveryList(s: State, ch: Chan) {
    ch in s.place && !s.place[ch].Listed?
  }

  lemma {:induction false} OffForGood(states: seq<State>, steps: seq<Step>, k: nat, i: nat, ch: Chan)
    requires Run(states, steps) && k <= i < |states| && OffEveryList(states[k], ch)
    ensures OffEveryList(states[i], ch)
  {
    if k < i {
      OffForGood(states, steps, k, i - 1, ch);
      EveryStateIsSound(states, steps, i - 1);
      assert StepAt(states, steps, i - 1);
      StepKeepsPlace(states[i - 1], steps[i - 1], ch);
    }
  }

  lemma TakenIsOff(s: State, e: Step, c: string, ch: Chan)
    requires Inv(s) && Enabled(s, e) && Waits(s, c, ch) && !Waits(Next(s, e), c, ch)
    ensures OffEveryList(Next(s, e), ch)
  {
    StepKeepsInv(s, e);
    assert At(s.place, ch, Listed(c));
    StepKeepsPlace(s, e, ch);
  }

  lemma ListedNotOff(s: State, c: string, ch: Chan)
    requires Inv(s) && Waits(s, c, ch)
    ensures At(s.place, ch, Listed(c)) && !OffEveryList(s, ch)
  {
  }

  lemma OffStays(states: seq<State>, steps: seq<Step>, k: nat, c: string, later: nat, ch: Chan)
    requires Run(states, steps) && k < later < |states|
    requires Waits(states[k], c, ch) && !Waits(states[k + 1], c, ch)
    ensures OffEveryList(states[later], ch)
  {
    EveryStateIsSound(states, steps, k);
    assert StepAt(states, steps, k);
    TakenIsOff(states[k], steps[k], c, ch);
    OffForGood(states, steps, k + 1, later, ch);
  }

  /** Off one list, no other list ever answers the channel: it is on a list once only. */
  lemma OffOnce(states: seq<State>, steps: seq<Step>, k: nat, c: string, later: nat, d: string, ch: Chan)
    requires Run(states, steps) && k < later < |states|
    requires Waits(states[k], c, ch) && !Waits(states[k + 1], c, ch)
    ensures !Waits(states[later], d, ch)
  {
    OffStays(states, steps, k, c, later, ch);
    EveryStateIsSound(states, steps, later);
    if Waits(states[later], d, ch) {
      ListedNotOff(states[later], d, ch);
    }
  }

  lemma FinishTakesOff(s: State, w: nat, response: Response, ch: Chan)
    requires w in s.processing
    ensures !Waits(DoFinish(s, w, response), s.processing[w].credential, ch)
  {
  }

  /** Everyone listed for the credential when its refresh ends gets what the refresh ended with, and nothing else, ever. */
  lemma FinishAnswersEveryone(states: seq<State>, steps: seq<Step>, k: nat, w: nat, response: Response, c: string, ch: Chan, i: nat)
    requires Run(states, steps) && k < i < |states| && steps[k] == Finish(w, response)
    requires w in states[k].processing && states[k].processing[w].credential == c && Waits(states[k], c, ch)
    ensures !Waits(states[i], c, ch)
    ensures ch in states[i].buffers ==> states[i].buffers[ch] == response
  {
    assert StepAt(states, steps, k);
    FinishTakesOff(states[k], w, response, ch);
    OffOnce(states, steps, k, c, i, c, ch);
    if ch in states[i].buffers {
      var d, _, taken := ResponseIsItsOwn(states, steps, i, ch);
      if taken < k {
        OffOnce(states, steps, taken, d, k, c, ch);
      } else if k < taken {
        OffOnce(states, steps, k, c, taken, d, ch);
      }
    }
  }
}
