/** The token manager's shared state, updated step by step (internal/auth/vertex.go). */
module TokenManager {
  import opened Collections
  import opened TokenRefresh

  class VertexTokenManager {
    /** Response channels waiting per credential. */
    var refreshing: map<string, seq<Chan>>
    /** The buffered request queue. */
    var refreshRequests: seq<Request>
    var phase: Phase
    /** Callers blocked on the request queue, and callers blocked on their response. */
    var sending: map<Chan, string>
    var waiting: map<Chan, string>
    /** Requests being refreshed, and responses being handed out. */
    var processing: map<nat, Request>
    var batches: map<Sender, Batch>
    /** Responses sitting in response channels. */
    var buffers: map<Chan, Response>
    var nextChan: nat
    var nextWorker: nat
    ghost var creator: map<string, Chan>
    ghost var place: map<Chan, Place>
    ghost var sends: map<Chan, nat>
    ghost var dropped: nat

    ghost function Snapshot(): State
      reads this
    {
      State(refreshing, refreshRequests, sending, waiting, processing, batches, buffers,
            nextChan, nextWorker, phase, creator, place, sends, dropped)
    }

    constructor ()
      ensures Snapshot() == INITIAL
    {
      refreshing, refreshRequests, sending, waiting := map[], [], map[], map[];
      processing, batches, buffers, nextChan, nextWorker := map[], map[], map[], 0, 0;
      phase := Phase(0, false, false, false);
      creator, place, sends, dropped := map[], map[], map[], 0;
    }

    /** The first test of GetToken. */
    method EnterGetToken() returns (ok: bool)
      modifies this`phase
      ensures ok <==> !old(phase).stopped
      ensures ok == Enabled(old(Snapshot()), Enter)
      ensures Snapshot() == if ok then Next(old(Snapshot()), Enter) else old(Snapshot())
    {
      if phase.stopped {
        return false;
      }
      phase := phase.(entered := phase.entered + 1);
      ok := true;
    }

    /** Joins the waiting list of a credential, creating it for the first caller. */
    method JoinRefresh(credential: string) returns (ch: Chan, isRefreshing: bool)
      requires phase.entered > 0
      modifies this`refreshing, this`sending, this`waiting, this`creator, this`place, this`nextChan, this`phase
      ensures Snapshot() == DoBegin(old(Snapshot()), credential)
      ensures ch == old(nextChan) && isRefreshing == (credential in old(refreshing))
      ensures refreshing == old(refreshing)[credential := if isRefreshing then old(refreshing)[credential] + [ch] else [ch]]
    {
      phase := phase.(entered := phase.entered - 1);
      isRefreshing := credential in refreshing;
      if !isRefreshing {
        ch := CreateList(credential);
      } else {
        ch := JoinList(credential);
      }
    }

    method CreateList(credential: string) returns (ch: Chan)
      modifies this`refreshing, this`sending, this`creator, this`place, this`nextChan
      ensures Snapshot() == DoCreate(old(Snapshot()), credential) && ch == old(nextChan)
    {
      ch := nextChan;
      nextChan := nextChan + 1;
      refreshing := refreshing[credential := [ch]];
      sending := sending[ch := credential];
      creator := creator[credential := ch];
      place := place[ch := Listed(credential)];
    }

    method JoinList(credential: string) returns (ch: Chan)
      requires credential in refreshing
      modifies this`refreshing, this`waiting, this`place, this`nextChan
      ensures Snapshot() == DoJoin(old(Snapshot()), credential) && ch == old(nextChan)
    {
      ch := nextChan;
      nextChan := nextChan + 1;
      refreshing := refreshing[credential := refreshing[credential] + [ch]];
      waiting := waiting[ch := credential];
      place := place[ch := Listed(credential)];
    }

    method SendRefreshRequest(ch: Chan)
      requires ch in sending && |refreshRequests| < QUEUE_CAPACITY
      modifies this`refreshRequests, this`waiting, this`sending
      ensures Snapshot() == DoSendRequest(old(Snapshot()), ch)
      ensures refreshRequests == old(refreshRequests) + [Request(old(sending)[ch], ch)]
    {
      refreshRequests := refreshRequests + [Request(sending[ch], ch)];
      waiting := waiting[ch := sending[ch]];
      sending := sending - {ch};
    }

    /** Takes a credential's waiting list out of the table for delivery, if there is one. */
    method TakeWaiters(credential: string, sender: Sender, response: Response)
      modifies this`refreshing, this`creator, this`batches, this`place
      ensures Snapshot() == TakeList(old(Snapshot()), credential, sender, response)
    {
      if credential in refreshing {
        var waitingChans := refreshing[credential];
        refreshing := refreshing - {credential};
        batches := batches[sender := Batch(waitingChans, response)];
        creator := creator - {credential};
        place := Moved(place, waitingChans, InBatch(sender));
      }
    }

    /** The first caller's timeout before its request was sent. */
    method CancelSending(ch: Chan)
      requires ch in sending
      modifies this`sending, this`refreshing, this`creator, this`batches, this`place
      ensures Snapshot() == DoGiveUpSending(old(Snapshot()), ch)
    {
      var credential := sending[ch];
      sending := sending - {ch};
      TakeWaiters(credential, Caller(ch), Error("initiator cancelled"));
    }

    method TakeRequest() returns (worker: nat)
      requires refreshRequests != [] && !phase.workerDone
      modifies this`refreshRequests, this`processing, this`nextWorker
      ensures Snapshot() == DoTake(old(Snapshot())) && worker == old(nextWorker)
      ensures processing == old(processing)[worker := old(refreshRequests)[0]] && refreshRequests == old(refreshRequests)[1..]
    {
      worker := nextWorker;
      processing := processing[worker := refreshRequests[0]];
      refreshRequests := refreshRequests[1..];
      nextWorker := nextWorker + 1;
    }

    /** Success, failure and recovered panic all end here. */
    method FinishRefresh(worker: nat, response: Response)
      requires worker in processing
      modifies this`processing, this`refreshing, this`creator, this`batches, this`place
      ensures Snapshot() == DoFinish(old(Snapshot()), worker, response)
      ensures var credential := old(processing)[worker].credential;
        && refreshing == old(refreshing) - {credential}
        && (credential in old(refreshing) ==> batches == old(batches)[Worker(worker) := Batch(old(refreshing)[credential], response)])
    {
      var credential := processing[worker].credential;
      processing := processing - {worker};
      TakeWaiters(credential, Worker(worker), response);
    }

    /** One iteration of a delivery loop: a send that never blocks. */
    method SendNext(sender: Sender) returns (delivered: bool)
      requires sender in batches && batches[sender].chans != []
      modifies this`batches, this`buffers, this`sends, this`place, this`dropped
      ensures Snapshot() == DoDeliver(old(Snapshot()), sender)
      ensures delivered == (old(batches[sender].chans[0]) !in old(buffers))
      ensures delivered ==> buffers == old(buffers)[old(batches[sender].chans[0]) := old(batches[sender].response)]
    {
      var batch := batches[sender];
      var ch := batch.chans[0];
      batches := if |batch.chans| == 1 then batches - {sender}
                 else batches[sender := Batch(batch.chans[1..], batch.response)];
      delivered := TrySend(ch, batch.response);
    }

    /** A non-blocking send into a channel with room for one response. */
    method TrySend(ch: Chan, response: Response) returns (delivered: bool)
      modifies this`buffers, this`sends, this`place, this`dropped
      ensures delivered == (ch !in old(buffers))
      ensures !delivered ==> buffers == old(buffers) && sends == old(sends) && place == old(place) && dropped == old(dropped) + 1
      ensures delivered ==>
        && buffers == old(buffers)[ch := response] && place == old(place)[ch := Sent] && dropped == old(dropped)
        && sends == old(sends)[ch := (if ch in old(sends) then old(sends)[ch] else 0) + 1]
    {
      delivered := ch !in buffers;
      if delivered {
        buffers := buffers[ch := response];
        sends := sends[ch := (if ch in sends then sends[ch] else 0) + 1];
        place := place[ch := Sent];
      } else {
        dropped := dropped + 1;
      }
    }

    method ReceiveResponse(ch: Chan) returns (response: Response)
      requires ch in waiting && ch in buffers
      modifies this`buffers, this`waiting
      ensures Snapshot() == DoReceive(old(Snapshot()), ch) && response == old(buffers[ch])
    {
      response := buffers[ch];
      buffers := buffers - {ch};
      waiting := waiting - {ch};
    }

    /** A waiter that timed out removes its channel, and the list when it was the last. */
    method RemoveWaitingChan(ch: Chan)
      requires ch in waiting && forall c :: c in refreshing ==> refreshing[c] != []
      modifies this`waiting, this`refreshing, this`creator, this`place
      ensures Snapshot() == DoGiveUpWaiting(old(Snapshot()), ch)
    {
      var credential := waiting[ch];
      waiting := waiting - {ch};
      if credential !in refreshing {
        return;
      }
      var waitingChans := refreshing[credential];
      var newChans := [];
      for i := 0 to |waitingChans|
        invariant newChans == Without(waitingChans[..i], ch)
      {
        assert waitingChans[..i + 1][..i] == waitingChans[..i];
        if waitingChans[i] != ch {
          newChans := newChans + [waitingChans[i]];
        }
      }
      assert waitingChans[..|waitingChans|] == waitingChans;
      if ch in waitingChans {
        place := place[ch := Removed];
      } else {
        WithoutAbsent(waitingChans, ch);
        assert refreshing[credential := newChans] == refreshing;
      }
      if newChans == [] {
        refreshing := refreshing - {credential};
        creator := creator - {credential};
      } else {
        refreshing := refreshing[credential := newChans];
      }
    }

    /** Raises the flag and closes the stop channel. */
    method Stop()
      requires !phase.stopped
      modifies this`phase
      ensures Snapshot() == Next(old(Snapshot()), TokenRefresh.Stop)
    {
      phase := phase.(stopped := true);
    }

    /** Fails everyone still listed. */
    method FailAllWaiters()
      requires phase.stopped && !phase.failedAll
      modifies this`phase, this`refreshing, this`creator, this`batches, this`place
      ensures Snapshot() == DoFailAll(old(Snapshot()))
    {
      var failures := ErrorBatches(refreshing);
      HandOver(failures);
    }

    /** Empties the table into the deliveries. */
    method HandOver(failures: map<Sender, Batch>)
      modifies this`phase, this`refreshing, this`creator, this`batches, this`place
      ensures batches == old(batches) + failures && place == StopPlaces(old(place))
      ensures refreshing == map[] && creator == map[] && phase == old(phase).(failedAll := true)
    {
      phase := phase.(failedAll := true);
      batches := batches + failures;
      place := StopPlaces(place);
      refreshing := map[];
      creator := map[];
    }

    /** The worker's loop ends on the closed stop channel, whatever is still queued. */
    method ExitWorker()
      requires phase.stopped && !phase.workerDone
      modifies this`phase
      ensures Snapshot() == Next(old(Snapshot()), WorkerExit)
    {
      phase := phase.(workerDone := true);
    }
  }

  /** An error response for every waiting list. */
  method ErrorBatches(table: map<string, seq<Chan>>) returns (failures: map<Sender, Batch>)
    ensures failures == StopBatches(table)
  {
    failures := map[];
    var pending := table.Keys;
    while pending != {}
      invariant pending <= table.Keys
      invariant forall k :: k in failures <==> k.Stopper? && k.credential in table && k.credential !in pending
      invariant forall k :: k in failures ==> failures[k] == Batch(table[k.credential], Error("stopped"))
      decreases pending
    {
      var c :| c in pending;
      pending := pending - {c};
      failures := failures[Stopper(c) := Batch(table[c], Error("stopped"))];
    }
  }

  /** In a sound state the next channel to serve is always empty. */
  lemma FirstIsUnsent(s: State, k: Sender)
    requires Inv(s) && Enabled(s, Deliver(k))
    ensures s.batches[k].chans[0] !in s.buffers
  {
    var ch := s.batches[k].chans[0];
    assert ch in s.batches[k].chans && At(s.place, ch, InBatch(k));
  }
}
