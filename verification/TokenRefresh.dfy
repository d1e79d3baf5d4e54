/**
 The coalescing token-refresh protocol (internal/auth/vertex.go) as a state machine over its atomic steps:
 one step per critical section, channel operation or timeout of any goroutine.
 */
module TokenRefresh {
  import opened Collections

  const QUEUE_CAPACITY := 100

  /** A waiter's response channel, which has room for one response. */
  type Chan = nat

  datatype Response = Token(token: string) | Error(reason: string)

  /** A refresh request and the channel of the caller that created it. */
  datatype Request = Request(credential: string, owner: Chan)

  /** Who is delivering a response: a finished refresh, a caller that gave up sending, or Stop. */
  datatype Sender = Worker(id: nat) | Caller(chan: Chan) | Stopper(credential: string)

  /** The channels a sender has still to serve. */
  datatype Batch = Batch(chans: seq<Chan>, response: Response)

  /** Where a channel currently is. */
  datatype Place = Listed(credential: string) | InBatch(sender: Sender) | Sent | Removed

  /** Callers past the first test of GetToken, and how far Stop has got: its flag, its failing of everyone listed,
      and the worker noticing the closed stop channel. */
  datatype Phase = Phase(entered: nat, stopped: bool, failedAll: bool, workerDone: bool) {
    predicate Valid() {
      failedAll || workerDone ==> stopped
    }
  }

  datatype State = State(
    refreshing: map<string, seq<Chan>>,
    queue: seq<Request>,
    sending: map<Chan, string>,
    waiting: map<Chan, string>,
    processing: map<nat, Request>,
    batches: map<Sender, Batch>,
    buffers: map<Chan, Response>,
    nextChan: nat,
    nextWorker: nat,
    phase: Phase,
    creator: map<string, Chan>,
    place: map<Chan, Place>,
    sends: map<Chan, nat>,
    dropped: nat)

  const INITIAL := State(map[], [], map[], map[], map[], map[], map[], 0, 0, Phase(0, false, false, false), map[], map[], map[], 0)

  datatype Step =
    | Enter
    | Begin(credential: string)
    | SendRequest(chan: Chan)
    | GiveUpSending(chan: Chan)
    | Take
    | Finish(worker: nat, response: Response)
    | Deliver(sender: Sender)
    | GiveUpWaiting(chan: Chan)
    | Receive(chan: Chan)
    | Stop
    | FailAll
    | WorkerExit

  predicate Enabled(s: State, e: Step) {
    match e
    case Enter => !s.phase.stopped
    case Begin(_) => s.phase.entered > 0
    case SendRequest(ch) => ch in s.sending && |s.queue| < QUEUE_CAPACITY
    case GiveUpSending(ch) => ch in s.sending
    case Take => s.queue != [] && !s.phase.workerDone
    case Finish(w, _) => w in s.processing
    case Deliver(sender) => sender in s.batches && s.batches[sender].chans != []
    case GiveUpWaiting(ch) => ch in s.waiting
    case Receive(ch) => ch in s.waiting && ch in s.buffers
    case Stop => !s.phase.stopped
    case FailAll => s.phase.stopped && !s.phase.failedAll
    case WorkerExit => s.phase.stopped && !s.phase.workerDone
  }

  ghost function Moved(place: map<Chan, Place>, chans: seq<Chan>, target: Place): map<Chan, Place> {
    map ch | ch in place.Keys + (set c | c in chans) :: if ch in chans then target else place[ch]
  }

  /** Empties a credential's waiting list into a batch, when there is one. */
  ghost function TakeList(s: State, credential: string, sender: Sender, response: Response): State {
    if credential !in s.refreshing then s
    else
      s.(refreshing := s.refreshing - {credential},
         creator := s.creator - {credential},
         batches := s.batches[sender := Batch(s.refreshing[credential], response)],
         place := Moved(s.place, s.refreshing[credential], InBatch(sender)))
  }

  /** GetToken's critical section: create the waiting list, or join it. The caller found the manager running
      some time before. */
  ghost function DoBegin(s: State, c: string): State
    requires s.phase.entered > 0
  {
    var t := s.(phase := s.phase.(entered := s.phase.entered - 1));
    if c !in s.refreshing then DoCreate(t, c) else DoJoin(t, c)
  }

  ghost function DoCreate(s: State, c: string): State {
    var ch := s.nextChan;
    s.(refreshing := s.refreshing[c := [ch]], creator := s.creator[c := ch], sending := s.sending[ch := c],
       place := s.place[ch := Listed(c)], nextChan := ch + 1)
  }

  ghost function DoJoin(s: State, c: string): State
    requires c in s.refreshing
  {
    var ch := s.nextChan;
    s.(refreshing := s.refreshing[c := s.refreshing[c] + [ch]], waiting := s.waiting[ch := c],
       place := s.place[ch := Listed(c)], nextChan := ch + 1)
  }

  ghost function DoSendRequest(s: State, ch: Chan): State
    requires ch in s.sending
  {
    s.(queue := s.queue + [Request(s.sending[ch], ch)],
       waiting := s.waiting[ch := s.sending[ch]], sending := s.sending - {ch})
  }

  /** The creator timed out before its request was sent: it fails everyone listed. */
  ghost function DoGiveUpSending(s: State, ch: Chan): State
    requires ch in s.sending
  {
    TakeList(s.(sending := s.sending - {ch}), s.sending[ch], Caller(ch), Error("initiator cancelled"))
  }

  ghost function DoTake(s: State): State
    requires s.queue != []
  {
    s.(queue := s.queue[1..], processing := s.processing[s.nextWorker := s.queue[0]], nextWorker := s.nextWorker + 1)
  }

  /** A refresh ends, by success, error or panic: everyone listed by now gets its response. */
  ghost function DoFinish(s: State, w: nat, response: Response): State
    requires w in s.processing
  {
    TakeList(s.(processing := s.processing - {w}), s.processing[w].credential, Worker(w), response)
  }

  /** One non-blocking send: a full channel drops the response. */
  ghost function DoDeliver(s: State, sender: Sender): State
    requires sender in s.batches && s.batches[sender].chans != []
  {
    var batch := s.batches[sender];
    var ch := batch.chans[0];
    var rest := s.(batches := if |batch.chans| == 1 then s.batches - {sender}
                              else s.batches[sender := Batch(batch.chans[1..], batch.response)]);
    if ch in s.buffers then rest.(dropped := s.dropped + 1)
    else rest.(buffers := s.buffers[ch := batch.response],
               sends := s.sends[ch := (if ch in s.sends then s.sends[ch] else 0) + 1],
               place := s.place[ch := Sent])
  }

  /** A waiter times out and takes itself off the list, if it is still on one. */
  ghost function DoGiveUpWaiting(s: State, ch: Chan): State
    requires ch in s.waiting
  {
    var c := s.waiting[ch];
    var left := s.(waiting := s.waiting - {ch});
    if c !in s.refreshing || ch !in s.refreshing[c] then left
    else
      var others := Without(s.refreshing[c], ch);
      left.(refreshing := if others == [] then s.refreshing - {c} else s.refreshing[c := others],
            creator := if others == [] then s.creator - {c} else s.creator,
            place := s.place[ch := Removed])
  }

  ghost function DoReceive(s: State, ch: Chan): State {
    s.(waiting := s.waiting - {ch}, buffers := s.buffers - {ch})
  }

  /** Every list becomes a batch of errors. Stop raises its flag and closes the stop channel before, and the worker
      notices the closed channel whenever it does: those are steps of their own. */
  ghost function DoFailAll(s: State): State {
    s.(phase := s.phase.(failedAll := true), refreshing := map[], creator := map[],
       batches := s.batches + StopBatches(s.refreshing),
       place := StopPlaces(s.place))
  }

  ghost function StopBatches(lists: map<string, seq<Chan>>): map<Sender, Batch> {
    map c | c in lists :: Stopper(c) := Batch(lists[c], Error("stopped"))
  }

  ghost function StopPlaces(place: map<Chan, Place>): map<Chan, Place> {
    map ch | ch in place :: if place[ch].Listed? then InBatch(Stopper(place[ch].credential)) else place[ch]
  }

  ghost function Next(s: State, e: Step): State
    requires Enabled(s, e)
  {
    match e
    case Enter => s.(phase := s.phase.(entered := s.phase.entered + 1))
    case Begin(c) => DoBegin(s, c)
    case SendRequest(ch) => DoSendRequest(s, ch)
    case GiveUpSending(ch) => DoGiveUpSending(s, ch)
    case Take => DoTake(s)
    case Finish(w, response) => DoFinish(s, w, response)
    case Deliver(sender) => DoDeliver(s, sender)
    case GiveUpWaiting(ch) => DoGiveUpWaiting(s, ch)
    case Receive(ch) => DoReceive(s, ch)
    case Stop => s.(phase := s.phase.(stopped := true))
    case FailAll => DoFailAll(s)
    case WorkerExit => s.(phase := s.phase.(workerDone := true))
  }

  // ----- the invariant -----

  ghost predicate At(place: map<Chan, Place>, ch: Chan, p: Place) {
    ch in place && place[ch] == p
  }

  /** Waiting lists hold exactly the channels placed in them, each once. */
  ghost predicate ListsPlaced(lists: map<string, seq<Chan>>, place: map<Chan, Place>) {
    && (forall c :: c in lists ==> lists[c] != [] && Distinct(lists[c]))
    && (forall c, ch :: c in lists && ch in lists[c] ==> At(place, ch, Listed(c)))
    && (forall ch :: ch in place && place[ch].Listed? ==>
          place[ch].credential in lists && ch in lists[place[ch].credential])
  }

  /** So do the batches being delivered. */
  ghost predicate BatchesPlaced(batches: map<Sender, Batch>, place: map<Chan, Place>) {
    && (forall k :: k in batches ==> batches[k].chans != [] && Distinct(batches[k].chans))
    && (forall k, ch :: k in batches && ch in batches[k].chans ==> At(place, ch, InBatch(k)))
    && (forall ch :: ch in place && place[ch].InBatch? ==>
          place[ch].sender in batches && ch in batches[place[ch].sender].chans)
  }

  /** Nothing has been sent twice and nothing has been dropped. */
  ghost predicate SentOnce(sends: map<Chan, nat>, buffers: map<Chan, Response>, dropped: nat, place: map<Chan, Place>) {
    && dropped == 0
    && (forall ch :: ch in sends ==> sends[ch] == 1 && At(place, ch, Sent))
    && (forall ch :: ch in buffers ==> ch in sends)
  }

  /** Channel and worker numbers are used once. */
  ghost predicate ChansNumbered(place: map<Chan, Place>, sending: map<Chan, string>, batches: map<Sender, Batch>, nextChan: nat) {
    && (forall ch :: ch in place ==> ch < nextChan)
    && (forall ch :: ch in sending ==> ch < nextChan && Caller(ch) !in batches)
    && (forall ch: nat :: Caller(ch) in batches ==> ch < nextChan)
  }

  ghost predicate WorkersNumbered(processing: map<nat, Request>, batches: map<Sender, Batch>, nextWorker: nat, failedAll: bool) {
    && (forall w :: w in processing ==> w < nextWorker && Worker(w) !in batches)
    && (forall w: nat :: Worker(w) in batches ==> w < nextWorker)
    && (forall c :: Stopper(c) in batches ==> failedAll)
  }

  /** The request that created a credential's waiting list is still being sent, queued or processed. */
  ghost predicate Pending(r: Request, sending: map<Chan, string>, queue: seq<Request>, processing: map<nat, Request>) {
    || (r.owner in sending && sending[r.owner] == r.credential)
    || r in queue
    || exists w :: w in processing && processing[w] == r
  }

  ghost predicate Served(creator: map<string, Chan>, sending: map<Chan, string>, queue: seq<Request>, processing: map<nat, Request>) {
    forall c :: c in creator ==> Pending(Request(c, creator[c]), sending, queue, processing)
  }

  ghost predicate Inv(s: State) {
    && ListsPlaced(s.refreshing, s.place)
    && BatchesPlaced(s.batches, s.place)
    && SentOnce(s.sends, s.buffers, s.dropped, s.place)
    && ChansNumbered(s.place, s.sending, s.batches, s.nextChan)
    && WorkersNumbered(s.processing, s.batches, s.nextWorker, s.phase.failedAll)
    && s.creator.Keys == s.refreshing.Keys
    && Served(s.creator, s.sending, s.queue, s.processing)
    && s.phase.Valid()
  }

  lemma AddToList(lists: map<string, seq<Chan>>, place: map<Chan, Place>, c: string, ch: Chan)
    requires ListsPlaced(lists, place) && ch !in place
    ensures ListsPlaced(lists[c := (if c in lists then lists[c] else []) + [ch]], place[ch := Listed(c)])
  {
    if c in lists {
      assert ch !in lists[c];
    }
  }

  lemma AddOutsideBatches(batches: map<Sender, Batch>, place: map<Chan, Place>, c: string, ch: Chan)
    requires BatchesPlaced(batches, place) && ch !in place
    ensures BatchesPlaced(batches, place[ch := Listed(c)])
  {
  }

  lemma DropList(lists: map<string, seq<Chan>>, place: map<Chan, Place>, c: string, k: Sender)
    requires ListsPlaced(lists, place) && c in lists
    ensures ListsPlaced(lists - {c}, Moved(place, lists[c], InBatch(k)))
  {
    var place' := Moved(place, lists[c], InBatch(k));
    forall d, ch | d in lists - {c} && ch in lists[d] ensures At(place', ch, Listed(d)) {
      assert At(place, ch, Listed(d));
    }
  }

  lemma ListBecomesBatch(lists: map<string, seq<Chan>>, batches: map<Sender, Batch>, place: map<Chan, Place>,
                         c: string, k: Sender, response: Response)
    requires ListsPlaced(lists, place) && BatchesPlaced(batches, place) && c in lists && k !in batches
    ensures BatchesPlaced(batches[k := Batch(lists[c], response)], Moved(place, lists[c], InBatch(k)))
  {
    var place' := Moved(place, lists[c], InBatch(k));
    var batches' := batches[k := Batch(lists[c], response)];
    forall j, ch | j in batches' && ch in batches'[j].chans ensures At(place', ch, InBatch(j)) {
      if j != k {
        assert At(place, ch, InBatch(j));
        assert ch in lists[c] ==> At(place, ch, Listed(c));
      }
    }
  }

  lemma SentStaysOutOfLists(lists: map<string, seq<Chan>>, place: map<Chan, Place>, sends: map<Chan, nat>,
                            buffers: map<Chan, Response>, dropped: nat, c: string, k: Sender)
    requires ListsPlaced(lists, place) && SentOnce(sends, buffers, dropped, place) && c in lists
    ensures SentOnce(sends, buffers, dropped, Moved(place, lists[c], InBatch(k)))
  {
    forall ch | ch in sends ensures ch !in lists[c] {
      assert At(place, ch, Sent);
      assert ch in lists[c] ==> At(place, ch, Listed(c));
    }
  }

  lemma MovedChansNumbered(lists: map<string, seq<Chan>>, place: map<Chan, Place>, sending: map<Chan, string>,
                           batches: map<Sender, Batch>, nextChan: nat, c: string, k: Sender, response: Response)
    requires ListsPlaced(lists, place) && c in lists && ChansNumbered(place, sending, batches, nextChan)
    requires k.Caller? ==> k.chan < nextChan && k.chan !in sending
    ensures ChansNumbered(Moved(place, lists[c], InBatch(k)), sending, batches[k := Batch(lists[c], response)], nextChan)
  {
    forall ch | ch in lists[c] ensures ch < nextChan {
      assert At(place, ch, Listed(c));
    }
  }

  lemma TakeListKeepsInv(s: State, c: string, k: Sender, response: Response)
    requires ListsPlaced(s.refreshing, s.place) && BatchesPlaced(s.batches, s.place) && k !in s.batches
    requires SentOnce(s.sends, s.buffers, s.dropped, s.place)
    requires ChansNumbered(s.place, s.sending, s.batches, s.nextChan)
    requires WorkersNumbered(s.processing, s.batches, s.nextWorker, s.phase.failedAll)
    requires s.creator.Keys == s.refreshing.Keys
    requires Served(s.creator - {c}, s.sending, s.queue, s.processing)
    requires k.Caller? ==> k.chan < s.nextChan && k.chan !in s.sending
    requires k.Worker? ==> k.id < s.nextWorker && k.id !in s.processing
    requires !k.Stopper? && s.phase.Valid()
    ensures Inv(TakeList(s, c, k, response))
  {
    if c in s.refreshing {
      DropList(s.refreshing, s.place, c, k);
      ListBecomesBatch(s.refreshing, s.batches, s.place, c, k, response);
      SentStaysOutOfLists(s.refreshing, s.place, s.sends, s.buffers, s.dropped, c, k);
      MovedChansNumbered(s.refreshing, s.place, s.sending, s.batches, s.nextChan, c, k, response);
    } else {
      assert s.creator - {c} == s.creator;
    }
  }

  /** Requests disappear only by finishing, so creators stay served across steps that only add. */
  lemma ServedGrows(creator: map<string, Chan>, sending: map<Chan, string>, queue: seq<Request>, processing: map<nat, Request>,
                    sending': map<Chan, string>, queue': seq<Request>, processing': map<nat, Request>)
    requires Served(creator, sending, queue, processing)
    requires forall ch :: ch in sending ==> (ch in sending' && sending'[ch] == sending[ch]) || Request(sending[ch], ch) in queue'
    requires forall r :: r in queue ==> r in queue' || exists w :: w in processing' && processing'[w] == r
    requires forall w :: w in processing ==> w in processing' && processing'[w] == processing[w]
    ensures Served(creator, sending', queue', processing')
  {
    forall c | c in creator ensures Pending(Request(c, creator[c]), sending', queue', processing') {
      var r := Request(c, creator[c]);
      assert Pending(r, sending, queue, processing);
      if w :| w in processing && processing[w] == r {
        assert processing'[w] == r;
      }
    }
  }

  lemma FreshChanSends(sends: map<Chan, nat>, buffers: map<Chan, Response>, dropped: nat, place: map<Chan, Place>, ch: Chan, p: Place)
    requires SentOnce(sends, buffers, dropped, place) && ch !in place
    ensures SentOnce(sends, buffers, dropped, place[ch := p])
  {
  }

  lemma FreshChanNumbers(place: map<Chan, Place>, sending: map<Chan, string>, batches: map<Sender, Batch>, ch: nat, c: string, p: Place)
    requires ChansNumbered(place, sending, batches, ch)
    ensures ChansNumbered(place[ch := p], sending[ch := c], batches, ch + 1)
    ensures ChansNumbered(place[ch := p], sending, batches, ch + 1)
  {
  }

  lemma FreshCreatorServed(creator: map<string, Chan>, sending: map<Chan, string>, queue: seq<Request>,
                           processing: map<nat, Request>, c: string, ch: Chan)
    requires Served(creator, sending, queue, processing) && ch !in sending
    ensures Served(creator[c := ch], sending[ch := c], queue, processing)
  {
    forall d | d in creator && d != c ensures Pending(Request(d, creator[d]), sending[ch := c], queue, processing) {
      assert Pending(Request(d, creator[d]), sending, queue, processing);
    }
  }

  lemma CreateKeepsInv(s: State, c: string)
    requires Inv(s) && c !in s.refreshing
    ensures Inv(DoCreate(s, c))
  {
    var ch := s.nextChan;
    assert ch !in s.place && ch !in s.sending;
    AddToList(s.refreshing, s.place, c, ch);
    AddOutsideBatches(s.batches, s.place, c, ch);
    assert [] + [ch] == [ch];
    FreshChanSends(s.sends, s.buffers, s.dropped, s.place, ch, Listed(c));
    FreshChanNumbers(s.place, s.sending, s.batches, ch, c, Listed(c));
    FreshCreatorServed(s.creator, s.sending, s.queue, s.processing, c, ch);
  }

  lemma JoinKeepsInv(s: State, c: string)
    requires Inv(s) && c in s.refreshing
    ensures Inv(DoJoin(s, c))
  {
    var ch := s.nextChan;
    assert ch !in s.place;
    AddToList(s.refreshing, s.place, c, ch);
    AddOutsideBatches(s.batches, s.place, c, ch);
    FreshChanSends(s.sends, s.buffers, s.dropped, s.place, ch, Listed(c));
    FreshChanNumbers(s.place, s.sending, s.batches, ch, c, Listed(c));
    assert s.refreshing.Keys + {c} == s.refreshing.Keys;
  }

  lemma LeavingKeepsInv(s: State)
    requires Inv(s) && s.phase.entered > 0
    ensures Inv(s.(phase := s.phase.(entered := s.phase.entered - 1)))
  {
  }

  lemma BeginKeepsInv(s: State, c: string)
    requires Inv(s) && Enabled(s, Begin(c))
    ensures Inv(DoBegin(s, c))
  {
    var t := s.(phase := s.phase.(entered := s.phase.entered - 1));
    LeavingKeepsInv(s);
    if c in s.refreshing {
      JoinKeepsInv(t, c);
      assert DoBegin(s, c) == DoJoin(t, c);
    } else {
      CreateKeepsInv(t, c);
      assert DoBegin(s, c) == DoCreate(t, c);
    }
  }

  lemma SendRequestKeepsInv(s: State, ch: Chan)
    requires Inv(s) && Enabled(s, SendRequest(ch))
    ensures Inv(DoSendRequest(s, ch))
  {
    var s' := DoSendRequest(s, ch);
    assert s'.queue[|s.queue|] == Request(s.sending[ch], ch);
    assert forall r :: r in s.queue ==> r in s'.queue;
    ServedGrows(s.creator, s.sending, s.queue, s.processing, s'.sending, s'.queue, s'.processing);
  }

  /** Once one request is gone, every other credential is still served. */
  lemma ServedWithout(creator: map<string, Chan>, sending: map<Chan, string>, queue: seq<Request>, processing: map<nat, Request>,
                      sending': map<Chan, string>, processing': map<nat, Request>, c: string)
    requires Served(creator, sending, queue, processing)
    requires forall ch :: ch in sending ==> sending[ch] == c || (ch in sending' && sending'[ch] == sending[ch])
    requires forall w :: w in processing ==> processing[w].credential == c || (w in processing' && processing'[w] == processing[w])
    ensures Served(creator - {c}, sending', queue, processing')
  {
    forall d | d in creator && d != c ensures Pending(Request(d, creator[d]), sending', queue, processing') {
      var r := Request(d, creator[d]);
      assert Pending(r, sending, queue, processing);
      if w :| w in processing && processing[w] == r {
        assert processing'[w] == r;
      }
    }
  }

  lemma GiveUpSendingKeepsInv(s: State, ch: Chan)
    requires Inv(s) && Enabled(s, GiveUpSending(ch))
    ensures Inv(DoGiveUpSending(s, ch))
  {
    var left := s.(sending := s.sending - {ch});
    ServedWithout(s.creator, s.sending, s.queue, s.processing, left.sending, s.processing, s.sending[ch]);
    TakeListKeepsInv(left, s.sending[ch], Caller(ch), Error("initiator cancelled"));
  }

  lemma TakeKeepsInv(s: State)
    requires Inv(s) && Enabled(s, Take)
    ensures Inv(DoTake(s))
  {
    var s' := DoTake(s);
    assert s.queue == [s.queue[0]] + s'.queue;
    assert s'.processing[s.nextWorker] == s.queue[0];
    ServedGrows(s.creator, s.sending, s.queue, s.processing, s'.sending, s'.queue, s'.processing);
  }

  lemma FinishKeepsInv(s: State, w: nat, response: Response)
    requires Inv(s) && Enabled(s, Finish(w, response))
    ensures Inv(DoFinish(s, w, response))
  {
    var left := s.(processing := s.processing - {w});
    ServedWithout(s.creator, s.sending, s.queue, s.processing, s.sending, left.processing, s.processing[w].credential);
    TakeListKeepsInv(left, s.processing[w].credential, Worker(w), response);
  }

  lemma FirstOfBatchSent(batches: map<Sender, Batch>, place: map<Chan, Place>, k: Sender)
    requires BatchesPlaced(batches, place) && k in batches
    ensures var batch := batches[k];
      BatchesPlaced(if |batch.chans| == 1 then batches - {k} else batches[k := Batch(batch.chans[1..], batch.response)],
                    place[batch.chans[0] := Sent])
  {
    var chans := batches[k].chans;
    assert chans[0] in chans;
    assert forall c :: c in chans[1..] <==> c in chans && c != chans[0];
    forall j, ch | j in batches && j != k && ch in batches[j].chans ensures ch != chans[0] {
      assert At(place, ch, InBatch(j));
    }
  }

  lemma ListsIgnoreBatchChange(lists: map<string, seq<Chan>>, place: map<Chan, Place>, ch: Chan, p: Place)
    requires ListsPlaced(lists, place) && ch in place && !place[ch].Listed? && !p.Listed?
    ensures ListsPlaced(lists, place[ch := p])
  {
    assert forall c :: c in lists && ch in lists[c] ==> At(place, ch, Listed(c));
  }

  lemma DeliverKeepsInv(s: State, k: Sender)
    requires Inv(s) && Enabled(s, Deliver(k))
    ensures Inv(DoDeliver(s, k))
    ensures At(DoDeliver(s, k).place, s.batches[k].chans[0], Sent)
  {
    var ch := s.batches[k].chans[0];
    assert ch in s.batches[k].chans && At(s.place, ch, InBatch(k));
    assert ch !in s.sends;
    FirstOfBatchSent(s.batches, s.place, k);
    ListsIgnoreBatchChange(s.refreshing, s.place, ch, Sent);
  }

  lemma FirstIsSent(s: State, k: Sender)
    requires Inv(s) && k in s.batches && s.batches[k].chans != []
    ensures DoDeliver(s, k).place == s.place[s.batches[k].chans[0] := Sent]
    ensures DoDeliver(s, k).refreshing == s.refreshing
    ensures DoDeliver(s, k).processing == s.processing && DoDeliver(s, k).sending == s.sending
    ensures DoDeliver(s, k).phase == s.phase
  {
    var ch := s.batches[k].chans[0];
    assert ch in s.batches[k].chans && At(s.place, ch, InBatch(k));
    assert ch !in s.buffers;
  }

  lemma RemoveFromList(lists: map<string, seq<Chan>>, place: map<Chan, Place>, c: string, ch: Chan)
    requires ListsPlaced(lists, place) && c in lists && ch in lists[c]
    ensures var others := Without(lists[c], ch);
      ListsPlaced(if others == [] then lists - {c} else lists[c := others], place[ch := Removed])
  {
    WithoutDistinct(lists[c], ch);
    assert At(place, ch, Listed(c));
    forall d | d in place && place[d] == Listed(c) && d != ch ensures d in Without(lists[c], ch) {
    }
  }

  lemma BatchesIgnoreListChange(batches: map<Sender, Batch>, place: map<Chan, Place>, ch: Chan, p: Place)
    requires BatchesPlaced(batches, place) && ch in place && !place[ch].InBatch? && !p.InBatch?
    ensures BatchesPlaced(batches, place[ch := p])
  {
    assert forall k :: k in batches && ch in batches[k].chans ==> At(place, ch, InBatch(k));
  }

  lemma GiveUpWaitingKeepsInv(s: State, ch: Chan)
    requires Inv(s) && Enabled(s, GiveUpWaiting(ch))
    ensures Inv(DoGiveUpWaiting(s, ch))
  {
    var c := s.waiting[ch];
    if c in s.refreshing && ch in s.refreshing[c] {
      LeaveListKeepsInv(s, c, ch);
    }
  }

  lemma LeaveListKeepsInv(s: State, c: string, ch: Chan)
    requires Inv(s) && ch in s.waiting && c == s.waiting[ch] && c in s.refreshing && ch in s.refreshing[c]
    ensures Inv(DoGiveUpWaiting(s, ch))
  {
    assert At(s.place, ch, Listed(c));
    RemoveFromList(s.refreshing, s.place, c, ch);
    BatchesIgnoreListChange(s.batches, s.place, ch, Removed);
    CountsIgnoreListChange(s, ch);
    CreatorsOfLists(s, c, Without(s.refreshing[c], ch));
  }

  /** An emptied list takes its creator along; a shortened one keeps it. */
  lemma CreatorsOfLists(s: State, c: string, others: seq<Chan>)
    requires s.creator.Keys == s.refreshing.Keys && c in s.refreshing
    requires Served(s.creator, s.sending, s.queue, s.processing)
    ensures (s.creator - {c}).Keys == (s.refreshing - {c}).Keys
    ensures s.creator.Keys == s.refreshing[c := others].Keys
    ensures Served(s.creator - {c}, s.sending, s.queue, s.processing)
  {
  }

  lemma CountsIgnoreListChange(s: State, ch: Chan)
    requires SentOnce(s.sends, s.buffers, s.dropped, s.place)
    requires ChansNumbered(s.place, s.sending, s.batches, s.nextChan)
    requires ch in s.place && s.place[ch].Listed?
    ensures SentOnce(s.sends, s.buffers, s.dropped, s.place[ch := Removed])
    ensures ChansNumbered(s.place[ch := Removed], s.sending, s.batches, s.nextChan)
  {
  }

  lemma ReceiveKeepsInv(s: State, ch: Chan)
    requires Inv(s) && Enabled(s, Receive(ch))
    ensures Inv(DoReceive(s, ch))
  {
  }

  lemma FailingEmptiesLists(place: map<Chan, Place>)
    ensures ListsPlaced(map[], StopPlaces(place))
  {
  }

  lemma FailingKeepsBatches(lists: map<string, seq<Chan>>, batches: map<Sender, Batch>, place: map<Chan, Place>)
    requires ListsPlaced(lists, place) && BatchesPlaced(batches, place)
    requires forall c :: Stopper(c) !in batches
    ensures BatchesPlaced(batches + StopBatches(lists), StopPlaces(place))
  {
    var batches', place' := batches + StopBatches(lists), StopPlaces(place);
    forall k, ch | k in batches' && ch in batches'[k].chans ensures At(place', ch, InBatch(k)) {
      if k in batches {
        assert At(place, ch, InBatch(k));
      } else {
        assert At(place, ch, Listed(k.credential));
      }
    }
    forall ch | ch in place' && place'[ch].InBatch?
      ensures place'[ch].sender in batches' && ch in batches'[place'[ch].sender].chans
    {
      if place[ch].Listed? {
        assert batches'[Stopper(place[ch].credential)].chans == lists[place[ch].credential];
      } else {
        assert !place[ch].sender.Stopper?;
      }
    }
  }

  lemma FailingKeepsSent(s: State)
    requires SentOnce(s.sends, s.buffers, s.dropped, s.place)
    ensures SentOnce(s.sends, s.buffers, s.dropped, StopPlaces(s.place))
  {
    assert forall ch :: At(s.place, ch, Sent) ==> At(StopPlaces(s.place), ch, Sent);
  }

  lemma FailingKeepsNumbers(s: State)
    requires ChansNumbered(s.place, s.sending, s.batches, s.nextChan)
    ensures ChansNumbered(StopPlaces(s.place), s.sending, s.batches + StopBatches(s.refreshing), s.nextChan)
  {
  }

  lemma FailAllKeepsInv(s: State)
    requires Inv(s) && Enabled(s, FailAll)
    ensures Inv(DoFailAll(s))
  {
    FailingEmptiesLists(s.place);
    FailingKeepsBatches(s.refreshing, s.batches, s.place);
    FailingKeepsSent(s);
    FailingKeepsNumbers(s);
  }

  lemma StepKeepsInv(s: State, e: Step)
    requires Inv(s) && Enabled(s, e)
    ensures Inv(Next(s, e))
  {
    match e
    case Enter =>
    case Begin(c) => BeginKeepsInv(s, c);
    case SendRequest(ch) => SendRequestKeepsInv(s, ch);
    case GiveUpSending(ch) => GiveUpSendingKeepsInv(s, ch);
    case Take => TakeKeepsInv(s);
    case Finish(w, response) => FinishKeepsInv(s, w, response);
    case Deliver(k) => DeliverKeepsInv(s, k);
    case GiveUpWaiting(ch) => GiveUpWaitingKeepsInv(s, ch);
    case Receive(ch) => ReceiveKeepsInv(s, ch);
    case Stop =>
    case FailAll => FailAllKeepsInv(s);
    case WorkerExit =>
  }

  // ----- every interleaving -----

  ghost predicate Run(states: seq<State>, steps: seq<Step>) {
    && |states| == |steps| + 1
    && states[0] == INITIAL
    && forall i :: 0 <= i < |steps| ==> StepAt(states, steps, i)
  }

  ghost predicate StepAt(states: seq<State>, steps: seq<Step>, i: nat)
    requires i < |steps| < |states|
  {
    && Enabled(states[i], steps[i])
    && states[i + 1] == Next(states[i], steps[i])
  }

  lemma {:induction false} EveryStateIsSound(states: seq<State>, steps: seq<Step>, i: nat)
    requires Run(states, steps) && i < |states|
    ensures Inv(states[i])
  {
    if i > 0 {
      EveryStateIsSound(states, steps, i - 1);
      assert StepAt(states, steps, i - 1);
      StepKeepsInv(states[i - 1], steps[i - 1]);
    }
  }

  /** In every interleaving each channel is sent to at most once, so no send is ever dropped. */
  lemma AtMostOneResponse(states: seq<State>, steps: seq<Step>, i: nat, ch: Chan)
    requires Run(states, steps) && i < |states|
    ensures states[i].dropped == 0
    ensures ch in states[i].sends ==> states[i].sends[ch] == 1
  {
    EveryStateIsSound(states, steps, i);
  }

  /** In every interleaving a listed waiter's credential has a request that is still being sent, queued or processed,
      and until Stop there is a worker to take it. */
  lemma NoWaiterIsOrphaned(states: seq<State>, steps: seq<Step>, i: nat, c: string)
    requires Run(states, steps) && i < |states| && c in states[i].refreshing
    ensures var s := states[i];
      && c in s.creator && Pending(Request(c, s.creator[c]), s.sending, s.queue, s.processing)
      && (!s.phase.stopped ==> !s.phase.workerDone)
  {
    EveryStateIsSound(states, steps, i);
  }
}
