/**
 The request queue as an object: it owns the default queue and the queue of incoming requests, shares the
 pre-boot queue with the boot service, and takes the steps of the request protocol.
 */
module RequestQueues {
  import opened Wrappers
  import opened Requests
  import opened RequestRing
  import opened RequestProtocol
  import opened Selection

  class PreBootQueue {
    const queue: VolatileRequestQueue
    var activatedPostBootCommunication: bool

    constructor ()
      ensures queue.Valid() && queue.Contents() == [] && queue.requests.Length == CACHE_MAXSIZE
      ensures fresh(queue) && fresh(queue.requests) && !activatedPostBootCommunication
    {
      queue := new VolatileRequestQueue(CACHE_MAXSIZE);
      activatedPostBootCommunication := false;
    }

    method GetFrontRequestOpNr() returns (opNr: nat)
      requires queue.Valid()
      ensures opNr == if !activatedPostBootCommunication then 0 else VolatileHead(queue.Contents())
    {
      if !activatedPostBootCommunication {
        return 0;
      }
      opNr := queue.GetFrontRequestOpNr();
    }
  }

  /** The timeout listeners of all these requests, one after the other. */
  method Report(expired: seq<Request>) returns (events: seq<Event>)
    ensures events == TimeoutsOf(expired)
  {
    events := [];
    for k := 0 to |expired|
      invariant events == TimeoutsOf(expired[..k])
    {
      assert expired[..k + 1][..k] == expired[..k];
      events := events + [TimeoutOf(expired[k])];
    }
    assert expired[..|expired|] == expired;
  }

  class RequestQueue {
    const defaultSendQueue: VolatileRequestQueue
    const recvQueue: VolatileRequestQueue
    const preBoot: PreBootQueue
    var sendReqFront: Option<Request>
    var recvReqFront: Option<Request>
    var nextOpNr: nat

    /** The three queues are different objects of the same capacity. */
    ghost predicate Valid()
      reads this, defaultSendQueue, recvQueue, preBoot.queue
      reads defaultSendQueue.requests, recvQueue.requests, preBoot.queue.requests
    {
      && defaultSendQueue != recvQueue && defaultSendQueue != preBoot.queue && recvQueue != preBoot.queue
      && defaultSendQueue.requests != recvQueue.requests
      && defaultSendQueue.requests != preBoot.queue.requests && recvQueue.requests != preBoot.queue.requests
      && defaultSendQueue.Valid() && recvQueue.Valid() && preBoot.queue.Valid()
      && defaultSendQueue.requests.Length == CACHE_MAXSIZE && recvQueue.requests.Length == CACHE_MAXSIZE
      && preBoot.queue.requests.Length == CACHE_MAXSIZE
    }

    /** accepted is known to the boot service only. */
    ghost function State(accepted: bool): Protocol
      requires Valid()
      reads this, defaultSendQueue, recvQueue, preBoot, preBoot.queue
      reads defaultSendQueue.requests, recvQueue.requests, preBoot.queue.requests
    {
      Protocol(sendReqFront, recvReqFront, defaultSendQueue.Contents(), recvQueue.Contents(),
               preBoot.queue.Contents(), accepted, preBoot.activatedPostBootCommunication)
    }

    constructor ()
      ensures Valid() && fresh(defaultSendQueue) && fresh(recvQueue) && fresh(preBoot) && fresh(preBoot.queue)
      ensures State(false) == Protocol(None, None, [], [], [], false, false) && nextOpNr == 10
    {
      defaultSendQueue := new VolatileRequestQueue(CACHE_MAXSIZE);
      recvQueue := new VolatileRequestQueue(CACHE_MAXSIZE);
      preBoot := new PreBootQueue();
      sendReqFront, recvReqFront, nextOpNr := None, None, 10;
    }

    method DropTimedOut(i: LoopInput, ghost a: bool) returns (events: seq<Event>)
      requires Valid()
      modifies this`sendReqFront, this`recvReqFront, defaultSendQueue, defaultSendQueue.requests
      ensures Valid()
      ensures (State(a), events) == RequestProtocol.DropTimedOut(old(State(a)),
                FrontVerdict(old(sendReqFront), i.sendTick), FrontVerdict(old(recvReqFront), i.recvTick),
                Verdicts(old(defaultSendQueue.Contents()), i.queueTicks))
    {
      hide TimeoutsOf, IsTimeoutExceeded, Kept, Expired;
      events := [];
      if sendReqFront.Some? && IsTimeoutExceeded(sendReqFront.value, i.sendTick) {
        events := [TimeoutOf(sendReqFront.value)];
        sendReqFront := None;
      }
      var recvEvents := [];
      if recvReqFront.Some? && IsTimeoutExceeded(recvReqFront.value, i.recvTick) {
        recvEvents := [TimeoutOf(recvReqFront.value)];
        recvReqFront := None;
      }
      var expired := defaultSendQueue.Loop(i.queueTicks);
      var timeouts := Report(expired);
      events := events + recvEvents + timeouts;
    }

    method Respond(i: LoopInput, ghost a: bool) returns (events: seq<Event>, done: bool)
      requires Valid()
      modifies this`recvReqFront, recvQueue, recvQueue.requests
      ensures Valid()
      ensures (State(a), events, done) == RequestProtocol.Respond(old(State(a)), i)
    {
      if recvReqFront.None? {
        recvReqFront := recvQueue.FetchFrontRequest();
      }
      if recvReqFront.Some? && i.responseReady {
        if i.responseSent {
          events := [Ended(recvReqFront.value.id, Answered)];
          recvReqFront := None;
          return events, true;
        }
        return [], true;
      }
      return [], false;
    }

    method PickQueue(i: LoopInput, ghost a: bool) returns (index: nat)
      requires Valid()
      ensures |Heads(State(a), i)| == 2 + |i.otherHeads| && index == Select(Heads(State(a), i))
    {
      var head0 := defaultSendQueue.GetFrontRequestOpNr();
      var head1 := preBoot.GetFrontRequestOpNr();
      index := SelectQueue([head0, head1] + i.otherHeads);
    }

    method FetchNext(i: LoopInput, ghost a: bool) returns (events: seq<Event>)
      requires Valid()
      modifies this`sendReqFront, defaultSendQueue, defaultSendQueue.requests
      modifies preBoot.queue, preBoot.queue.requests
      ensures Valid()
      ensures (State(a), events) == RequestProtocol.FetchNext(old(State(a)), i)
    {
      hide Heads, Select, VolatileRequestQueue.Contents;
      events := [];
      if sendReqFront.None? {
        var index := PickQueue(i, a);
        if index == 0 {
          sendReqFront := defaultSendQueue.FetchFrontRequest();
          if sendReqFront.Some? {
            events := [Fetched(sendReqFront.value.id, DefaultQueue)];
          }
        } else if index == 1 {
          sendReqFront := preBoot.queue.FetchFrontRequest();
          if sendReqFront.Some? {
            events := [Fetched(sendReqFront.value.id, PreBootQueue)];
          }
        } else if index < 2 + |i.otherHeads| {
          sendReqFront := i.otherRequest;
          if sendReqFront.Some? {
            events := [Fetched(sendReqFront.value.id, OtherQueue)];
          }
        }
      }
    }

    method Transmit(i: LoopInput, ghost a: bool) returns (events: seq<Event>)
      requires Valid()
      modifies this`sendReqFront
      ensures Valid()
      ensures (State(a), events) == RequestProtocol.Transmit(old(State(a)), i)
    {
      events := [];
      if sendReqFront.Some? && !sendReqFront.value.sent {
        if i.requestCreated && i.requestSent {
          events := [Transmitted(sendReqFront.value.id)];
          sendReqFront := Some(sendReqFront.value.(sent := true));
        }
      }
    }

    method Loop(i: LoopInput, ghost a: bool) returns (events: seq<Event>)
      requires Valid()
      modifies this`sendReqFront, this`recvReqFront, defaultSendQueue, defaultSendQueue.requests
      modifies recvQueue, recvQueue.requests, preBoot.queue, preBoot.queue.requests
      ensures Valid()
      ensures (State(a), events) == RequestProtocol.Loop(old(State(a)), i)
    {
      hide RequestProtocol.DropTimedOut, RequestProtocol.Respond, RequestProtocol.FetchNext, RequestProtocol.Transmit,
           FrontVerdict, Verdicts;
      events := DropTimedOut(i, a);
      if !i.connected {
        return;
      }
      var e, done := Respond(i, a);
      events := events + e;
      if done {
        return;
      }
      e := FetchNext(i, a);
      events := events + e;
      e := Transmit(i, a);
      events := events + e;
    }

    method ReceiveResponse(m: Response, ghost a: bool) returns (events: seq<Event>)
      requires Valid()
      modifies this`sendReqFront
      ensures Valid()
      ensures (State(a), events) == RequestProtocol.ReceiveResponse(old(State(a)), m)
    {
      events := [ResponseReceived];
      if sendReqFront.Some? {
        events := events + [EndByResponse(sendReqFront.value, m)];
      }
      sendReqFront := None;
    }

    method ReceiveRequest(request: Request, ghost a: bool) returns (events: seq<Event>)
      requires Valid()
      modifies recvQueue, recvQueue.requests
      ensures Valid()
      ensures (State(a), events) == Do(old(State(a)), ReceiveStep(request))
    {
      var expired := recvQueue.PushRequestBack(request);
      events := if expired != [] then [TimeoutOf(expired[0]), Queued(request.id)] else [Queued(request.id)];
    }

    method SendRequest(request: Request, ghost a: bool) returns (events: seq<Event>)
      requires Valid()
      modifies defaultSendQueue, defaultSendQueue.requests
      ensures Valid()
      ensures (State(a), events) == Do(old(State(a)), SendStep(request))
    {
      var expired := defaultSendQueue.PushRequestBack(request);
      events := if expired != [] then [TimeoutOf(expired[0]), Queued(request.id)] else [Queued(request.id)];
    }

    method SendRequestPreBoot(request: Request, ghost a: bool) returns (events: seq<Event>)
      requires Valid()
      modifies preBoot.queue, preBoot.queue.requests
      ensures Valid()
      ensures (State(a), events) == Do(old(State(a)), SendPreBootStep(request))
    {
      var expired := preBoot.queue.PushRequestBack(request);
      events := if expired != [] then [TimeoutOf(expired[0]), Queued(request.id)] else [Queued(request.id)];
    }

    /** Operation numbers are never issued twice. */
    method GetNextOpNr() returns (opNr: nat)
      modifies this`nextOpNr
      ensures opNr == old(nextOpNr) && nextOpNr == opNr + 1
    {
      opNr := nextOpNr;
      nextOpNr := nextOpNr + 1;
    }
  }
}
