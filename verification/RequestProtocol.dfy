/**
 The request scheduling protocol as functions on its state. One outgoing request (CALL) is pending at a
 time, incoming requests are answered one after the other, and until the BootNotification was accepted
 nothing but the pre-boot queue is served.

 Ticks, the connection and the contents of messages are arguments. The connection does not call back while
 a message is being sent.
 */
module RequestProtocol {
  import opened Wrappers
  import opened Requests
  import opened Selection

  datatype Source = DefaultQueue | PreBootQueue | OtherQueue

  /** How the life of a request ends. */
  datatype End =
    | TimedOut    // timeout and abort listeners were called
    | Confirmed   // the confirmation listener was called
    | Aborted     // error and abort listeners were called
    | Answered    // the response to an incoming request was sent
    | Discarded   // no listener was called

  /** What can be observed. */
  datatype Event =
    | Queued(id: nat)
    | Fetched(id: nat, source: Source)
    | Transmitted(id: nat)
    | ResponseReceived
    | BootAccepted
    | Ended(id: nat, end: End)

  /** accepted: the latest registration status was Accepted. activated: all queues are served. */
  datatype Protocol = Protocol(
    sendFront: Option<Request>,
    recvFront: Option<Request>,
    sendQueue: seq<Request>,
    recvQueue: seq<Request>,
    preBootQueue: seq<Request>,
    accepted: bool,
    activated: bool)

  /** The queue capacity, MO_REQUEST_CACHE_MAXSIZE. */
  const CACHE_MAXSIZE: nat := 10

  // ----- ends of requests -----

  /** executeTimeout calls the listeners unless the request has timed out already; then it is destroyed. */
  function TimeoutOf(r: Request): Event {
    Ended(r.id, if r.timedOut then Discarded else TimedOut)
  }

  function TimeoutsOf(s: seq<Request>): seq<Event> {
    if s == [] then [] else TimeoutsOf(s[..|s| - 1]) + [TimeoutOf(s[|s| - 1])]
  }

  // ----- RequestQueue::loop -----

  datatype LoopInput = LoopInput(
    sendTick: nat,
    recvTick: nat,
    queueTicks: nat -> nat,
    connected: bool,
    responseReady: bool,
    responseSent: bool,
    otherHeads: seq<nat>,
    otherRequest: Option<Request>,
    requestCreated: bool,
    requestSent: bool)

  /** A front request that has timed out is dropped. */
  function ExpireFront(front: Option<Request>, expired: bool): (Option<Request>, seq<Event>) {
    if front.Some? && expired then (None, [TimeoutOf(front.value)]) else (front, [])
  }

  function FrontVerdict(front: Option<Request>, tick: nat): bool {
    front.Some? && IsTimeoutExceeded(front.value, tick)
  }

  function DropTimedOut(p: Protocol, sendExpired: bool, recvExpired: bool, v: seq<bool>): (Protocol, seq<Event>)
    requires |v| == |p.sendQueue|
  {
    var send, recv := ExpireFront(p.sendFront, sendExpired), ExpireFront(p.recvFront, recvExpired);
    (p.(sendFront := send.0, recvFront := recv.0, sendQueue := Kept(p.sendQueue, v)),
     send.1 + recv.1 + TimeoutsOf(Expired(p.sendQueue, v)))
  }

  /** Load the next incoming request; the result tells whether its response ended this call of loop(). */
  function Respond(p: Protocol, i: LoopInput): (Protocol, seq<Event>, bool) {
    var q := if p.recvFront.None? && p.recvQueue != []
             then p.(recvFront := Some(p.recvQueue[0]), recvQueue := p.recvQueue[1..]) else p;
    if q.recvFront.Some? && i.responseReady then
      if i.responseSent then (q.(recvFront := None), [Ended(q.recvFront.value.id, Answered)], true) else (q, [], true)
    else (q, [], false)
  }

  function VolatileHead(q: seq<Request>): nat { if q == [] then NO_OPERATION else 1 }

  function PreBootHead(p: Protocol): nat {
    if !p.activated then 0 else VolatileHead(p.preBootQueue)
  }

  /** The heads of all send queues: default queue and pre-boot queue are registered first. */
  function Heads(p: Protocol, i: LoopInput): seq<nat> {
    [VolatileHead(p.sendQueue), PreBootHead(p)] + i.otherHeads
  }

  /** Fetch the next request from the queue with the smallest operation number. */
  function FetchNext(p: Protocol, i: LoopInput): (Protocol, seq<Event>) {
    if p.sendFront.Some? then (p, [])
    else
      var heads := Heads(p, i);
      var index := Select(heads);
      if index == 0 then
        if p.sendQueue == [] then (p, [])
        else (p.(sendFront := Some(p.sendQueue[0]), sendQueue := p.sendQueue[1..]),
              [Fetched(p.sendQueue[0].id, DefaultQueue)])
      else if index == 1 then
        if p.preBootQueue == [] then (p, [])
        else (p.(sendFront := Some(p.preBootQueue[0]), preBootQueue := p.preBootQueue[1..]),
              [Fetched(p.preBootQueue[0].id, PreBootQueue)])
      else if index < |heads| && i.otherRequest.Some? then
        (p.(sendFront := i.otherRequest), [Fetched(i.otherRequest.value.id, OtherQueue)])
      else (p, [])
  }

  function Transmit(p: Protocol, i: LoopInput): (Protocol, seq<Event>) {
    if p.sendFront.Some? && !p.sendFront.value.sent && i.requestCreated && i.requestSent
    then (p.(sendFront := Some(p.sendFront.value.(sent := true))), [Transmitted(p.sendFront.value.id)])
    else (p, [])
  }

  function Loop(p: Protocol, i: LoopInput): (Protocol, seq<Event>) {
    var (p1, e1) := DropTimedOut(p, FrontVerdict(p.sendFront, i.sendTick), FrontVerdict(p.recvFront, i.recvTick),
                                 Verdicts(p.sendQueue, i.queueTicks));
    if !i.connected then (p1, e1)
    else
      var (p2, e2, done) := Respond(p1, i);
      if done then (p2, e1 + e2)
      else
        var (p3, e3) := FetchNext(p2, i);
        var (p4, e4) := Transmit(p3, i);
        (p4, e1 + e2 + e3 + e4)
  }

  // ----- incoming messages -----

  datatype MessageType = CallResult | CallError | OtherType

  /** matches: the message ID is that of the pending request. abort: the operation gives up on an error. */
  datatype Response = Response(matches: bool, messageType: MessageType, abort: bool)

  /** What Request::receiveResponse makes of a response. */
  function EndByResponse(r: Request, m: Response): (e: Event)
    ensures e.Ended? && e.id == r.id
  {
    Ended(r.id,
          if !m.matches then Discarded
          else match m.messageType
            case CallResult => Confirmed
            case CallError => if m.abort then Aborted else Discarded
            case OtherType => Discarded)
  }

  function ReceiveResponse(p: Protocol, m: Response): (Protocol, seq<Event>) {
    if p.sendFront.None? then (p, [ResponseReceived])
    else (p.(sendFront := None), [ResponseReceived] + [EndByResponse(p.sendFront.value, m)])
  }

  /** pushRequestBack: a full queue gives up its oldest request. */
  function Push(q: seq<Request>, r: Request): (seq<Request>, seq<Event>) {
    if |q| >= CACHE_MAXSIZE then (q[1..] + [r], [TimeoutOf(q[0]), Queued(r.id)]) else (q + [r], [Queued(r.id)])
  }

  // ----- BootService -----

  /** The part of BootService::loop that concerns requests. */
  function BootLoop(p: Protocol, v: seq<bool>): (Protocol, seq<Event>)
    requires |v| == |p.preBootQueue|
  {
    (p.(preBootQueue := Kept(p.preBootQueue, v), activated := p.activated || p.accepted),
     TimeoutsOf(Expired(p.preBootQueue, v)))
  }

  function Notify(p: Protocol, accepted: bool): (Protocol, seq<Event>) {
    (p.(accepted := accepted), if accepted then [BootAccepted] else [])
  }

  // ----- steps -----

  datatype Step =
    | LoopStep(input: LoopInput)
    | ResponseStep(response: Response)
    | ReceiveStep(request: Request)
    | SendStep(request: Request)
    | SendPreBootStep(request: Request)
    | BootLoopStep(ticks: nat -> nat)
    | NotifyStep(status: bool)

  function Do(p: Protocol, s: Step): (Protocol, seq<Event>) {
    match s
    case LoopStep(input) => Loop(p, input)
    case ResponseStep(response) => ReceiveResponse(p, response)
    case ReceiveStep(request) => var r := Push(p.recvQueue, request); (p.(recvQueue := r.0), r.1)
    case SendStep(request) => var r := Push(p.sendQueue, request); (p.(sendQueue := r.0), r.1)
    case SendPreBootStep(request) => var r := Push(p.preBootQueue, request); (p.(preBootQueue := r.0), r.1)
    case BootLoopStep(ticks) => BootLoop(p, Verdicts(p.preBootQueue, ticks))
    case NotifyStep(status) => Notify(p, status)
  }
}
