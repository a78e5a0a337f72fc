/**
 What the steps of the request protocol do, over the queues, the heads and the inputs: when a request is
 fetched, transmitted and ended.
 */
module ProtocolEvents {
  import opened Wrappers
  import opened Requests
  import opened RequestProtocol
  import opened Selection

  /** k is the first of the smallest numbers, and that is one of an operation. */
  ghost predicate FirstMinimum(heads: seq<nat>, k: nat) {
    && k < |heads| && heads[k] < NO_OPERATION
    && (forall i :: 0 <= i < |heads| ==> heads[k] <= heads[i])
    && (forall i :: 0 <= i < k ==> heads[k] < heads[i])
  }

  lemma SelectsFirstMinimum(heads: seq<nat>, k: nat)
    ensures FirstMinimum(heads, k) ==> Select(heads) == k
    ensures (forall i: nat :: !FirstMinimum(heads, i)) ==> Select(heads) == |heads|
  {
    SelectIsFirstMinimum(heads);
    var n := Select(heads);
    if n < |heads| {
      assert FirstMinimum(heads, n);
    }
  }

  // ----- loop -----

  function After(front: Option<Request>, tick: nat): Option<Request> {
    if front.Some? && IsTimeoutExceeded(front.value, tick) then None else front
  }

  /** The requests of the default queue that have not timed out. */
  function Waiting(p: Protocol, i: LoopInput): seq<Request> { Kept(p.sendQueue, Verdicts(p.sendQueue, i.queueTicks)) }

  /** The connection is there, and no incoming request is answered in this call. */
  predicate Listens(p: Protocol, i: LoopInput) {
    i.connected && !(i.responseReady && (After(p.recvFront, i.recvTick).Some? || p.recvQueue != []))
  }

  /** The numbers of the default queue, the pre-boot queue, which comes first until the boot, and the others. */
  function Numbers(p: Protocol, i: LoopInput): seq<nat> {
    [if Waiting(p, i) == [] then NO_OPERATION else 1,
     if !p.activated then 0 else if p.preBootQueue == [] then NO_OPERATION else 1] + i.otherHeads
  }

  /** The request that is fetched in this call, if one is, and where it comes from. */
  ghost predicate Fetches(p: Protocol, i: LoopInput, r: Request, source: Source) {
    && Listens(p, i) && After(p.sendFront, i.sendTick).None?
    && match source
       case DefaultQueue => FirstMinimum(Numbers(p, i), 0) && r == Waiting(p, i)[0]
       case PreBootQueue => FirstMinimum(Numbers(p, i), 1) && p.preBootQueue != [] && r == p.preBootQueue[0]
       case OtherQueue => (exists k :: k >= 2 && FirstMinimum(Numbers(p, i), k)) && i.otherRequest == Some(r)
  }

  /** The request at the front is sent in this call, after it was fetched or as it was before. */
  ghost predicate Transmits(p: Protocol, i: LoopInput, r: Request) {
    && Listens(p, i) && !r.sent && i.requestCreated && i.requestSent
    && (After(p.sendFront, i.sendTick) == Some(r) || exists source :: Fetches(p, i, r, source))
  }

  lemma DropMeaning(p: Protocol, i: LoopInput)
    ensures var d := DropTimedOut(p, FrontVerdict(p.sendFront, i.sendTick), FrontVerdict(p.recvFront, i.recvTick),
                                  Verdicts(p.sendQueue, i.queueTicks));
            && d.0 == p.(sendFront := After(p.sendFront, i.sendTick), recvFront := After(p.recvFront, i.recvTick),
                         sendQueue := Waiting(p, i))
            && (forall e :: e in d.1 ==> e.Ended? && (e.end == TimedOut || e.end == Discarded))
  {
    var v := Verdicts(p.sendQueue, i.queueTicks);
    TimeoutsAreEnds(Expired(p.sendQueue, v));
  }

  lemma {:induction false} TimeoutsAreEnds(s: seq<Request>)
    ensures forall e :: e in TimeoutsOf(s) <==> exists r :: r in s && e == TimeoutOf(r)
  {
    if s != [] {
      var n := |s| - 1;
      TimeoutsAreEnds(s[..n]);
      forall r | r in s ensures r in s[..n] || r == s[n] {
      }
    }
  }

  /** The incoming request at the front, or the next one of the queue. */
  function Incoming(p: Protocol, tick: nat): Option<Request> {
    if After(p.recvFront, tick).Some? then After(p.recvFront, tick)
    else if p.recvQueue != [] then Some(p.recvQueue[0]) else None
  }

  lemma RespondMeaning(p: Protocol, i: LoopInput)
    ensures var r := Respond(p, i);
            && r.0 == p.(recvFront := r.0.recvFront, recvQueue := r.0.recvQueue)
            && (r.2 <==> i.responseReady && (p.recvFront.Some? || p.recvQueue != []))
            && r.1 == (if r.2 && i.responseSent
                       then [Ended(if p.recvFront.Some? then p.recvFront.value.id else p.recvQueue[0].id, Answered)]
                       else [])
  {
  }

  /** What is fetched when nothing is at the front. */
  lemma FetchNextMeaning(q: Protocol, i: LoopInput)
    requires q.sendFront.None?
    ensures var heads := Heads(q, i); var r := FetchNext(q, i);
            && (FirstMinimum(heads, 0) ==>
                  q.sendQueue != []
                  && r == (q.(sendFront := Some(q.sendQueue[0]), sendQueue := q.sendQueue[1..]),
                           [Fetched(q.sendQueue[0].id, DefaultQueue)]))
            && (FirstMinimum(heads, 1) && q.preBootQueue != [] ==>
                  r == (q.(sendFront := Some(q.preBootQueue[0]), preBootQueue := q.preBootQueue[1..]),
                        [Fetched(q.preBootQueue[0].id, PreBootQueue)]))
            && (forall k :: k >= 2 && FirstMinimum(heads, k) && i.otherRequest.Some? ==>
                  r == (q.(sendFront := i.otherRequest), [Fetched(i.otherRequest.value.id, OtherQueue)]))
            && (r == (q, []) || FirstMinimum(heads, 0) || (FirstMinimum(heads, 1) && q.preBootQueue != [])
                || (i.otherRequest.Some? && exists k :: k >= 2 && FirstMinimum(heads, k)))
  {
    hide FirstMinimum;
    var heads := Heads(q, i);
    SelectsFirstMinimum(heads, 0);
    SelectsFirstMinimum(heads, 1);
    forall k: nat | k >= 2 && FirstMinimum(heads, k) ensures Select(heads) == k < |heads| {
      SelectsFirstMinimum(heads, k);
      MinimumIsInRange(heads, k);
    }
    if Select(heads) < |heads| {
      SelectIsFirstMinimum(heads);
      SelectedIsMinimum(heads);
    }
    MinimumIsNumber(heads, 0);
  }

  lemma MinimumIsInRange(heads: seq<nat>, k: nat)
    requires FirstMinimum(heads, k)
    ensures k < |heads|
  {
  }

  lemma MinimumIsNumber(heads: seq<nat>, k: nat)
    ensures FirstMinimum(heads, k) ==> k < |heads| && heads[k] < NO_OPERATION
  {
  }

  lemma SelectedIsMinimum(heads: seq<nat>)
    requires Select(heads) < |heads|
    ensures FirstMinimum(heads, Select(heads))
  {
    SelectIsFirstMinimum(heads);
  }

  /** The protocol after timeouts and incoming requests, when the call goes on to fetch and to send. */
  function BeforeFetch(p: Protocol, i: LoopInput): Protocol {
    Respond(p.(sendFront := After(p.sendFront, i.sendTick), recvFront := After(p.recvFront, i.recvTick),
               sendQueue := Waiting(p, i)), i).0
  }

  /** Events of timeouts and of answers to incoming requests. */
  predicate IsDrop(e: Event) { e.Ended? && e.end != Confirmed && e.end != Aborted }

  lemma LoopInParts(p: Protocol, i: LoopInput) returns (drops: seq<Event>)
    ensures forall e :: e in drops ==> IsDrop(e)
    ensures !Listens(p, i) ==>
              && Loop(p, i).1 == drops && Loop(p, i).0.sendFront == After(p.sendFront, i.sendTick)
              && Loop(p, i).0.sendQueue == Waiting(p, i) && Loop(p, i).0.preBootQueue == p.preBootQueue
    ensures Listens(p, i) ==>
              var f := FetchNext(BeforeFetch(p, i), i); var t := Transmit(f.0, i);
              Loop(p, i) == (t.0, drops + f.1 + t.1)
    ensures var q := BeforeFetch(p, i);
            && q.sendFront == After(p.sendFront, i.sendTick) && q.sendQueue == Waiting(p, i)
            && q.preBootQueue == p.preBootQueue && q.activated == p.activated && Heads(q, i) == Numbers(p, i)
  {
    hide Respond, FetchNext, Transmit, DropTimedOut;
    var d := DropTimedOut(p, FrontVerdict(p.sendFront, i.sendTick), FrontVerdict(p.recvFront, i.recvTick),
                          Verdicts(p.sendQueue, i.queueTicks));
    DropMeaning(p, i);
    RespondMeaning(d.0, i);
    drops := if i.connected then d.1 + Respond(d.0, i).1 else d.1;
  }

  /** The front after sending. */
  function SentIf(r: Request, i: LoopInput): Request {
    if i.requestCreated && i.requestSent then Request(r.id, r.timeoutStart, r.timeoutPeriod, r.timedOut, true) else r
  }

  lemma TransmitMeaning(q: Protocol, i: LoopInput)
    ensures var t := Transmit(q, i);
            && t.0 == q.(sendFront := if q.sendFront.Some? then Some(SentIf(q.sendFront.value, i)) else None)
            && t.1 == (if q.sendFront.Some? && !q.sendFront.value.sent && i.requestCreated && i.requestSent
                       then [Transmitted(q.sendFront.value.id)] else [])
  {
  }

  /** The request that the heads single out is fetched: it leaves its queue and is at the front. */
  lemma LoopFetches(p: Protocol, i: LoopInput, r: Request, source: Source)
    requires Fetches(p, i, r, source)
    ensures var (q, es) := Do(p, LoopStep(i));
            && Fetched(r.id, source) in es && q.sendFront == Some(SentIf(r, i))
            && q.sendQueue == (if source == DefaultQueue then Waiting(p, i)[1..] else Waiting(p, i))
            && q.preBootQueue == (if source == PreBootQueue then p.preBootQueue[1..] else p.preBootQueue)
  {
    hide FetchNext, Transmit, Loop, FirstMinimum, BeforeFetch;
    var drops := LoopInParts(p, i);
    var b := BeforeFetch(p, i);
    FetchNextMeaning(b, i);
    var f := FetchNext(b, i);
    assert f.1 == [Fetched(r.id, source)];
    TransmitMeaning(f.0, i);
    assert Fetched(r.id, source) in drops + f.1 + Transmit(f.0, i).1;
  }

  /** A request is fetched only so. */
  lemma FetchedIff(p: Protocol, i: LoopInput, x: nat, source: Source)
    ensures Fetched(x, source) in Do(p, LoopStep(i)).1 <==> exists r: Request :: r.id == x && Fetches(p, i, r, source)
  {
    hide FetchNext, Transmit, Loop, FirstMinimum, BeforeFetch;
    var drops := LoopInParts(p, i);
    if Fetched(x, source) in Do(p, LoopStep(i)).1 {
      var b := BeforeFetch(p, i);
      TransmitMeaning(FetchNext(b, i).0, i);
      if b.sendFront.Some? {
        FrontStays(b, i);
      } else {
        FetchNextMeaning(b, i);
        FetchedNow(p, i, b, x, source);
      }
    }
    if r: Request :| r.id == x && Fetches(p, i, r, source) {
      LoopFetches(p, i, r, source);
    }
  }

  lemma FrontStays(q: Protocol, i: LoopInput)
    requires q.sendFront.Some?
    ensures FetchNext(q, i) == (q, [])
  {
  }

  lemma FetchedNow(p: Protocol, i: LoopInput, b: Protocol, x: nat, source: Source)
    requires b == BeforeFetch(p, i) && b.sendFront.None? && Listens(p, i) && Fetched(x, source) in FetchNext(b, i).1
    ensures exists r: Request :: r.id == x && Fetches(p, i, r, source)
  {
    hide FetchNext, FirstMinimum, BeforeFetch;
    var drops := LoopInParts(p, i);
    FetchNextMeaning(b, i);
    if FirstMinimum(Numbers(p, i), 0) {
      assert Fetches(p, i, b.sendQueue[0], DefaultQueue);
    } else if FirstMinimum(Numbers(p, i), 1) && b.preBootQueue != [] {
      assert Fetches(p, i, b.preBootQueue[0], PreBootQueue);
    } else {
      assert Fetches(p, i, i.otherRequest.value, OtherQueue);
    }
  }

  /** A request is transmitted exactly if it is at the front, or fetched, and was not sent yet. */
  lemma TransmittedIff(p: Protocol, i: LoopInput, x: nat)
    ensures Transmitted(x) in Do(p, LoopStep(i)).1 <==> exists r: Request :: r.id == x && Transmits(p, i, r)
  {
    hide FetchNext, Transmit, Loop, BeforeFetch, Fetches, Listens;
    var drops := LoopInParts(p, i);
    if Listens(p, i) {
      var b := BeforeFetch(p, i);
      var f := FetchNext(b, i);
      TransmitMeaning(f.0, i);
      FrontToSend(p, i);
      FetchEventsOnly(b, i);
      assert Transmitted(x) in Do(p, LoopStep(i)).1 <==> Transmitted(x) in Transmit(f.0, i).1;
      if Transmitted(x) in Transmit(f.0, i).1 {
        assert Transmits(p, i, f.0.sendFront.value);
      }
      if r: Request :| r.id == x && Transmits(p, i, r) {
        assert f.0.sendFront == Some(r);
      }
    } else {
      DropsOnly(p, i, drops, x);
    }
  }

  lemma FetchEventsOnly(q: Protocol, i: LoopInput)
    ensures forall e :: e in FetchNext(q, i).1 ==> e.Fetched?
  {
  }

  lemma DropsOnly(p: Protocol, i: LoopInput, drops: seq<Event>, x: nat)
    requires !Listens(p, i) && forall e :: e in drops ==> IsDrop(e)
    ensures Transmitted(x) !in drops && forall r :: !Transmits(p, i, r)
  {
  }

  /** What is at the front when the call comes to sending. */
  lemma FrontToSend(p: Protocol, i: LoopInput)
    requires Listens(p, i)
    ensures var f := FetchNext(BeforeFetch(p, i), i).0.sendFront;
            forall r :: f == Some(r) <==>
              After(p.sendFront, i.sendTick) == Some(r) || exists source :: Fetches(p, i, r, source)
  {
    hide FetchNext, BeforeFetch, FirstMinimum;
    var drops := LoopInParts(p, i);
    var b := BeforeFetch(p, i);
    if b.sendFront.Some? {
      FrontStays(b, i);
    } else {
      FetchNextMeaning(b, i);
      OneMinimum(Numbers(p, i));
      if FirstMinimum(Numbers(p, i), 0) {
        assert Fetches(p, i, b.sendQueue[0], DefaultQueue);
      } else if FirstMinimum(Numbers(p, i), 1) && b.preBootQueue != [] {
        assert Fetches(p, i, b.preBootQueue[0], PreBootQueue);
      } else if i.otherRequest.Some? && exists k :: k >= 2 && FirstMinimum(Numbers(p, i), k) {
        assert Fetches(p, i, i.otherRequest.value, OtherQueue);
      }
    }
  }

  lemma OneMinimum(heads: seq<nat>)
    ensures forall k: nat, n: nat :: FirstMinimum(heads, k) && FirstMinimum(heads, n) ==> k == n
  {
  }

  /** Request r has timed out at that tick; what has done so before has called its listeners already. */
  predicate TimesOut(r: Request, x: nat, tick: nat) { r.id == x && !r.timedOut && IsTimeoutExceeded(r, tick) }

  /** The timeout listeners of a request are called exactly if it waits at a front or in the queue and times out. */
  lemma TimedOutIff(p: Protocol, i: LoopInput, x: nat)
    ensures Ended(x, TimedOut) in Do(p, LoopStep(i)).1 <==>
              || (p.sendFront.Some? && TimesOut(p.sendFront.value, x, i.sendTick))
              || (p.recvFront.Some? && TimesOut(p.recvFront.value, x, i.recvTick))
              || (exists k :: 0 <= k < |p.sendQueue| && TimesOut(p.sendQueue[k], x, i.queueTicks(k)))
  {
    hide Respond, FetchNext, Transmit, DropTimedOut, FirstMinimum;
    var v := Verdicts(p.sendQueue, i.queueTicks);
    var d := DropTimedOut(p, FrontVerdict(p.sendFront, i.sendTick), FrontVerdict(p.recvFront, i.recvTick), v);
    DropsTimedOut(p, i, x);
    DropMeaning(p, i);
    RespondMeaning(d.0, i);
    FetchEventsOnly(Respond(d.0, i).0, i);
    TransmitMeaning(FetchNext(Respond(d.0, i).0, i).0, i);
  }

  lemma DropsTimedOut(p: Protocol, i: LoopInput, x: nat)
    ensures var v := Verdicts(p.sendQueue, i.queueTicks);
            Ended(x, TimedOut)
              in DropTimedOut(p, FrontVerdict(p.sendFront, i.sendTick), FrontVerdict(p.recvFront, i.recvTick), v).1 <==>
              || (p.sendFront.Some? && TimesOut(p.sendFront.value, x, i.sendTick))
              || (p.recvFront.Some? && TimesOut(p.recvFront.value, x, i.recvTick))
              || (exists k :: 0 <= k < |p.sendQueue| && TimesOut(p.sendQueue[k], x, i.queueTicks(k)))
  {
    QueueTimesOut(p.sendQueue, i.queueTicks, x);
  }

  lemma QueueTimesOut(s: seq<Request>, ticks: nat -> nat, x: nat)
    ensures Ended(x, TimedOut) in TimeoutsOf(Expired(s, Verdicts(s, ticks)))
            <==> exists k :: 0 <= k < |s| && TimesOut(s[k], x, ticks(k))
  {
    var v := Verdicts(s, ticks);
    TimeoutsAreEnds(Expired(s, v));
    forall r ensures r in Expired(s, v) <==> TestedAs(s, v, r, true) {
      OnlyTested(s, v, r);
    }
    if k :| 0 <= k < |s| && TimesOut(s[k], x, ticks(k)) {
      assert v[k] && TestedAs(s, v, s[k], true);
      assert TimeoutOf(s[k]) == Ended(x, TimedOut);
    }
  }

  /** The response to an incoming request is sent exactly if there is one and its response is ready. */
  lemma AnsweredIff(p: Protocol, i: LoopInput, x: nat)
    ensures Ended(x, Answered) in Do(p, LoopStep(i)).1 <==>
              && i.connected && i.responseReady && i.responseSent
              && Incoming(p, i.recvTick).Some? && Incoming(p, i.recvTick).value.id == x
  {
    hide Respond, FetchNext, Transmit, DropTimedOut, FirstMinimum;
    var v := Verdicts(p.sendQueue, i.queueTicks);
    var d := DropTimedOut(p, FrontVerdict(p.sendFront, i.sendTick), FrontVerdict(p.recvFront, i.recvTick), v);
    DropMeaning(p, i);
    RespondMeaning(d.0, i);
    FetchEventsOnly(Respond(d.0, i).0, i);
    TransmitMeaning(FetchNext(Respond(d.0, i).0, i).0, i);
  }

  // ----- the other steps -----

  /** A response ends the request at the front: with which listener depends on the response alone. */
  lemma ResponseMeaning(p: Protocol, m: Response)
    ensures var (q, es) := Do(p, ResponseStep(m));
            && q == p.(sendFront := None)
            && es == [ResponseReceived] +
                     (if p.sendFront.None? then []
                      else if m.matches && m.messageType == CallResult then [Ended(p.sendFront.value.id, Confirmed)]
                      else if m.matches && m.messageType == CallError && m.abort
                        then [Ended(p.sendFront.value.id, Aborted)]
                      else [Ended(p.sendFront.value.id, Discarded)])
  {
  }

  /** A queue with 10 requests gives up its oldest one for a new one. */
  lemma PushMeaning(q: seq<Request>, r: Request)
    ensures var (s, es) := Push(q, r);
            && s == (if |q| < 10 then q else q[1..]) + [r]
            && es == (if |q| < 10 then [] else [TimeoutOf(q[0])]) + [Queued(r.id)]
  {
    assert [TimeoutOf(r)][1..] + [Queued(r.id)] == [Queued(r.id)];
  }

  /** The other queues are served from the next call of the boot service after an acceptance, and for good. */
  lemma BootMeaning(p: Protocol, ticks: nat -> nat, accepted: bool)
    ensures var (q, es) := Do(p, BootLoopStep(ticks));
            && q.activated == (p.activated || p.accepted)
            && q.preBootQueue == Kept(p.preBootQueue, Verdicts(p.preBootQueue, ticks))
    ensures Do(p, NotifyStep(accepted)) == (p.(accepted := accepted), if accepted then [BootAccepted] else [])
  {
  }
}
