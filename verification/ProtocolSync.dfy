/**
 One request at a time: how one step of the request protocol changes the request that waits for its
 response, and which requests it may fetch.
 */
module ProtocolSync {
  import opened Wrappers
  import opened Requests
  import opened RequestProtocol
  import opened ProtocolBalance
  import Selection

  // ----- the outstanding request, as an observer of the events sees it -----

  /** A transmitted request is outstanding until any response comes in or it times out. */
  function After(o: Option<nat>, e: Event): Option<nat> {
    match e
    case Transmitted(id) => Some(id)
    case ResponseReceived => None
    case Ended(id, end) => if end == TimedOut && o == Some(id) then None else o
    case _ => o
  }

  function Outstanding(o: Option<nat>, log: seq<Event>): Option<nat>
    decreases log
  {
    if log == [] then o else Outstanding(After(o, log[0]), log[1..])
  }

  /** Nothing is transmitted while another request is outstanding. */
  ghost predicate Synchronous(o: Option<nat>, log: seq<Event>)
    decreases log
  {
    log != [] ==> (log[0].Transmitted? ==> o.None?) && Synchronous(After(o, log[0]), log[1..])
  }

  lemma {:induction false} OutstandingConcat(o: Option<nat>, a: seq<Event>, b: seq<Event>)
    ensures Outstanding(o, a + b) == Outstanding(Outstanding(o, a), b)
    ensures Synchronous(o, a + b) <==> Synchronous(o, a) && Synchronous(Outstanding(o, a), b)
    decreases a
  {
    if a == [] {
      assert a + b == b;
    } else {
      OutstandingConcat(After(o, a[0]), a[1..], b);
      assert (a + b)[1..] == a[1..] + b;
    }
  }

  lemma OutstandingOfOne(o: Option<nat>, e: Event)
    ensures Outstanding(o, [e]) == After(o, e) && Outstanding(o, []) == o
    ensures (Synchronous(o, [e]) <==> (e.Transmitted? ==> o.None?)) && Synchronous(o, [])
  {
    assert [e][1..] == [];
  }

  // ----- the outstanding request, as the protocol state has it -----

  function Pending(p: Protocol): Option<nat> {
    if p.sendFront.Some? && p.sendFront.value.sent then Some(p.sendFront.value.id) else None
  }

  predicate IsNew(r: Request) { !r.sent && !r.timedOut }

  ghost predicate AllNew(s: seq<Request>) { forall r :: r in s ==> IsNew(r) }

  /** Only the front of the sender has been transmitted, and what has timed out is gone. */
  ghost predicate Tidy(p: Protocol) {
    && AllNew(p.sendQueue) && AllNew(p.recvQueue) && AllNew(p.preBootQueue)
    && (p.recvFront.Some? ==> IsNew(p.recvFront.value))
    && (p.sendFront.Some? ==> !p.sendFront.value.timedOut)
  }

  /** The events tell which request is pending, and they are in order. */
  ghost predicate Follows(p: Protocol, q: Protocol, e: seq<Event>) {
    Outstanding(Pending(p), e) == Pending(q) && Synchronous(Pending(p), e)
  }

  lemma FollowsInSequence(p: Protocol, q: Protocol, r: Protocol, e: seq<Event>, f: seq<Event>)
    requires Follows(p, q, e) && Follows(q, r, f)
    ensures Follows(p, r, e + f)
  {
    OutstandingConcat(Pending(p), e, f);
  }

  // ----- timeouts -----

  lemma {:induction false} KeptOrExpired(s: seq<Request>, v: seq<bool>)
    requires |s| == |v| && AllNew(s)
    ensures AllNew(Kept(s, v)) && AllNew(Expired(s, v))
  {
    KeptAndExpiredPartition(s, v);
    forall r | r in Kept(s, v) || r in Expired(s, v) ensures r in s {
      assert r in multiset(s);
    }
  }

  lemma {:induction false} ExpiredCopies(s: seq<Request>, v: seq<bool>, x: nat)
    requires |s| == |v|
    ensures Copies(Expired(s, v), x) <= Copies(s, x)
  {
    if s != [] {
      var n := |s| - 1;
      ExpiredCopies(s[..n], v[..n], x);
      if v[n] {
        CopiesSnoc(Expired(s[..n], v[..n]), s[n], x);
      } else {
        assert Expired(s, v) == Expired(s[..n], v[..n]);
      }
    }
  }

  lemma {:induction false} OtherTimeouts(o: Option<nat>, s: seq<Request>)
    requires o.Some? ==> Copies(s, o.value) == 0
    ensures Outstanding(o, TimeoutsOf(s)) == o && Synchronous(o, TimeoutsOf(s))
  {
    if s != [] {
      var n := |s| - 1;
      OtherTimeouts(o, s[..n]);
      OutstandingConcat(o, TimeoutsOf(s[..n]), [TimeoutOf(s[n])]);
      OutstandingOfOne(o, TimeoutOf(s[n]));
    }
  }

  lemma QueueTimeouts(o: Option<nat>, s: seq<Request>, v: seq<bool>)
    requires |s| == |v| && (o.Some? ==> Copies(s, o.value) == 0)
    ensures var e := TimeoutsOf(Expired(s, v)); Outstanding(o, e) == o && Synchronous(o, e)
  {
    hide Copies, Outstanding, Synchronous, TimeoutsOf, Expired;
    if o.Some? {
      ExpiredCopies(s, v, o.value);
    }
    OtherTimeouts(o, Expired(s, v));
  }

  // ----- one step -----

  ghost predicate Unique(p: Protocol) {
    Pending(p).Some? ==> Live(p, Pending(p).value) == 1
  }

  lemma DropFollows(p: Protocol, sendExpired: bool, recvExpired: bool, v: seq<bool>)
    requires Tidy(p) && Unique(p) && |v| == |p.sendQueue|
    ensures var r := DropTimedOut(p, sendExpired, recvExpired, v);
            Follows(p, r.0, r.1) && Tidy(r.0) && (Pending(r.0).None? || Pending(r.0) == Pending(p))
  {
    hide Outstanding, Synchronous, Copies, Kept, Expired, TimeoutsOf, AllNew;
    KeptOrExpired(p.sendQueue, v);
    var send, recv := ExpireFront(p.sendFront, sendExpired), ExpireFront(p.recvFront, recvExpired);
    var o, q := Pending(p), DropTimedOut(p, sendExpired, recvExpired, v).0;
    OutstandingOfOne(o, if send.1 != [] then send.1[0] else BootAccepted);
    OutstandingOfOne(Pending(q), if recv.1 != [] then recv.1[0] else BootAccepted);
    QueueTimeouts(Pending(q), p.sendQueue, v);
    OutstandingConcat(o, send.1, recv.1);
    OutstandingConcat(o, send.1 + recv.1, TimeoutsOf(Expired(p.sendQueue, v)));
  }

  lemma RespondFollows(p: Protocol, i: LoopInput)
    requires Tidy(p)
    ensures var r := Respond(p, i); Follows(p, r.0, r.1) && Tidy(r.0)
  {
    hide Outstanding, Synchronous;
    var e := Respond(p, i).1;
    OutstandingOfOne(Pending(p), if e != [] then e[0] else BootAccepted);
  }

  lemma FetchFollows(p: Protocol, i: LoopInput)
    requires Tidy(p) && (i.otherRequest.Some? ==> IsNew(i.otherRequest.value))
    ensures var r := FetchNext(p, i); Follows(p, r.0, r.1) && Tidy(r.0)
  {
    hide Outstanding, Synchronous, Heads;
    var e := FetchNext(p, i).1;
    OutstandingOfOne(Pending(p), if e != [] then e[0] else BootAccepted);
    assert p.sendQueue != [] ==> IsNew(p.sendQueue[0]);
    assert p.preBootQueue != [] ==> IsNew(p.preBootQueue[0]);
  }

  lemma TransmitFollows(p: Protocol, i: LoopInput)
    requires Tidy(p)
    ensures var r := Transmit(p, i); Follows(p, r.0, r.1) && Tidy(r.0)
  {
    hide Outstanding, Synchronous, AllNew;
    var e := Transmit(p, i).1;
    OutstandingOfOne(Pending(p), if e != [] then e[0] else BootAccepted);
  }

  lemma LoopFollows(p: Protocol, i: LoopInput)
    requires Tidy(p) && Unique(p) && (i.otherRequest.Some? ==> IsNew(i.otherRequest.value))
    ensures Follows(p, Loop(p, i).0, Loop(p, i).1) && Tidy(Loop(p, i).0)
  {
    hide Follows, Tidy, Unique, IsNew, DropTimedOut, Respond, FetchNext, Transmit;
    var sendExpired, recvExpired := FrontVerdict(p.sendFront, i.sendTick), FrontVerdict(p.recvFront, i.recvTick);
    var v := Verdicts(p.sendQueue, i.queueTicks);
    var (p1, e1) := DropTimedOut(p, sendExpired, recvExpired, v);
    DropFollows(p, sendExpired, recvExpired, v);
    if i.connected {
      var (p2, e2, done) := Respond(p1, i);
      RespondFollows(p1, i);
      FollowsInSequence(p, p1, p2, e1, e2);
      if !done {
        var (p3, e3) := FetchNext(p2, i);
        FetchFollows(p2, i);
        FollowsInSequence(p, p2, p3, e1 + e2, e3);
        var (p4, e4) := Transmit(p3, i);
        TransmitFollows(p3, i);
        FollowsInSequence(p, p3, p4, e1 + e2 + e3, e4);
      }
    }
  }

  lemma ResponseFollows(p: Protocol, m: Response)
    requires Tidy(p)
    ensures var r := ReceiveResponse(p, m); Follows(p, r.0, r.1) && Tidy(r.0)
  {
    hide Outstanding, Synchronous, AllNew;
    OutstandingOfOne(Pending(p), ResponseReceived);
    if p.sendFront.Some? {
      var end := EndByResponse(p.sendFront.value, m);
      OutstandingOfOne(None, end);
      OutstandingConcat(Pending(p), [ResponseReceived], [end]);
    }
  }

  lemma PushFollows(o: Option<nat>, q: seq<Request>, r: Request)
    requires AllNew(q) && IsNew(r) && (o.Some? ==> Copies(q, o.value) == 0)
    ensures AllNew(Push(q, r).0) && Outstanding(o, Push(q, r).1) == o && Synchronous(o, Push(q, r).1)
  {
    hide Outstanding, Synchronous, Copies;
    OutstandingOfOne(o, Queued(r.id));
    if |q| >= CACHE_MAXSIZE {
      if o.Some? {
        CopiesTail(q, o.value);
      }
      OutstandingOfOne(o, TimeoutOf(q[0]));
      OutstandingConcat(o, [TimeoutOf(q[0])], [Queued(r.id)]);
      assert [TimeoutOf(q[0])] + [Queued(r.id)] == [TimeoutOf(q[0]), Queued(r.id)];
    }
  }

  lemma SendFollows(p: Protocol, s: Step)
    requires Tidy(p) && Unique(p) && (s.ReceiveStep? || s.SendStep? || s.SendPreBootStep?) && IsNew(s.request)
    ensures var r := Do(p, s); Follows(p, r.0, r.1) && Tidy(r.0)
  {
    hide Outstanding, Synchronous, AllNew, Push, Copies, IsNew;
    PushFollows(Pending(p), if s.ReceiveStep? then p.recvQueue else if s.SendStep? then p.sendQueue else p.preBootQueue,
                s.request);
  }

  lemma BootLoopFollows(p: Protocol, v: seq<bool>)
    requires Tidy(p) && Unique(p) && |v| == |p.preBootQueue|
    ensures var r := BootLoop(p, v); Follows(p, r.0, r.1) && Tidy(r.0)
  {
    hide Outstanding, Synchronous, AllNew, Copies, IsNew, Kept, Expired, TimeoutsOf;
    KeptOrExpired(p.preBootQueue, v);
    QueueTimeouts(Pending(p), p.preBootQueue, v);
  }

  lemma NotifyFollows(p: Protocol, accepted: bool)
    requires Tidy(p)
    ensures var r := Notify(p, accepted); Follows(p, r.0, r.1) && Tidy(r.0)
  {
    hide Outstanding, Synchronous, AllNew;
    OutstandingOfOne(Pending(p), BootAccepted);
  }

  /** The requests that a step brings in have neither been sent nor timed out. */
  ghost predicate BringsNew(s: Step) {
    match s
    case LoopStep(input) => input.otherRequest.Some? ==> IsNew(input.otherRequest.value)
    case ReceiveStep(request) => IsNew(request)
    case SendStep(request) => IsNew(request)
    case SendPreBootStep(request) => IsNew(request)
    case _ => true
  }

  lemma StepFollows(p: Protocol, s: Step)
    requires Tidy(p) && Unique(p) && BringsNew(s)
    ensures var r := Do(p, s); Follows(p, r.0, r.1) && Tidy(r.0)
  {
    hide Follows, Tidy, Unique, Loop, BootLoop, ReceiveResponse, Push, Notify, IsNew;
    match s
    case LoopStep(input) => LoopFollows(p, input);
    case ResponseStep(response) => ResponseFollows(p, response);
    case BootLoopStep(ticks) => BootLoopFollows(p, Verdicts(p.preBootQueue, ticks));
    case NotifyStep(status) => NotifyFollows(p, status);
    case _ => SendFollows(p, s);
  }

  // ----- what may be fetched -----

  predicate IsPostBoot(e: Event) { e.Fetched? && e.source != PreBootQueue }

  ghost predicate NoPostBoot(log: seq<Event>) { forall e :: e in log ==> !IsPostBoot(e) }

  lemma {:induction false} TimeoutsAreNoFetches(s: seq<Request>)
    ensures NoPostBoot(TimeoutsOf(s))
  {
    if s != [] {
      TimeoutsAreNoFetches(s[..|s| - 1]);
    }
  }

  /** Until activation the pre-boot queue reports the smallest number, even if it is empty. */
  lemma FetchesFromPreBootOnly(p: Protocol, i: LoopInput)
    requires !p.activated
    ensures NoPostBoot(FetchNext(p, i).1)
  {
    var heads := Heads(p, i);
    Selection.SelectIsFirstMinimum(heads);
    assert heads[0] >= 1 && heads[1] == 0;
  }

  lemma LoopFetchesFromPreBootOnly(p: Protocol, i: LoopInput)
    requires !p.activated
    ensures NoPostBoot(Loop(p, i).1)
  {
    hide TimeoutsOf, Expired, Kept, FetchNext;
    var sendExpired, recvExpired := FrontVerdict(p.sendFront, i.sendTick), FrontVerdict(p.recvFront, i.recvTick);
    var v := Verdicts(p.sendQueue, i.queueTicks);
    TimeoutsAreNoFetches(Expired(p.sendQueue, v));
    var p1 := DropTimedOut(p, sendExpired, recvExpired, v).0;
    FetchesFromPreBootOnly(Respond(p1, i).0, i);
  }

  lemma StepFetchesFromPreBootOnly(p: Protocol, s: Step)
    requires !p.activated
    ensures NoPostBoot(Do(p, s).1)
  {
    hide Loop, TimeoutsOf, Expired, Kept;
    match s
    case LoopStep(input) => LoopFetchesFromPreBootOnly(p, input);
    case BootLoopStep(ticks) => TimeoutsAreNoFetches(Expired(p.preBootQueue, Verdicts(p.preBootQueue, ticks)));
    case _ =>
  }

  lemma LoopKeepsFlags(p: Protocol, i: LoopInput)
    ensures var q := Loop(p, i).0; q.accepted == p.accepted && q.activated == p.activated
  {
    hide Kept, Expired, TimeoutsOf, Verdicts, Heads;
  }

  lemma ResponseKeepsFlags(p: Protocol, m: Response)
    ensures var q := ReceiveResponse(p, m).0; q.accepted == p.accepted && q.activated == p.activated
  {
  }

  /** Only the boot service changes its flags. */
  lemma StepKeepsFlags(p: Protocol, s: Step)
    ensures var q := Do(p, s).0;
            && (s.NotifyStep? ==> q.accepted == s.status && q.activated == p.activated)
            && (!s.NotifyStep? ==> q.accepted == p.accepted)
            && (!s.BootLoopStep? ==> q.activated == p.activated)
            && (s.BootLoopStep? ==> q.activated == (p.activated || p.accepted))
  {
    hide Loop, Kept, Expired, TimeoutsOf, Verdicts, Push, ReceiveResponse;
    if s.LoopStep? {
      LoopKeepsFlags(p, s.input);
    } else if s.ResponseStep? {
      ResponseKeepsFlags(p, s.response);
    }
  }

  // ----- requests that end without a call of a listener -----

  lemma {:induction false} NewRequestsTimeOut(s: seq<Request>)
    requires AllNew(s)
    ensures forall e :: e in TimeoutsOf(s) ==> e.Ended? && e.end == TimedOut
  {
    if s != [] {
      assert s[|s| - 1] in s;
      NewRequestsTimeOut(s[..|s| - 1]);
    }
  }

  lemma LoopDiscardsNothing(p: Protocol, i: LoopInput, x: nat)
    requires Tidy(p)
    ensures Ended(x, Discarded) !in Loop(p, i).1
  {
    hide TimeoutsOf, Expired, Kept, AllNew, Heads;
    var sendExpired, recvExpired := FrontVerdict(p.sendFront, i.sendTick), FrontVerdict(p.recvFront, i.recvTick);
    var v := Verdicts(p.sendQueue, i.queueTicks);
    KeptOrExpired(p.sendQueue, v);
    NewRequestsTimeOut(Expired(p.sendQueue, v));
  }

  lemma PushDiscardsNothing(q: seq<Request>, r: Request, x: nat)
    requires AllNew(q)
    ensures Ended(x, Discarded) !in Push(q, r).1
  {
    assert q != [] ==> q[0] in q;
  }

  lemma StepDiscards(p: Protocol, s: Step, x: nat)
    requires Tidy(p)
    ensures Ended(x, Discarded) in Do(p, s).1
            <==> s.ResponseStep? && p.sendFront.Some?
                  && EndByResponse(p.sendFront.value, s.response) == Ended(x, Discarded)
  {
    hide Loop, TimeoutsOf, Expired, Kept, AllNew, Push, EndByResponse;
    match s
    case LoopStep(input) => LoopDiscardsNothing(p, input, x);
    case BootLoopStep(ticks) =>
      var v := Verdicts(p.preBootQueue, ticks);
      KeptOrExpired(p.preBootQueue, v);
      NewRequestsTimeOut(Expired(p.preBootQueue, v));
    case ReceiveStep(request) => PushDiscardsNothing(p.recvQueue, request, x);
    case SendStep(request) => PushDiscardsNothing(p.sendQueue, request, x);
    case SendPreBootStep(request) => PushDiscardsNothing(p.preBootQueue, request, x);
    case _ =>
  }

  lemma {:induction false} OutstandingWasTransmitted(o: Option<nat>, log: seq<Event>)
    requires Outstanding(o, log).Some? && o != Outstanding(o, log)
    ensures Transmitted(Outstanding(o, log).value) in log
    decreases log
  {
    if log != [] && After(o, log[0]) != Outstanding(o, log) {
      OutstandingWasTransmitted(After(o, log[0]), log[1..]);
    }
  }
}
