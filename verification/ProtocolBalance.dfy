/**
 What one step of the request protocol does to each request: requests come in, are held in one place, and
 end. Counting them per request shows that none is lost, duplicated, or transmitted twice.
 */
module ProtocolBalance {
  import opened Wrappers
  import opened Requests
  import opened RequestProtocol

  // ----- where a request is, and what happened to it -----

  function InFront(front: Option<Request>, x: nat): nat {
    if front.Some? && front.value.id == x then 1 else 0
  }

  function Copies(s: seq<Request>, x: nat): nat {
    if s == [] then 0 else Copies(s[..|s| - 1], x) + InFront(Some(s[|s| - 1]), x)
  }

  /** In how many places request x is held. */
  function Live(p: Protocol, x: nat): nat {
    InFront(p.sendFront, x) + InFront(p.recvFront, x)
    + Copies(p.sendQueue, x) + Copies(p.recvQueue, x) + Copies(p.preBootQueue, x)
  }

  /** How often request x came in, ended, was transmitted, and had its final listeners called. */
  datatype Tally = Tally(entered: nat, ended: nat, transmitted: nat, notified: nat)

  predicate Notifies(end: End) { end in {TimedOut, Confirmed, Aborted} }

  function Count(e: Event, x: nat): Tally {
    match e
    case Queued(id) => Tally(if id == x then 1 else 0, 0, 0, 0)
    case Fetched(id, source) => Tally(if id == x && source == OtherQueue then 1 else 0, 0, 0, 0)
    case Transmitted(id) => Tally(0, 0, if id == x then 1 else 0, 0)
    case Ended(id, end) => Tally(0, if id == x then 1 else 0, 0, if id == x && Notifies(end) then 1 else 0)
    case _ => Tally(0, 0, 0, 0)
  }

  function Plus(a: Tally, b: Tally): Tally {
    Tally(a.entered + b.entered, a.ended + b.ended, a.transmitted + b.transmitted, a.notified + b.notified)
  }

  function History(log: seq<Event>, x: nat): Tally {
    if log == [] then Tally(0, 0, 0, 0) else Plus(History(log[..|log| - 1], x), Count(log[|log| - 1], x))
  }

  lemma HistorySnoc(log: seq<Event>, e: Event, x: nat)
    ensures History(log + [e], x) == Plus(History(log, x), Count(e, x))
  {
    hide Plus, Count;
    assert (log + [e])[..|log|] == log;
  }

  lemma PlusLaws(a: Tally, b: Tally, c: Tally)
    ensures Plus(a, Plus(b, c)) == Plus(Plus(a, b), c)
    ensures Plus(a, Tally(0, 0, 0, 0)) == a
  {
  }

  lemma {:induction false} HistoryConcat(a: seq<Event>, b: seq<Event>, x: nat)
    ensures History(a + b, x) == Plus(History(a, x), History(b, x))
  {
    hide Plus, Count;
    if b == [] {
      assert a + b == a;
      PlusLaws(History(a, x), History(b, x), History(b, x));
    } else {
      hide History;
      var init, last := b[..|b| - 1], b[|b| - 1];
      HistoryConcat(a, init, x);
      HistorySnoc(a + init, last, x);
      HistorySnoc(init, last, x);
      PlusLaws(History(a, x), History(init, x), Count(last, x));
      assert b == init + [last] && a + b == (a + init) + [last];
    }
  }

  lemma HistoryOfOne(e: Event, x: nat)
    ensures History([e], x) == Count(e, x) && History([], x) == Tally(0, 0, 0, 0)
  {
    assert [e][..0] == [];
  }

  lemma {:induction false} NotifiedIsEnd(log: seq<Event>, x: nat)
    ensures History(log, x).notified <= History(log, x).ended
  {
    if log != [] {
      NotifiedIsEnd(log[..|log| - 1], x);
    }
  }

  // ----- one step keeps the balance -----

  /** 1 if x is the request that was transmitted and waits for its response. */
  function Awaited(p: Protocol, x: nat): nat {
    if p.sendFront.Some? && p.sendFront.value.sent then InFront(p.sendFront, x) else 0
  }

  /**
   Events e lead from p to q: a request is held, or it has ended, as often as it came in; and it is
   transmitted only if it is then awaited or has ended. It comes in at most n times.
   */
  ghost predicate Balanced(p: Protocol, q: Protocol, e: seq<Event>, x: nat, n: nat) {
    var h := History(e, x);
    && h.entered <= n
    && Live(q, x) + h.ended == Live(p, x) + h.entered
    && h.transmitted + Awaited(p, x) <= h.ended + Awaited(q, x)
  }

  lemma BalancedInSequence(p: Protocol, q: Protocol, r: Protocol, e: seq<Event>, f: seq<Event>, x: nat, m: nat, n: nat)
    requires Balanced(p, q, e, x, m) && Balanced(q, r, f, x, n)
    ensures Balanced(p, r, e + f, x, m + n)
  {
    hide History, Copies;
    HistoryConcat(e, f, x);
  }

  lemma MoreMayEnter(p: Protocol, q: Protocol, e: seq<Event>, x: nat, n: nat)
    requires Balanced(p, q, e, x, 0)
    ensures Balanced(p, q, e, x, n)
  {
  }

  lemma {:induction false} CopiesTail(s: seq<Request>, x: nat)
    requires s != []
    ensures Copies(s, x) == InFront(Some(s[0]), x) + Copies(s[1..], x)
  {
    if |s| > 1 {
      CopiesTail(s[..|s| - 1], x);
      assert s[..|s| - 1][1..] == s[1..][..|s| - 2];
    }
  }

  lemma CopiesSnoc(s: seq<Request>, r: Request, x: nat)
    ensures Copies(s + [r], x) == Copies(s, x) + InFront(Some(r), x)
  {
    assert (s + [r])[..|s|] == s;
  }

  lemma TimeoutsSnoc(s: seq<Request>, r: Request, x: nat)
    ensures TimeoutsOf(s + [r]) == TimeoutsOf(s) + [TimeoutOf(r)]
    ensures History(TimeoutsOf(s + [r]), x) == Plus(History(TimeoutsOf(s), x), Count(TimeoutOf(r), x))
  {
    assert (s + [r])[..|s|] == s;
    HistoryConcat(TimeoutsOf(s), [TimeoutOf(r)], x);
    HistoryOfOne(TimeoutOf(r), x);
  }

  /** A queue loses as many copies of x as the timeouts report. */
  lemma {:induction false} LoopBalances(s: seq<Request>, v: seq<bool>, x: nat)
    requires |s| == |v|
    ensures var h := History(TimeoutsOf(Expired(s, v)), x);
            Copies(Kept(s, v), x) + h.ended == Copies(s, x) && h.entered == 0 && h.transmitted == 0
  {
    if s == [] {
      HistoryOfOne(BootAccepted, x);
    } else {
      hide History;
      var n := |s| - 1;
      LoopBalances(s[..n], v[..n], x);
      if v[n] {
        TimeoutsSnoc(Expired(s[..n], v[..n]), s[n], x);
        assert Kept(s, v) == Kept(s[..n], v[..n]);
      } else {
        CopiesSnoc(Kept(s[..n], v[..n]), s[n], x);
        assert Expired(s, v) == Expired(s[..n], v[..n]);
      }
    }
  }

  lemma FrontBalances(front: Option<Request>, expired: bool, x: nat)
    ensures var r := ExpireFront(front, expired); var h := History(r.1, x);
            InFront(r.0, x) + h.ended == InFront(front, x) && h.entered == 0 && h.transmitted == 0
  {
    hide History, Copies;
    HistoryOfOne(if front.Some? then TimeoutOf(front.value) else BootAccepted, x);
  }

  lemma DropBalances(p: Protocol, sendExpired: bool, recvExpired: bool, v: seq<bool>, x: nat)
    requires |v| == |p.sendQueue|
    ensures var r := DropTimedOut(p, sendExpired, recvExpired, v); Balanced(p, r.0, r.1, x, 0)
  {
    hide History, Copies;
    FrontBalances(p.sendFront, sendExpired, x);
    FrontBalances(p.recvFront, recvExpired, x);
    LoopBalances(p.sendQueue, v, x);
    var e1, e2 := ExpireFront(p.sendFront, sendExpired).1, ExpireFront(p.recvFront, recvExpired).1;
    HistoryConcat(e1, e2, x);
    HistoryConcat(e1 + e2, TimeoutsOf(Expired(p.sendQueue, v)), x);
  }

  lemma RespondBalances(p: Protocol, i: LoopInput, x: nat)
    ensures Balanced(p, Respond(p, i).0, Respond(p, i).1, x, 0)
  {
    hide History, Copies;
    if p.recvQueue != [] {
      CopiesTail(p.recvQueue, x);
    }
    var q := if p.recvFront.None? && p.recvQueue != []
             then p.(recvFront := Some(p.recvQueue[0]), recvQueue := p.recvQueue[1..]) else p;
    HistoryOfOne(if q.recvFront.Some? then Ended(q.recvFront.value.id, Answered) else BootAccepted, x);
  }

  lemma FetchBalances(p: Protocol, i: LoopInput, x: nat)
    ensures Balanced(p, FetchNext(p, i).0, FetchNext(p, i).1, x, InFront(i.otherRequest, x))
  {
    hide History, Copies;
    var e := FetchNext(p, i).1;
    HistoryOfOne(if e != [] then e[0] else BootAccepted, x);
    if p.sendQueue != [] {
      CopiesTail(p.sendQueue, x);
    }
    if p.preBootQueue != [] {
      CopiesTail(p.preBootQueue, x);
    }
  }

  lemma TransmitBalances(p: Protocol, i: LoopInput, x: nat)
    ensures Balanced(p, Transmit(p, i).0, Transmit(p, i).1, x, 0)
  {
    hide History, Copies;
    HistoryOfOne(if p.sendFront.Some? then Transmitted(p.sendFront.value.id) else BootAccepted, x);
  }

  lemma RequestLoopBalances(p: Protocol, i: LoopInput, x: nat)
    ensures Balanced(p, Loop(p, i).0, Loop(p, i).1, x, InFront(i.otherRequest, x))
  {
    hide Balanced, DropTimedOut, Respond, FetchNext, Transmit;
    var sendExpired, recvExpired := FrontVerdict(p.sendFront, i.sendTick), FrontVerdict(p.recvFront, i.recvTick);
    var v := Verdicts(p.sendQueue, i.queueTicks);
    var (p1, e1) := DropTimedOut(p, sendExpired, recvExpired, v);
    DropBalances(p, sendExpired, recvExpired, v, x);
    MoreMayEnter(p, p1, e1, x, InFront(i.otherRequest, x));
    if i.connected {
      var (p2, e2, done) := Respond(p1, i);
      RespondBalances(p1, i, x);
      BalancedInSequence(p, p1, p2, e1, e2, x, 0, 0);
      MoreMayEnter(p, p2, e1 + e2, x, InFront(i.otherRequest, x));
      if !done {
        var (p3, e3) := FetchNext(p2, i);
        FetchBalances(p2, i, x);
        BalancedInSequence(p, p2, p3, e1 + e2, e3, x, 0, InFront(i.otherRequest, x));
        var (p4, e4) := Transmit(p3, i);
        TransmitBalances(p3, i, x);
        BalancedInSequence(p, p3, p4, e1 + e2 + e3, e4, x, InFront(i.otherRequest, x), 0);
      }
    }
  }

  lemma HistoryOfTwo(e: Event, f: Event, x: nat)
    ensures History([e] + [f], x) == Plus(Count(e, x), Count(f, x))
  {
    hide History, Count;
    HistoryOfOne(e, x);
    HistoryOfOne(f, x);
    HistoryConcat([e], [f], x);
  }

  lemma ResponseHistory(p: Protocol, m: Response, x: nat)
    ensures var h := History(ReceiveResponse(p, m).1, x);
            h == Tally(0, InFront(p.sendFront, x), 0, h.notified)
  {
    hide History, EndByResponse;
    HistoryOfOne(ResponseReceived, x);
    if p.sendFront.Some? {
      HistoryOfTwo(ResponseReceived, EndByResponse(p.sendFront.value, m), x);
    }
  }

  lemma ResponseBalances(p: Protocol, m: Response, x: nat)
    ensures Balanced(p, ReceiveResponse(p, m).0, ReceiveResponse(p, m).1, x, 0)
  {
    hide History, Copies, EndByResponse;
    ResponseHistory(p, m, x);
  }

  lemma PushBalances(q: seq<Request>, r: Request, x: nat)
    ensures var after := Push(q, r); var h := History(after.1, x);
            && Copies(after.0, x) + h.ended == Copies(q, x) + h.entered && h.transmitted == 0
            && h.entered == InFront(Some(r), x)
  {
    hide History;
    HistoryOfOne(Queued(r.id), x);
    if |q| >= CACHE_MAXSIZE {
      CopiesTail(q, x);
      CopiesSnoc(q[1..], r, x);
      HistoryOfTwo(TimeoutOf(q[0]), Queued(r.id), x);
      assert [TimeoutOf(q[0])] + [Queued(r.id)] == [TimeoutOf(q[0]), Queued(r.id)];
    } else {
      CopiesSnoc(q, r, x);
    }
  }

  lemma BootLoopBalances(p: Protocol, v: seq<bool>, x: nat)
    requires |v| == |p.preBootQueue|
    ensures Balanced(p, BootLoop(p, v).0, BootLoop(p, v).1, x, 0)
  {
    hide History, Copies;
    LoopBalances(p.preBootQueue, v, x);
  }

  lemma SendBalances(p: Protocol, s: Step, x: nat)
    requires s.ReceiveStep? || s.SendStep? || s.SendPreBootStep?
    ensures Balanced(p, Do(p, s).0, Do(p, s).1, x, InFront(Some(s.request), x))
  {
    hide History, Copies, Push;
    PushBalances(if s.ReceiveStep? then p.recvQueue else if s.SendStep? then p.sendQueue else p.preBootQueue,
                 s.request, x);
  }

  lemma NotifyBalances(p: Protocol, accepted: bool, x: nat)
    ensures Balanced(p, Notify(p, accepted).0, Notify(p, accepted).1, x, 0)
  {
    hide History, Copies;
    HistoryOfOne(BootAccepted, x);
  }

  /** The request that a step brings in, from this side, from the server or from another emitter. */
  function NewRequest(s: Step): Option<Request> {
    match s
    case LoopStep(input) => input.otherRequest
    case ReceiveStep(request) => Some(request)
    case SendStep(request) => Some(request)
    case SendPreBootStep(request) => Some(request)
    case _ => None
  }

  lemma StepBalances(p: Protocol, s: Step, x: nat)
    ensures Balanced(p, Do(p, s).0, Do(p, s).1, x, InFront(NewRequest(s), x))
  {
    hide Balanced, Loop, BootLoop, ReceiveResponse, Push, Notify;
    match s
    case LoopStep(input) => RequestLoopBalances(p, input, x);
    case ResponseStep(response) => ResponseBalances(p, response, x);
    case BootLoopStep(ticks) => BootLoopBalances(p, Verdicts(p.preBootQueue, ticks), x);
    case NotifyStep(status) => NotifyBalances(p, status, x);
    case _ => SendBalances(p, s, x);
  }
}
