/**
 The default queue is served first in, first out, over whole runs: timeouts and evictions only leave requests out.
 */
module ProtocolOrder {
  import opened Wrappers
  import opened Requests
  import opened RequestProtocol
  import opened ProtocolBalance
  import opened ProtocolSync
  import opened ProtocolRuns

  ghost predicate Ascending(ids: seq<nat>) {
    forall a, b :: 0 <= a < b < |ids| ==> ids[a] < ids[b]
  }

  ghost predicate Below(ids: seq<nat>, bound: nat) { forall x :: x in ids ==> x < bound }

  function Ids(s: seq<Request>): seq<nat> {
    if s == [] then [] else Ids(s[..|s| - 1]) + [s[|s| - 1].id]
  }

  /** The requests that were fetched from the default queue, in the order in which they were fetched. */
  function Served(log: seq<Event>): seq<nat> {
    if log == [] then []
    else
      var e := log[|log| - 1];
      Served(log[..|log| - 1]) + if e.Fetched? && e.source == DefaultQueue then [e.id] else []
  }

  lemma {:induction false} ServedConcat(a: seq<Event>, b: seq<Event>)
    ensures Served(a + b) == Served(a) + Served(b)
  {
    if b == [] {
      assert a + b == a;
    } else {
      ServedConcat(a, b[..|b| - 1]);
      assert (a + b)[..|a + b| - 1] == a + b[..|b| - 1];
    }
  }

  lemma ServedOfOne(e: Event)
    ensures Served([e]) == if e.Fetched? && e.source == DefaultQueue then [e.id] else []
    ensures Served([]) == []
  {
    assert [e][..0] == [];
  }

  lemma {:induction false} TimeoutsServeNothing(s: seq<Request>)
    ensures Served(TimeoutsOf(s)) == []
  {
    if s != [] {
      TimeoutsServeNothing(s[..|s| - 1]);
      ServedConcat(TimeoutsOf(s[..|s| - 1]), [TimeoutOf(s[|s| - 1])]);
      ServedOfOne(TimeoutOf(s[|s| - 1]));
    }
  }

  lemma {:induction false} IdsTail(s: seq<Request>)
    requires s != []
    ensures Ids(s) == [s[0].id] + Ids(s[1..])
  {
    if |s| > 1 {
      IdsTail(s[..|s| - 1]);
      assert s[..|s| - 1][1..] == s[1..][..|s| - 2];
    }
  }

  lemma IdsSnoc(s: seq<Request>, r: Request)
    ensures Ids(s + [r]) == Ids(s) + [r.id]
  {
    assert (s + [r])[..|s|] == s;
  }

  // ----- the line: requests served already, then those that wait -----

  ghost predicate InLine(served: seq<nat>, queue: seq<Request>, bound: nat) {
    Ascending(served + Ids(queue)) && Below(served + Ids(queue), bound)
  }

  lemma SnocAscends(ids: seq<nat>, x: nat)
    ensures Ascending(ids + [x]) <==> Ascending(ids) && Below(ids, x)
  {
    if Ascending(ids + [x]) {
      forall a, b | 0 <= a < b < |ids| ensures ids[a] < ids[b] {
        assert (ids + [x])[a] < (ids + [x])[b];
      }
      forall y | y in ids ensures y < x {
        var k :| 0 <= k < |ids| && ids[k] == y;
        assert (ids + [x])[k] < (ids + [x])[|ids|];
      }
    }
    assert forall a :: 0 <= a < |ids| ==> ids[a] in ids;
  }

  lemma SnocBelow(ids: seq<nat>, x: nat, bound: nat)
    ensures Below(ids + [x], bound) <==> Below(ids, bound) && x < bound
  {
    assert x in ids + [x];
    assert forall y :: y in ids ==> y in ids + [x];
  }

  /** One more waits at the end. */
  lemma LineGrows(served: seq<nat>, queue: seq<Request>, r: Request, bound: nat)
    ensures InLine(served, queue + [r], bound) <==> InLine(served, queue, r.id) && r.id < bound
  {
    hide Ascending, Below, Ids;
    IdsSnoc(queue, r);
    assert served + Ids(queue + [r]) == served + Ids(queue) + [r.id];
    SnocAscends(served + Ids(queue), r.id);
    SnocBelow(served + Ids(queue), r.id, bound);
    BelowLater(served + Ids(queue), r.id, bound);
  }

  lemma BelowLater(ids: seq<nat>, bound: nat, later: nat)
    ensures Below(ids, bound) && bound <= later ==> Below(ids, later)
  {
  }

  lemma LineLater(served: seq<nat>, queue: seq<Request>, bound: nat, later: nat)
    requires InLine(served, queue, bound) && bound <= later
    ensures InLine(served, queue, later)
  {
    BelowLater(served + Ids(queue), bound, later);
  }

  lemma {:induction false} TimeoutsKeepLine(served: seq<nat>, s: seq<Request>, v: seq<bool>, bound: nat)
    requires |s| == |v| && InLine(served, s, bound)
    ensures InLine(served, Kept(s, v), bound)
  {
    if s != [] {
      hide InLine;
      var n := |s| - 1;
      assert s == s[..n] + [s[n]];
      LineGrows(served, s[..n], s[n], bound);
      TimeoutsKeepLine(served, s[..n], v[..n], s[n].id);
      if v[n] {
        assert Kept(s, v) == Kept(s[..n], v[..n]);
        LineLater(served, Kept(s, v), s[n].id, bound);
      } else {
        LineGrows(served, Kept(s[..n], v[..n]), s[n], bound);
      }
    }
  }

  /** The first one in the queue is served next. */
  lemma LineMoves(served: seq<nat>, queue: seq<Request>, bound: nat)
    requires queue != [] && InLine(served, queue, bound)
    ensures InLine(served + [queue[0].id], queue[1..], bound)
  {
    hide Ascending, Below, Ids;
    IdsTail(queue);
    assert served + Ids(queue) == served + [queue[0].id] + Ids(queue[1..]);
  }

  lemma LineLoses(served: seq<nat>, queue: seq<Request>, bound: nat)
    requires queue != [] && InLine(served, queue, bound)
    ensures InLine(served, queue[1..], bound)
  {
    hide Ids;
    IdsTail(queue);
    var before, after := served + Ids(queue), served + Ids(queue[1..]);
    forall a, b | 0 <= a < b < |after| ensures after[a] < after[b] {
      var x, y := if a < |served| then a else a + 1, if b < |served| then b else b + 1;
      assert before[x] == after[a] && before[y] == after[b];
    }
    assert forall x :: x in after ==> x in before;
  }

  // ----- one step -----

  lemma FrontServesNothing(front: Option<Request>, expired: bool)
    ensures Served(ExpireFront(front, expired).1) == []
  {
    hide Served;
    ServedOfOne(if front.Some? then TimeoutOf(front.value) else BootAccepted);
  }

  lemma DropKeepsLine(served: seq<nat>, p: Protocol, sendExpired: bool, recvExpired: bool, v: seq<bool>, bound: nat)
    requires |v| == |p.sendQueue| && InLine(served, p.sendQueue, bound)
    ensures var r := DropTimedOut(p, sendExpired, recvExpired, v);
            Served(r.1) == [] && InLine(served, r.0.sendQueue, bound)
  {
    hide Served, InLine, ExpireFront, Kept, Expired;
    FrontServesNothing(p.sendFront, sendExpired);
    FrontServesNothing(p.recvFront, recvExpired);
    TimeoutsServeNothing(Expired(p.sendQueue, v));
    TimeoutsKeepLine(served, p.sendQueue, v, bound);
    var e1, e2 := ExpireFront(p.sendFront, sendExpired).1, ExpireFront(p.recvFront, recvExpired).1;
    ServedConcat(e1, e2);
    ServedConcat(e1 + e2, TimeoutsOf(Expired(p.sendQueue, v)));
  }

  lemma RespondServesNothing(p: Protocol, i: LoopInput)
    ensures Served(Respond(p, i).1) == [] && Respond(p, i).0.sendQueue == p.sendQueue
  {
    hide Served;
    var e := Respond(p, i).1;
    ServedOfOne(if e != [] then e[0] else BootAccepted);
  }

  lemma FetchKeepsLine(served: seq<nat>, p: Protocol, i: LoopInput, bound: nat)
    requires InLine(served, p.sendQueue, bound)
    ensures var r := FetchNext(p, i); InLine(served + Served(r.1), r.0.sendQueue, bound)
  {
    hide Served, InLine, Heads;
    var e := FetchNext(p, i).1;
    ServedOfOne(if e != [] then e[0] else BootAccepted);
    if p.sendQueue != [] {
      LineMoves(served, p.sendQueue, bound);
    }
    assert served + [] == served;
  }

  lemma TransmitServesNothing(p: Protocol, i: LoopInput)
    ensures Served(Transmit(p, i).1) == [] && Transmit(p, i).0.sendQueue == p.sendQueue
  {
    hide Served;
    var e := Transmit(p, i).1;
    ServedOfOne(if e != [] then e[0] else BootAccepted);
  }

  lemma LoopKeepsLine(served: seq<nat>, p: Protocol, i: LoopInput, bound: nat)
    requires InLine(served, p.sendQueue, bound)
    ensures InLine(served + Served(Loop(p, i).1), Loop(p, i).0.sendQueue, bound)
  {
    hide Served, InLine, DropTimedOut, Respond, FetchNext, Transmit;
    var sendExpired, recvExpired := FrontVerdict(p.sendFront, i.sendTick), FrontVerdict(p.recvFront, i.recvTick);
    var v := Verdicts(p.sendQueue, i.queueTicks);
    var (p1, e1) := DropTimedOut(p, sendExpired, recvExpired, v);
    DropKeepsLine(served, p, sendExpired, recvExpired, v, bound);
    assert served + [] == served;
    if i.connected {
      var (p2, e2, done) := Respond(p1, i);
      RespondServesNothing(p1, i);
      ServedConcat(e1, e2);
      if !done {
        var (p3, e3) := FetchNext(p2, i);
        FetchKeepsLine(served, p2, i, bound);
        ServedConcat(e1 + e2, e3);
        var (p4, e4) := Transmit(p3, i);
        TransmitServesNothing(p3, i);
        ServedConcat(e1 + e2 + e3, e4);
        assert Served(e1 + e2 + e3 + e4) == Served(e3);
      }
    }
  }

  lemma PushServesNothing(q: seq<Request>, r: Request)
    ensures Served(Push(q, r).1) == []
  {
    hide Served;
    ServedOfOne(Queued(r.id));
    if |q| >= CACHE_MAXSIZE {
      ServedOfOne(TimeoutOf(q[0]));
      ServedConcat([TimeoutOf(q[0])], [Queued(r.id)]);
      assert [TimeoutOf(q[0])] + [Queued(r.id)] == [TimeoutOf(q[0]), Queued(r.id)];
    }
  }

  lemma PushKeepsLine(served: seq<nat>, q: seq<Request>, r: Request)
    requires InLine(served, q, r.id)
    ensures InLine(served, Push(q, r).0, r.id + 1)
  {
    hide InLine;
    if |q| >= CACHE_MAXSIZE {
      LineLoses(served, q, r.id);
      LineGrows(served, q[1..], r, r.id + 1);
    } else {
      LineGrows(served, q, r, r.id + 1);
    }
  }

  lemma OtherStepServesNothing(p: Protocol, s: Step)
    requires !s.LoopStep? && !s.SendStep?
    ensures Served(Do(p, s).1) == [] && Do(p, s).0.sendQueue == p.sendQueue
  {
    hide Served, Push, Kept, Expired, EndByResponse;
    ServedOfOne(BootAccepted);
    match s
    case ResponseStep(response) =>
      ServedOfOne(ResponseReceived);
      if p.sendFront.Some? {
        ServedOfOne(EndByResponse(p.sendFront.value, response));
        ServedConcat([ResponseReceived], [EndByResponse(p.sendFront.value, response)]);
      }
    case ReceiveStep(request) => PushServesNothing(p.recvQueue, request);
    case SendPreBootStep(request) => PushServesNothing(p.preBootQueue, request);
    case BootLoopStep(ticks) => TimeoutsServeNothing(Expired(p.preBootQueue, Verdicts(p.preBootQueue, ticks)));
    case NotifyStep(status) =>
  }

  // ----- runs -----

  /** The requests that this side sends are numbered in the order in which they are sent, from bound on. */
  ghost predicate Numbered(ss: seq<Step>, bound: nat) {
    && (forall k :: 0 <= k < |ss| && ss[k].SendStep? ==> bound <= ss[k].request.id)
    && (forall a, b :: 0 <= a < b < |ss| && ss[a].SendStep? && ss[b].SendStep? ==> ss[a].request.id < ss[b].request.id)
  }

  lemma StepKeepsLine(w: World, s: Step, bound: nat)
    requires InLine(Served(w.log), w.p.sendQueue, bound) && (s.SendStep? ==> bound <= s.request.id)
    ensures var z := Next(w, s); InLine(Served(z.log), z.p.sendQueue, if s.SendStep? then s.request.id + 1 else bound)
  {
    hide Served, InLine, Loop, Push;
    var served := Served(w.log);
    ServedConcat(w.log, Events(w, s));
    assert served + [] == served;
    if s.LoopStep? {
      LoopKeepsLine(served, w.p, s.input, bound);
    } else if s.SendStep? {
      LineLater(served, w.p.sendQueue, bound, s.request.id);
      PushServesNothing(w.p.sendQueue, s.request);
      PushKeepsLine(served, w.p.sendQueue, s.request);
    } else {
      OtherStepServesNothing(w.p, s);
    }
  }

  /** The next number that may be given out after i steps. */
  function NextNumber(ss: seq<Step>, i: nat): nat
    requires i <= |ss|
  {
    if i == 0 then 0 else if ss[i - 1].SendStep? then ss[i - 1].request.id + 1 else NextNumber(ss, i - 1)
  }

  lemma {:induction false} NumbersAscend(ss: seq<Step>, i: nat, k: nat)
    requires Numbered(ss, 0) && i <= k < |ss| && ss[k].SendStep?
    ensures NextNumber(ss, i) <= ss[k].request.id
    decreases i
  {
    if i > 0 {
      NumbersAscend(ss, i - 1, k);
    }
  }

  lemma {:induction false} RunKeepsLine(ws: seq<World>, ss: seq<Step>, i: nat)
    requires Run(ws, ss) && i < |ws| && Numbered(ss, 0)
    ensures InLine(Served(ws[i].log), ws[i].p.sendQueue, NextNumber(ss, i))
    decreases i
  {
    hide InLine, Next, Enabled, Served;
    if i == 0 {
      EmptyLine();
    } else {
      RunKeepsLine(ws, ss, i - 1);
      if ss[i - 1].SendStep? {
        NumbersAscend(ss, i - 1, i - 1);
      }
      StepKeepsLine(ws[i - 1], ss[i - 1], NextNumber(ss, i - 1));
    }
  }

  lemma EmptyLine()
    ensures InLine(Served([]), [], 0)
  {
  }

  /**
   Requests are fetched from the default queue in the order in which they were sent, and those that still wait
   were sent after all of them, in the order of the queue.
   */
  lemma DefaultQueueIsFifo(ws: seq<World>, ss: seq<Step>, i: nat)
    requires Run(ws, ss) && i < |ws| && Numbered(ss, 0)
    ensures Ascending(Served(ws[i].log) + Ids(ws[i].p.sendQueue))
  {
    hide Served, Ids, Ascending, Below;
    RunKeepsLine(ws, ss, i);
  }
}
