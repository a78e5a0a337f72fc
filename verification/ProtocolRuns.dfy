/**
 Whole runs of the request protocol: any order of loop() calls, incoming messages, new requests, and calls
 of the boot service, with any ticks and any results of the connection.
 */
module ProtocolRuns {
  import opened Wrappers
  import opened Requests
  import opened RequestProtocol
  import opened ProtocolBalance
  import opened ProtocolSync
  import opened Selection

  /** The protocol state and everything that was observed so far. */
  datatype World = World(p: Protocol, log: seq<Event>)

  /** No request is queued and the BootNotification was not accepted; the pre-boot queue is registered. */
  const START := World(Protocol(None, None, [], [], [], false, false), [])

  /** A request that comes in is a new object. */
  ghost predicate Enabled(w: World, s: Step) {
    && BringsNew(s)
    && (NewRequest(s).Some? ==> History(w.log, NewRequest(s).value.id).entered == 0)
  }

  /** The events of a step. */
  function Events(w: World, s: Step): seq<Event> { Do(w.p, s).1 }

  function Next(w: World, s: Step): World { World(Do(w.p, s).0, w.log + Events(w, s)) }

  /** ws are the states of a run that takes steps ss, one after the other. */
  ghost predicate Run(ws: seq<World>, ss: seq<Step>) {
    && |ws| == |ss| + 1
    && ws[0] == START
    && forall i :: 0 <= i < |ss| ==> Enabled(ws[i], ss[i]) && ws[i + 1] == Next(ws[i], ss[i])
  }

  // ----- every request is in one place -----

  /** Request x came in at most once, and then it is held in one place or it has ended once. */
  ghost predicate Accounted(w: World, x: nat) {
    var h := History(w.log, x);
    Live(w.p, x) + h.ended == h.entered <= 1 && h.transmitted <= h.ended + Awaited(w.p, x)
  }

  lemma StartIsAccounted(x: nat)
    ensures Accounted(START, x)
  {
  }

  lemma StepAccounts(w: World, s: Step, x: nat)
    requires Enabled(w, s) && Accounted(w, x)
    ensures Accounted(Next(w, s), x)
  {
    hide History, Live, Do, Awaited, BringsNew;
    StepBalances(w.p, s, x);
    HistoryConcat(w.log, Events(w, s), x);
  }

  lemma {:induction false} RunAccounts(ws: seq<World>, ss: seq<Step>, i: nat, x: nat)
    requires Run(ws, ss) && i < |ws|
    ensures Accounted(ws[i], x)
    decreases i
  {
    hide Accounted, Next, Enabled;
    if i == 0 {
      StartIsAccounted(x);
    } else {
      RunAccounts(ws, ss, i - 1, x);
      StepAccounts(ws[i - 1], ss[i - 1], x);
    }
  }

  /**
   Every request that came in is in exactly one of these situations: it waits in one queue, it is being
   sent, it is being answered, or it has ended; and it ends once. At most one of its confirmation, error and
   timeout listeners is called, and it is transmitted at most once.
   */
  lemma RequestIsInOnePlace(ws: seq<World>, ss: seq<Step>, i: nat, x: nat)
    requires Run(ws, ss) && i < |ws|
    ensures var h, live := History(ws[i].log, x), Live(ws[i].p, x);
            && h.entered <= 1
            && (h.entered == 0 ==> live == 0 && h.ended == 0 && h.transmitted == 0)
            && (h.entered == 1 ==> (live == 1 && h.ended == 0) || (live == 0 && h.ended == 1))
            && h.notified <= h.ended && h.transmitted <= 1
  {
    RunAccounts(ws, ss, i, x);
    NotifiedIsEnd(ws[i].log, x);
  }

  // ----- one outstanding request -----

  ghost predicate InSync(w: World) {
    && Tidy(w.p)
    && Outstanding(None, w.log) == Pending(w.p)
    && Synchronous(None, w.log)
  }

  lemma PendingIsUnique(w: World)
    requires Pending(w.p).Some? ==> Accounted(w, Pending(w.p).value)
    ensures Unique(w.p)
  {
    hide Copies;
  }

  lemma StepKeepsSync(w: World, s: Step)
    requires Enabled(w, s) && InSync(w) && Unique(w.p)
    ensures InSync(Next(w, s))
  {
    hide Do, Outstanding, Synchronous, Tidy, Unique, BringsNew;
    StepFollows(w.p, s);
    OutstandingConcat(None, w.log, Events(w, s));
  }

  lemma {:induction false} RunKeepsSync(ws: seq<World>, ss: seq<Step>, i: nat)
    requires Run(ws, ss) && i < |ws|
    ensures InSync(ws[i]) && Unique(ws[i].p)
    decreases i
  {
    hide InSync, Accounted, Unique, Enabled, Next;
    if Pending(ws[i].p).Some? {
      RunAccounts(ws, ss, i, Pending(ws[i].p).value);
    }
    PendingIsUnique(ws[i]);
    if i == 0 {
      StartIsInSync();
    } else {
      RunKeepsSync(ws, ss, i - 1);
      StepKeepsSync(ws[i - 1], ss[i - 1]);
    }
  }

  lemma StartIsInSync()
    ensures InSync(START)
  {
  }

  /** What releases request id: any response from the server, or its own timeout. */
  predicate Releases(e: Event, id: nat) { e == ResponseReceived || e == Ended(id, TimedOut) }

  lemma {:induction false} OutstandingUntilReleased(o: Option<nat>, log: seq<Event>, k: nat)
    requires Synchronous(o, log) && o.Some? && k < |log| && log[k].Transmitted?
    ensures exists m :: 0 <= m < k && Releases(log[m], o.value)
    decreases k
  {
    if k > 0 && !Releases(log[0], o.value) {
      assert !log[0].Transmitted?;
      OutstandingUntilReleased(After(o, log[0]), log[1..], k - 1);
      var m :| 0 <= m < k - 1 && Releases(log[1..][m], o.value);
      assert Releases(log[m + 1], o.value);
    } else if k > 0 {
      assert Releases(log[0], o.value);
    }
  }

  lemma {:induction false} SynchronousFrom(o: Option<nat>, log: seq<Event>, j: nat)
    requires Synchronous(o, log) && j <= |log|
    ensures Synchronous(Outstanding(o, log[..j]), log[j..])
  {
    assert log[..j] + log[j..] == log;
    OutstandingConcat(o, log[..j], log[j..]);
  }

  /**
   Between any two transmissions of a run there is a response from the server or the timeout of the first
   request. This is the synchronicity of section 4.1.1 of OCPP-J 1.6.
   */
  lemma OneRequestAtATime(ws: seq<World>, ss: seq<Step>, i: nat, j: nat, k: nat)
    requires Run(ws, ss) && i < |ws|
    requires var log := ws[i].log; j < k < |log| && log[j].Transmitted? && log[k].Transmitted?
    ensures var log := ws[i].log; exists m :: j < m < k && Releases(log[m], log[j].id)
  {
    var log := ws[i].log;
    RunKeepsSync(ws, ss, i);
    SynchronousFrom(None, log, j);
    var rest := log[j..];
    assert rest[0] == log[j] && rest[1..] == log[j + 1..] && log[j + 1..][k - j - 1] == log[k];
    OutstandingUntilReleased(Some(log[j].id), rest[1..], k - j - 1);
    var m :| 0 <= m < k - j - 1 && Releases(rest[1..][m], log[j].id);
    assert Releases(log[j + 1 + m], log[j].id);
  }

  // ----- pre-boot gating -----

  ghost predicate Booted(w: World) { w.p.accepted || w.p.activated ==> BootAccepted in w.log }

  lemma StepKeepsBooted(w: World, s: Step)
    requires Booted(w)
    ensures Booted(Next(w, s))
  {
    hide DropTimedOut, Respond, FetchNext, Transmit, Kept, Expired, TimeoutsOf, Push, Verdicts;
    StepKeepsFlags(w.p, s);
  }

  lemma {:induction false} RunKeepsBooted(ws: seq<World>, ss: seq<Step>, i: nat)
    requires Run(ws, ss) && i < |ws|
    ensures Booted(ws[i])
    decreases i
  {
    hide Enabled, Next, Booted;
    if i == 0 {
      StartIsBooted();
    } else {
      RunKeepsBooted(ws, ss, i - 1);
      StepKeepsBooted(ws[i - 1], ss[i - 1]);
    }
  }

  lemma StartIsBooted()
    ensures Booted(START)
  {
  }

  /**
   When a step fetches a request from any queue but the pre-boot queue, a BootNotification was accepted
   before. This is the requirement of section 4.2 of OCPP 1.6.
   */
  lemma NothingIsFetchedBeforeBoot(ws: seq<World>, ss: seq<Step>, i: nat, e: Event)
    requires Run(ws, ss) && i < |ss| && e in Events(ws[i], ss[i]) && IsPostBoot(e)
    ensures BootAccepted in ws[i].log
  {
    hide Do;
    RunKeepsBooted(ws, ss, i);
    if !ws[i].p.activated {
      StepFetchesFromPreBootOnly(ws[i].p, ss[i]);
    }
  }

  // ----- responses that do not belong to the pending request -----

  /** The response ends the request that is being sent with a call of its listeners. */
  predicate Settles(m: Response) {
    m.matches && (m.messageType == CallResult || (m.messageType == CallError && m.abort))
  }

  /**
   A request ends without a call of its listeners exactly if a response comes in while the request is being
   sent, and the response has another message ID, or is an error for which the operation wants a retry.
   */
  lemma EndsSilentlyIff(ws: seq<World>, ss: seq<Step>, i: nat, x: nat)
    requires Run(ws, ss) && i < |ss|
    ensures Ended(x, Discarded) in Events(ws[i], ss[i])
            <==> ss[i].ResponseStep? && InFront(ws[i].p.sendFront, x) == 1 && !Settles(ss[i].response)
  {
    hide Do;
    RunKeepsSync(ws, ss, i);
    StepDiscards(ws[i].p, ss[i], x);
  }

  lemma {:induction false} TransmittedIsCounted(log: seq<Event>, x: nat)
    requires Transmitted(x) in log
    ensures History(log, x).transmitted >= 1
  {
    var n := |log| - 1;
    if log[n] != Transmitted(x) {
      assert log == log[..n] + [log[n]];
      TransmittedIsCounted(log[..n], x);
    }
  }

  /**
   Every response takes the request at the front away. The request was never transmitted if and only if it
   is still marked as unsent, so a late response to an earlier request drops the next one.
   */
  lemma ResponseDropsUnsentIff(ws: seq<World>, ss: seq<Step>, i: nat)
    requires Run(ws, ss) && i < |ss| && ss[i].ResponseStep? && ws[i].p.sendFront.Some?
    ensures var r := ws[i].p.sendFront.value; var h := History(ws[i + 1].log, r.id);
            ws[i + 1].p.sendFront.None? && h.ended == 1 && (h.transmitted == 0 <==> !r.sent)
  {
    hide History, Copies;
    var r := ws[i].p.sendFront.value;
    RunAccounts(ws, ss, i, r.id);
    RunAccounts(ws, ss, i + 1, r.id);
    RunKeepsSync(ws, ss, i);
    ResponseHistory(ws[i].p, ss[i].response, r.id);
    HistoryConcat(ws[i].log, Events(ws[i], ss[i]), r.id);
    if r.sent {
      OutstandingWasTransmitted(None, ws[i].log);
      TransmittedIsCounted(ws[i].log, r.id);
    }
  }

  // ----- a run in which a late response drops the next request -----

  const FIRST := Request(1, 0, 10, false, false)
  const SECOND := Request(2, 0, 0, false, false)
  const LATE := Response(false, CallResult, false)

  /** At that tick, with a connection that sends or does not send. */
  function At(tick: nat, sends: bool): LoopInput {
    LoopInput(tick, tick, _ => tick, true, false, false, [], None, true, sends)
  }

  /** FIRST is sent and times out, and SECOND waits at the front to be sent. */
  const WAITING := Protocol(Some(SECOND), None, [], [], [], false, false)

  lemma PreBootIsFirst(p: Protocol, i: LoopInput)
    requires !p.activated && p.sendQueue == [] && i.otherHeads == []
    ensures Select(Heads(p, i)) == 1
  {
    var heads := Heads(p, i);
    assert heads[..1] == [heads[0]] && heads[..1][..0] == [] && heads[0] == NO_OPERATION && heads[1] == 0;
    assert Select([]) == 0 && Select(heads[..1]) == 1;
  }

  lemma QueueOne(r: Request, p: Protocol)
    requires p.preBootQueue == []
    ensures Do(p, SendPreBootStep(r)) == (p.(preBootQueue := [r]), [Queued(r.id)])
  {
    assert p.preBootQueue + [r] == [r];
  }

  lemma NothingWaits(p: Protocol, expired: bool, i: LoopInput)
    requires p.recvFront.None? && p.sendQueue == [] && p.recvQueue == []
    ensures Respond(p, i) == (p, [], false)
    ensures DropTimedOut(p, expired, false, Verdicts(p.sendQueue, i.queueTicks))
            == if p.sendFront.Some? && expired then (p.(sendFront := None), [TimeoutOf(p.sendFront.value)]) else (p, [])
  {
    var r := DropTimedOut(p, expired, false, Verdicts(p.sendQueue, i.queueTicks));
    assert Expired(p.sendQueue, Verdicts(p.sendQueue, i.queueTicks)) == [] && TimeoutsOf([]) == [];
    assert Kept(p.sendQueue, Verdicts(p.sendQueue, i.queueTicks)) == [];
    assert r.1 == if p.sendFront.Some? && expired then [TimeoutOf(p.sendFront.value)] else [];
  }

  lemma FetchOne(p: Protocol, i: LoopInput, r: Request)
    requires p == Protocol(None, None, [], [], [r], false, false) && i.otherHeads == []
    ensures FetchNext(p, i) == (p.(sendFront := Some(r), preBootQueue := []), [Fetched(r.id, PreBootQueue)])
  {
    PreBootIsFirst(p, i);
    assert [r][1..] == [];
  }

  lemma FirstIsSent(p: Protocol)
    requires p == Protocol(None, None, [], [], [FIRST], false, false)
    ensures Do(p, LoopStep(At(0, true)))
            == (Protocol(Some(FIRST.(sent := true)), None, [], [], [], false, false),
                [Fetched(1, PreBootQueue), Transmitted(1)])
  {
    var i := At(0, true);
    NothingWaits(p, false, i);
    FetchOne(p, i, FIRST);
    assert Do(p, LoopStep(i)).1 == [Fetched(1, PreBootQueue), Transmitted(1)];
  }

  lemma FirstTimesOut(p: Protocol)
    requires p == Protocol(Some(FIRST.(sent := true)), None, [], [], [SECOND], false, false)
    ensures Do(p, LoopStep(At(20, false))) == (WAITING, [Ended(1, TimedOut), Fetched(2, PreBootQueue)])
  {
    var i, dropped := At(20, false), p.(sendFront := None);
    NothingWaits(p, true, i);
    FetchOne(dropped, i, SECOND);
    NothingWaits(dropped, false, i);
    assert Do(p, LoopStep(i)).1 == [Ended(1, TimedOut), Fetched(2, PreBootQueue)];
  }

  /** The response that comes in then is a late one to FIRST. SECOND ends, although it was never transmitted. */
  lemma LateResponseDropsUnsent() returns (ws: seq<World>, ss: seq<Step>)
    ensures Run(ws, ss) && |ws| == 6
    ensures ss == [SendPreBootStep(FIRST), LoopStep(At(0, true)), SendPreBootStep(SECOND), LoopStep(At(20, false)),
                   ResponseStep(LATE)]
    ensures ws[4].p.sendFront == Some(SECOND) && ws[5].p.sendFront.None?
    ensures History(ws[5].log, 2).ended == 1 && History(ws[5].log, 2).transmitted == 0
    ensures Ended(2, Discarded) in Events(ws[4], ss[4])
  {
    var p1 := START.p.(preBootQueue := [FIRST]);
    var p2 := Protocol(Some(FIRST.(sent := true)), None, [], [], [], false, false);
    var p3 := p2.(preBootQueue := [SECOND]);
    QueueOne(FIRST, START.p);
    FirstIsSent(p1);
    QueueOne(SECOND, p2);
    FirstTimesOut(p3);
    hide Do, History;
    ss := [SendPreBootStep(FIRST), LoopStep(At(0, true)), SendPreBootStep(SECOND), LoopStep(At(20, false)),
           ResponseStep(LATE)];
    var w1 := Next(START, ss[0]);
    var w2 := Next(w1, ss[1]);
    var w3 := Next(w2, ss[2]);
    var w4 := Next(w3, ss[3]);
    ws := [START, w1, w2, w3, w4, Next(w4, ss[4])];
    NotEntered(w2.log);
    ResponseDropsUnsentIff(ws, ss, 4);
  }

  lemma NotEntered(log: seq<Event>)
    requires log == [Queued(1), Fetched(1, PreBootQueue), Transmitted(1)]
    ensures History([], 1).entered == 0 && History(log, 2).entered == 0
  {
    assert log == [Queued(1)] + [Fetched(1, PreBootQueue)] + [Transmitted(1)];
    HistorySnoc([], Queued(1), 2);
    HistorySnoc([Queued(1)], Fetched(1, PreBootQueue), 2);
    HistorySnoc([Queued(1), Fetched(1, PreBootQueue)], Transmitted(1), 2);
  }
}
