/**
 The order of transaction-related messages (StartTx, StopTx, MeterValues) over all connectors.

 Every such message carries an operation number. Each emitter keeps its own queue, and the request queue
 takes the next message from the emitter that reports the smallest number. The result is proved for all
 runs without reboot: the numbers of the messages that are handed out never decrease, although messages
 are retried, given up and dropped on the way.
 */
module MessageOrder {
  import opened Wrappers
  import Journal
  import JournalInvariant
  import opened JournalRuns
  import JournalOrder
  import JournalSteps
  import MeterQueue
  import Selection

  datatype Emitter = OfConnector(j: Journal.Journal) | OfMeter(m: MeterQueue.Meters)

  /** All emitters and the next unused operation number. */
  datatype System = System(es: seq<Emitter>, nextOp: nat)

  datatype SystemStep =
    /** Connector k takes a step other than handing out a message. */
    | ConnectorStep(k: nat, s: Step)
    /** Metering connector k takes a measurement during transaction txNr. */
    | TakeStep(k: nat, txNr: int)
    | ConfirmStep(k: nat)
    /** The request queue polls all emitters and fetches from one, unless a volatile queue comes first. */
    | ScheduleStep(volatileFirst: bool, tx: Journal.FetchInput, mv: MeterQueue.MeterFetch)

  ghost predicate Good(e: Emitter, nextOp: nat) {
    match e
    case OfConnector(j) => JournalOrder.Ascending(World(j, nextOp))
    case OfMeter(m) => MeterQueue.Ascending(m, nextOp)
  }

  /** A message with number op waits in the queue of e. */
  ghost predicate Queues(e: Emitter, op: nat) {
    match e
    case OfConnector(j) => j.Valid() && JournalOrder.Queues(j, op)
    case OfMeter(m) => MeterQueue.Owes(m, op)
  }

  /** The server still has to get a message with number op from e. */
  ghost predicate Owes(e: Emitter, op: nat) {
    match e
    case OfConnector(j) => JournalOrder.Owes(j.objs, op)
    case OfMeter(m) => MeterQueue.Owes(m, op)
  }

  ghost predicate GoodSystem(y: System) {
    y.nextOp < Selection.NO_OPERATION && forall k :: 0 <= k < |y.es| ==> Good(y.es[k], y.nextOp)
  }

  // ----- polling and fetching -----

  ghost function PollOne(e: Emitter, nextOp: nat): Emitter
    requires Good(e, nextOp)
  {
    match e
    case OfConnector(j) => OfConnector(Journal.Poll(j))
    case OfMeter(m) => OfMeter(MeterQueue.Poll(m))
  }

  ghost function HeadOp(e: Emitter, nextOp: nat): nat
    requires Good(e, nextOp)
  {
    match e
    case OfConnector(j) => Journal.FrontOp(j)
    case OfMeter(m) => MeterQueue.FrontOp(m)
  }

  /** Fetch from an emitter; the result is the emitter afterwards and the number of the message, if any. */
  ghost function FetchOne(e: Emitter, nextOp: nat, tx: Journal.FetchInput, mv: MeterQueue.MeterFetch)
    : (Emitter, Option<nat>)
    requires Good(e, nextOp)
  {
    match e
    case OfConnector(j) =>
      var r := Journal.Fetch(j, tx);
      (OfConnector(r.0), if r.1.Some? then Some(Journal.FrontOp(j)) else None)
    case OfMeter(m) =>
      var r := MeterQueue.Fetch(m, mv);
      (OfMeter(r.0), if r.1 then Some(MeterQueue.FrontOp(m)) else None)
  }

  /** A poll reports the smallest number that it leaves in the queue. */
  lemma PollOneKeepsGood(e: Emitter, nextOp: nat)
    requires Good(e, nextOp) && nextOp <= Selection.NO_OPERATION
    ensures Good(PollOne(e, nextOp), nextOp)
    ensures forall op :: Queues(PollOne(e, nextOp), op) ==> Queues(e, op)
    ensures var p := PollOne(e, nextOp); var head := HeadOp(p, nextOp);
            && (head != Selection.NO_OPERATION ==> Queues(p, head))
            && (forall op :: Queues(p, op) ==> head <= op && head != Selection.NO_OPERATION)
  {
    match e
    case OfConnector(j) =>
      JournalOrder.PollKeepsAscending(World(j, nextOp));
      JournalOrder.PollReportsSmallestQueued(World(j, nextOp));
      forall op | Queues(PollOne(e, nextOp), op) ensures Queues(e, op) {
        JournalOrder.PolledWasQueued(World(j, nextOp), op);
      }
    case OfMeter(m) =>
      MeterQueue.PollKeepsAscending(m, nextOp);
      MeterQueue.PollReportsSmallestOwed(m, nextOp);
  }

  lemma AscendingIsValid(j: Journal.Journal, nextOp: nat)
    requires JournalOrder.Ascending(World(j, nextOp))
    ensures j.Valid()
  {
  }

  /** A fetch adds nothing to the queue. */
  lemma FetchOneKeepsGood(e: Emitter, nextOp: nat, tx: Journal.FetchInput, mv: MeterQueue.MeterFetch)
    requires Good(e, nextOp)
    ensures Good(FetchOne(e, nextOp, tx, mv).0, nextOp)
    ensures forall op :: Queues(FetchOne(e, nextOp, tx, mv).0, op) ==> Queues(e, op)
  {
    hide JournalOrder.Ascending, JournalOrder.Queues, Journal.Fetch;
    match e
    case OfConnector(j) =>
      JournalOrder.FetchKeepsAscending(World(j, nextOp), tx);
      AscendingIsValid(j, nextOp);
      forall op | Queues(FetchOne(e, nextOp, tx, mv).0, op) ensures Queues(e, op) {
        JournalOrder.FetchedWasQueued(World(j, nextOp), tx, op);
      }
    case OfMeter(m) => MeterQueue.FetchKeepsAscending(m, mv, nextOp);
  }

  // ----- steps -----

  /** What may happen next: steps of emitters that exist, while unused operation numbers are left. */
  ghost predicate EnabledIn(y: System, s: SystemStep)
    requires GoodSystem(y)
  {
    y.nextOp + 1 < Selection.NO_OPERATION &&
    match s
    case ConnectorStep(k, t) =>
      k < |y.es| && y.es[k].OfConnector? && !t.FetchStep? && Enabled(World(y.es[k].j, y.nextOp), t)
    case TakeStep(k, _) => k < |y.es| && y.es[k].OfMeter?
    case ConfirmStep(k) => k < |y.es| && y.es[k].OfMeter?
    case ScheduleStep(_, _, _) => true
  }

  ghost function Polled(y: System): (es: seq<Emitter>)
    requires GoodSystem(y)
    ensures |es| == |y.es|
  {
    seq(|y.es|, k requires 0 <= k < |y.es| => PollOne(y.es[k], y.nextOp))
  }

  lemma PolledIsGood(y: System)
    requires GoodSystem(y)
    ensures GoodSystem(System(Polled(y), y.nextOp))
    ensures forall k, op :: 0 <= k < |y.es| && Queues(Polled(y)[k], op) ==> Queues(y.es[k], op)
  {
    forall k | 0 <= k < |y.es| ensures Good(Polled(y)[k], y.nextOp) {
      PollOneKeepsGood(y.es[k], y.nextOp);
    }
    forall k, op | 0 <= k < |y.es| && Queues(Polled(y)[k], op) ensures Queues(y.es[k], op) {
      PollOneKeepsGood(y.es[k], y.nextOp);
    }
  }

  ghost function Heads(es: seq<Emitter>, nextOp: nat): (heads: seq<nat>)
    requires forall k :: 0 <= k < |es| ==> Good(es[k], nextOp)
    ensures |heads| == |es|
  {
    seq(|es|, k requires 0 <= k < |es| => HeadOp(es[k], nextOp))
  }

  /** The emitter that the request queue chooses after polling, or the number of emitters. */
  ghost function Choice(y: System): nat
    requires GoodSystem(y)
  {
    PolledIsGood(y);
    Selection.Select(Heads(Polled(y), y.nextOp))
  }

  /** The system after a step, and the number of the message that the step hands out. */
  ghost function DoIn(y: System, s: SystemStep): (System, Option<nat>)
    requires GoodSystem(y) && EnabledIn(y, s)
  {
    match s
    case ConnectorStep(k, t) =>
      var w := Do(World(y.es[k].j, y.nextOp), t);
      (System(y.es[k := OfConnector(w.j)], w.nextOp), None)
    case TakeStep(k, txNr) =>
      var v := MeterQueue.MeterValue(y.nextOp, txNr, 0, 0);
      (System(y.es[k := OfMeter(MeterQueue.Take(y.es[k].m, v))], y.nextOp + 1), None)
    case ConfirmStep(k) => (y.(es := y.es[k := OfMeter(MeterQueue.Confirm(y.es[k].m))]), None)
    case ScheduleStep(volatileFirst, tx, mv) =>
      PolledIsGood(y);
      var k := Choice(y);
      if volatileFirst || k >= |y.es| then (y.(es := Polled(y)), None)
      else
        var (e, op) := FetchOne(Polled(y)[k], y.nextOp, tx, mv);
        (y.(es := Polled(y)[k := e]), op)
  }

  /** Everything that is queued has a number of at least bound, and so has everything to come. */
  ghost predicate AllQueuedFrom(y: System, bound: nat) {
    bound < y.nextOp && forall k, op :: 0 <= k < |y.es| && Queues(y.es[k], op) ==> bound <= op
  }

  ghost predicate AllOwedFrom(y: System, bound: nat) {
    bound < y.nextOp && forall k, op :: 0 <= k < |y.es| && Owes(y.es[k], op) ==> bound <= op
  }

  lemma GoodForLater(e: Emitter, nextOp: nat, later: nat)
    requires Good(e, nextOp) && nextOp <= later
    ensures Good(e, later)
  {
    if e.OfConnector? {
      JournalOrder.AscendingForLater(World(e.j, nextOp), later);
    }
  }

  /** Replacing one emitter by one that queues nothing but old and fresh numbers. */
  lemma ReplaceKeepsGood(y: System, k: nat, e: Emitter, nextOp: nat, bound: nat)
    requires GoodSystem(y) && k < |y.es| && y.nextOp <= nextOp < Selection.NO_OPERATION && Good(e, nextOp)
    requires forall op: nat :: Queues(e, op) ==> Queues(y.es[k], op) || op >= y.nextOp
    ensures GoodSystem(System(y.es[k := e], nextOp))
    ensures AllQueuedFrom(y, bound) ==> AllQueuedFrom(System(y.es[k := e], nextOp), bound)
  {
    forall i | 0 <= i < |y.es| && i != k ensures Good(y.es[i], nextOp) {
      GoodForLater(y.es[i], y.nextOp, nextOp);
    }
  }

  lemma ScheduleKeepsGood(y: System, volatileFirst: bool, tx: Journal.FetchInput, mv: MeterQueue.MeterFetch, bound: nat)
    requires GoodSystem(y) && EnabledIn(y, ScheduleStep(volatileFirst, tx, mv))
    ensures var r := DoIn(y, ScheduleStep(volatileFirst, tx, mv)).0;
            && GoodSystem(r)
            && (AllQueuedFrom(y, bound) ==> AllQueuedFrom(System(Polled(y), y.nextOp), bound))
            && (AllQueuedFrom(System(Polled(y), y.nextOp), bound) ==> AllQueuedFrom(r, bound))
  {
    PolledIsGood(y);
    var p := System(Polled(y), y.nextOp);
    assert AllQueuedFrom(y, bound) ==> AllQueuedFrom(p, bound);
    var k := Choice(y);
    if !volatileFirst && k < |y.es| {
      FetchOneKeepsGood(p.es[k], y.nextOp, tx, mv);
      ReplaceKeepsGood(p, k, FetchOne(p.es[k], y.nextOp, tx, mv).0, y.nextOp, bound);
    }
  }

  lemma ConnectorStepKeepsGood(y: System, k: nat, t: Step, bound: nat)
    requires GoodSystem(y) && EnabledIn(y, ConnectorStep(k, t))
    ensures var r := DoIn(y, ConnectorStep(k, t)).0;
            GoodSystem(r) && (AllQueuedFrom(y, bound) ==> AllQueuedFrom(r, bound))
  {
    var w := World(y.es[k].j, y.nextOp);
    JournalOrder.StepKeepsAscending(w, t);
    JournalOrder.QueuedIsOldOrFresh(w, t);
    ReplaceKeepsGood(y, k, OfConnector(Do(w, t).j), Do(w, t).nextOp, bound);
  }

  lemma StepKeepsGood(y: System, s: SystemStep, bound: nat)
    requires GoodSystem(y) && EnabledIn(y, s)
    ensures GoodSystem(DoIn(y, s).0)
    ensures AllQueuedFrom(y, bound) ==> AllQueuedFrom(DoIn(y, s).0, bound)
  {
    match s
    case ConnectorStep(k, t) => ConnectorStepKeepsGood(y, k, t, bound);
    case TakeStep(k, txNr) =>
      var v := MeterQueue.MeterValue(y.nextOp, txNr, 0, 0);
      MeterQueue.TakeKeepsAscending(y.es[k].m, v, y.nextOp);
      ReplaceKeepsGood(y, k, OfMeter(MeterQueue.Take(y.es[k].m, v)), y.nextOp + 1, bound);
    case ConfirmStep(k) => ReplaceKeepsGood(y, k, OfMeter(MeterQueue.Confirm(y.es[k].m)), y.nextOp, bound);
    case ScheduleStep(volatileFirst, tx, mv) => ScheduleKeepsGood(y, volatileFirst, tx, mv, bound);
  }

  lemma HandedOutIsHead(y: System, s: SystemStep)
    requires GoodSystem(y) && EnabledIn(y, s) && DoIn(y, s).1.Some?
    ensures s.ScheduleStep? && GoodSystem(System(Polled(y), y.nextOp)) && Choice(y) < |y.es|
    ensures DoIn(y, s).1.value == Heads(Polled(y), y.nextOp)[Choice(y)]
  {
    hide Good;
    PolledIsGood(y);
  }

  /** A message that is handed out has the smallest number that the polls leave in any queue. */
  lemma MessageIsSmallestQueued(y: System, s: SystemStep)
    requires GoodSystem(y) && EnabledIn(y, s) && DoIn(y, s).1.Some?
    ensures s.ScheduleStep? && GoodSystem(System(Polled(y), y.nextOp))
    ensures AllQueuedFrom(System(Polled(y), y.nextOp), DoIn(y, s).1.value)
    ensures exists k :: 0 <= k < |y.es| && Queues(Polled(y)[k], DoIn(y, s).1.value)
  {
    hide Good, Queues;
    HandedOutIsHead(y, s);
    hide DoIn, EnabledIn;
    PolledIsGood(y);
    var p := Polled(y);
    var heads := Heads(p, y.nextOp);
    var k := Choice(y);
    Selection.SelectIsFirstMinimum(heads);
    PollOneKeepsGood(y.es[k], y.nextOp);
    var op := heads[k];
    assert Queues(p[k], op);
    QueuedWasIssued(p[k], y.nextOp, op);
    forall i, o | 0 <= i < |p| && Queues(p[i], o) ensures op <= o {
      PollOneKeepsGood(y.es[i], y.nextOp);
      assert heads[i] <= o;
    }
  }

  /** No connector has passed a transaction, as is the case when no poll was left out. */
  ghost predicate NothingPassed(y: System) {
    forall k :: 0 <= k < |y.es| && y.es[k].OfConnector? ==> JournalInvariant.Inv(y.es[k].j)
  }

  lemma OwedStaysQueued(e: Emitter, nextOp: nat, op: nat)
    requires Good(e, nextOp) && nextOp <= Selection.NO_OPERATION
    requires e.OfConnector? ==> JournalInvariant.Inv(e.j)
    ensures Owes(e, op) <==> Queues(PollOne(e, nextOp), op)
  {
    match e
    case OfConnector(j) =>
      JournalInvariant.PollKeepsInv(j);
      PollKeepsRecords(j);
      JournalOrder.OwedIsQueued(Journal.Poll(j), op);
    case OfMeter(m) => MeterQueue.PollKeepsAscending(m, nextOp);
  }

  /** Then the message has the smallest number that any emitter of the system still owes to the server. */
  lemma MessageIsSmallestOwed(y: System, s: SystemStep)
    requires GoodSystem(y) && NothingPassed(y) && EnabledIn(y, s) && DoIn(y, s).1.Some?
    ensures AllOwedFrom(y, DoIn(y, s).1.value)
    ensures exists k :: 0 <= k < |y.es| && Owes(y.es[k], DoIn(y, s).1.value)
  {
    hide Good, Queues, Owes;
    MessageIsSmallestQueued(y, s);
    var op := DoIn(y, s).1.value;
    forall i, o: nat | 0 <= i < |y.es| ensures Owes(y.es[i], o) <==> Queues(Polled(y)[i], o) {
      OwedStaysQueued(y.es[i], y.nextOp, o);
    }
  }

  lemma QueuedWasIssued(e: Emitter, nextOp: nat, op: nat)
    requires Good(e, nextOp) && Queues(e, op)
    ensures op < nextOp
  {
  }

  /** The emitter at k reports the first of the smallest numbers of messages. */
  ghost predicate ComesFirst(heads: seq<nat>, k: nat) {
    && k < |heads| && heads[k] < Selection.NO_OPERATION
    && (forall i :: 0 <= i < |heads| ==> heads[k] <= heads[i] && (i < k ==> heads[k] < heads[i]))
  }

  /**
   What a schedule step hands out: the message of the emitter that comes first after all were polled, if that
   message may be sent now, under its own number.
   */
  lemma HandedOutMeaning(y: System, volatileFirst: bool, tx: Journal.FetchInput, mv: MeterQueue.MeterFetch, k: nat)
    requires GoodSystem(y) && EnabledIn(y, ScheduleStep(volatileFirst, tx, mv))
    requires GoodSystem(System(Polled(y), y.nextOp)) && ComesFirst(Heads(Polled(y), y.nextOp), k)
    ensures var op := DoIn(y, ScheduleStep(volatileFirst, tx, mv)).1;
            if volatileFirst then op == None
            else match Polled(y)[k] {
              case OfConnector(j) =>
                j.Valid() &&
                op == match j.transactionFront {
                        case None => None
                        case Some(id) =>
                          var t := j.objs[id];
                          if JournalSteps.SendsStart(t, tx) then Some(t.start.opNr)
                          else if JournalSteps.SendsStop(t, tx) then Some(t.stop.opNr) else None
                      }
              case OfMeter(m) =>
                op == match m.front {
                        case None => None
                        case Some(v) =>
                          if v.attemptNr < mv.maxAttempts && mv.due && !mv.silent then Some(v.opNr) else None
                      }
            }
  {
    var heads := Heads(Polled(y), y.nextOp);
    Selection.SelectIsFirstMinimum(heads);
    assert Choice(y) == k;
    match Polled(y)[k]
    case OfConnector(j) => FetchedNumber(j, y.nextOp, tx);
    case OfMeter(m) =>
  }

  lemma FetchedNumber(j: Journal.Journal, nextOp: nat, tx: Journal.FetchInput)
    requires JournalOrder.Ascending(World(j, nextOp))
    ensures j.Valid()
    ensures var r := Journal.Fetch(j, tx);
            (if r.1.Some? then Some(Journal.FrontOp(j)) else None)
            == match j.transactionFront {
                 case None => None
                 case Some(id) =>
                   var t := j.objs[id];
                   if JournalSteps.SendsStart(t, tx) then Some(t.start.opNr)
                   else if JournalSteps.SendsStop(t, tx) then Some(t.stop.opNr) else None
               }
  {
    JournalSteps.FetchMeaning(World(j, nextOp), tx);
  }

  // ----- runs -----

  /** Nothing is assumed about the step of a system that is not good. */
  ghost predicate Transition(y: System, s: SystemStep, z: System) {
    GoodSystem(y) ==> EnabledIn(y, s) && z == DoIn(y, s).0
  }

  /** The number of the message that a step hands to the connection, if it does. */
  ghost function HandedOut(y: System, s: SystemStep): Option<nat> {
    if GoodSystem(y) && EnabledIn(y, s) then DoIn(y, s).1 else None
  }

  /** Only the first system is known to be good. */
  ghost predicate SystemRun(ys: seq<System>, ss: seq<SystemStep>) {
    && |ys| == |ss| + 1
    && GoodSystem(ys[0])
    && forall i, n :: 0 <= i < |ss| && n == i + 1 ==> Transition(ys[i], ss[i], ys[n])
  }

  lemma TransitionKeepsGood(y: System, s: SystemStep, z: System, bound: nat)
    requires Transition(y, s, z) && GoodSystem(y)
    ensures GoodSystem(z) && (AllQueuedFrom(y, bound) ==> AllQueuedFrom(z, bound))
  {
    StepKeepsGood(y, s, bound);
  }

  /** Every connector and every meter queue keeps its numbers ascending in the whole run. */
  lemma {:induction false} RunKeepsGood(ys: seq<System>, ss: seq<SystemStep>, i: nat)
    requires SystemRun(ys, ss) && i < |ys|
    ensures GoodSystem(ys[i])
    decreases i
  {
    hide AllQueuedFrom, Transition, GoodSystem;
    if i > 0 {
      RunKeepsGood(ys, ss, i - 1);
      TransitionKeepsGood(ys[i - 1], ss[i - 1], ys[i], 0);
    }
  }

  lemma {:induction false} BoundStays(ys: seq<System>, ss: seq<SystemStep>, i: nat, k: nat, bound: nat)
    requires SystemRun(ys, ss) && i <= k < |ys| && AllQueuedFrom(ys[i], bound)
    ensures AllQueuedFrom(ys[k], bound)
    decreases k
  {
    hide AllQueuedFrom, Transition, GoodSystem;
    if i < k {
      BoundStays(ys, ss, i, k - 1, bound);
      RunKeepsGood(ys, ss, k - 1);
      TransitionKeepsGood(ys[k - 1], ss[k - 1], ys[k], bound);
    }
  }

  /** What is handed out was queued, and bounds what is queued from then on. */
  lemma HandedOutBoundsQueued(y: System, s: SystemStep)
    requires HandedOut(y, s).Some?
    ensures AllQueuedFrom(DoIn(y, s).0, HandedOut(y, s).value)
    ensures exists k :: 0 <= k < |y.es| && Queues(y.es[k], HandedOut(y, s).value)
  {
    MessageIsSmallestQueued(y, s);
    ScheduleKeepsGood(y, s.volatileFirst, s.tx, s.mv, HandedOut(y, s).value);
    PolledIsGood(y);
  }

  /** The numbers of the messages handed out in a run never decrease. */
  lemma MessagesInOrder(ys: seq<System>, ss: seq<SystemStep>, i: nat, k: nat, first: nat, second: nat)
    requires SystemRun(ys, ss) && i <= k < |ss|
    requires HandedOut(ys[i], ss[i]) == Some(first) && HandedOut(ys[k], ss[k]) == Some(second)
    ensures first <= second
  {
    hide Queues, GoodSystem, EnabledIn, DoIn;
    if i < k {
      HandedOutBoundsQueued(ys[i], ss[i]);
      HandedOutBoundsQueued(ys[k], ss[k]);
      RunKeepsGood(ys, ss, i);
      assert Transition(ys[i], ss[i], ys[i + 1]);
      BoundStays(ys, ss, i + 1, k, first);
    }
  }
}
