/**
 The outgoing queue of one metering connector: measured values waiting in meterData, and the one in
 meterDataFront that is being sent.
 */
module MeterQueue {
  import opened Wrappers
  import opened Selection

  const METERVALUES_CACHE_MAXSIZE: nat := 10

  /** txNr is -1 if the value was not measured during a transaction. */
  datatype MeterValue = MeterValue(opNr: nat, txNr: int, attemptNr: nat, attemptTime: nat)

  datatype Meters = Meters(front: Option<MeterValue>, queue: seq<MeterValue>)

  /** A new measurement; the oldest one gives way if the queue is full. */
  function Take(m: Meters, v: MeterValue): Meters {
    m.(queue := (if |m.queue| >= METERVALUES_CACHE_MAXSIZE then m.queue[1..] else m.queue) + [v])
  }

  function Poll(m: Meters): Meters {
    if m.front.None? && m.queue != [] then Meters(Some(m.queue[0]), m.queue[1..]) else m
  }

  /** The result of getFrontRequestOpNr, in the state after Poll. */
  function FrontOp(m: Meters): nat {
    if m.front.Some? then m.front.value.opNr else NO_OPERATION
  }

  /** due: the retry period is over. silent: the value belongs to a silent transaction. */
  datatype MeterFetch = MeterFetch(maxAttempts: int, due: bool, now: nat, silent: bool)

  /** fetchFrontRequest; the result tells whether a MeterValues request is handed out. */
  function Fetch(m: Meters, i: MeterFetch): (Meters, bool) {
    if m.front.None? then (m, false)
    else
      var v := m.front.value;
      if v.attemptNr >= i.maxAttempts then (m.(front := None), false)
      else if !i.due then (m, false)
      else if i.silent then (m.(front := None), false)
      else (m.(front := Some(v.(attemptNr := v.attemptNr + 1, attemptTime := i.now))), true)
  }

  /** The server confirmed the request in front. */
  function Confirm(m: Meters): Meters { m.(front := None) }

  // ----- operation numbers -----

  ghost predicate Owes(m: Meters, op: nat) {
    (m.front.Some? && m.front.value.opNr == op) || exists k :: 0 <= k < |m.queue| && m.queue[k].opNr == op
  }

  ghost predicate Ascending(m: Meters, nextOp: nat) {
    && (forall k :: 0 <= k < |m.queue| ==> m.queue[k].opNr < nextOp)
    && (forall i, k :: 0 <= i < k < |m.queue| ==> m.queue[i].opNr < m.queue[k].opNr)
    && (m.front.Some? ==>
          m.front.value.opNr < nextOp && forall k :: 0 <= k < |m.queue| ==> m.front.value.opNr < m.queue[k].opNr)
  }

  lemma TakeKeepsAscending(m: Meters, v: MeterValue, nextOp: nat)
    requires Ascending(m, nextOp) && v.opNr == nextOp
    ensures Ascending(Take(m, v), nextOp + 1)
    ensures forall op :: Owes(Take(m, v), op) ==> Owes(m, op) || op == nextOp
  {
    var r := Take(m, v);
    forall op | Owes(r, op) ensures Owes(m, op) || op == nextOp {
      if !(r.front.Some? && r.front.value.opNr == op) {
        var k :| 0 <= k < |r.queue| && r.queue[k].opNr == op;
        assert k == |r.queue| - 1 || r.queue[k] in m.queue;
      }
    }
  }

  lemma PollKeepsAscending(m: Meters, nextOp: nat)
    requires Ascending(m, nextOp)
    ensures Ascending(Poll(m), nextOp)
    ensures forall op :: Owes(Poll(m), op) <==> Owes(m, op)
  {
    var r := Poll(m);
    if r != m {
      forall op ensures Owes(r, op) <==> Owes(m, op) {
        if Owes(m, op) {
          var k :| 0 <= k < |m.queue| && m.queue[k].opNr == op;
          assert k == 0 || r.queue[k - 1].opNr == op;
        }
        if Owes(r, op) && op != m.queue[0].opNr {
          var k :| 0 <= k < |r.queue| && r.queue[k].opNr == op;
          assert m.queue[k + 1].opNr == op;
        }
      }
    }
  }

  lemma FetchKeepsAscending(m: Meters, i: MeterFetch, nextOp: nat)
    requires Ascending(m, nextOp)
    ensures Ascending(Fetch(m, i).0, nextOp)
    ensures forall op :: Owes(Fetch(m, i).0, op) ==> Owes(m, op)
  {
  }

  /** A polled metering connector reports the smallest number it still owes. */
  lemma PollReportsSmallestOwed(m: Meters, nextOp: nat)
    requires Ascending(m, nextOp) && nextOp <= NO_OPERATION
    ensures FrontOp(Poll(m)) != NO_OPERATION ==> Owes(m, FrontOp(Poll(m)))
    ensures forall op :: Owes(m, op) ==> FrontOp(Poll(m)) <= op && FrontOp(Poll(m)) != NO_OPERATION
  {
    PollKeepsAscending(m, nextOp);
  }

  // ----- what happens to one value -----

  /** A new value is the last one; with 10 in the queue, the oldest of them is lost. */
  lemma TakeMeaning(m: Meters, v: MeterValue)
    ensures Take(m, v) == Meters(m.front, (if |m.queue| < 10 then m.queue else m.queue[1..]) + [v])
  {
  }

  /**
   The value in front is handed out exactly if attempts are left, the retry period is over and its transaction
   is not silent; it is dropped exactly if no attempts are left, or when it is due for a silent transaction;
   otherwise it stays as it is.
   */
  lemma FetchMeaning(m: Meters, i: MeterFetch)
    ensures m.front.None? ==> Fetch(m, i) == (m, false)
    ensures m.front.Some? ==>
              var v, r := m.front.value, Fetch(m, i);
              && r.0.queue == m.queue
              && (r.1 <==> v.attemptNr < i.maxAttempts && i.due && !i.silent)
              && (r.0.front.None? <==> v.attemptNr >= i.maxAttempts || (i.due && i.silent))
              && (r.1 ==> r.0.front == Some(MeterValue(v.opNr, v.txNr, v.attemptNr + 1, i.now)))
              && (!r.1 && r.0.front.Some? ==> r.0 == m)
  {
  }

  // ----- attempts over runs -----

  datatype Step = TakeStep(txNr: int) | PollStep | FetchStep(fetch: MeterFetch) | ConfirmStep

  /** A queue and the next unused operation number. */
  datatype World = World(m: Meters, nextOp: nat)

  function Do(w: World, s: Step): World {
    match s
    case TakeStep(txNr) => World(Take(w.m, MeterValue(w.nextOp, txNr, 0, 0)), w.nextOp + 1)
    case PollStep => w.(m := Poll(w.m))
    case FetchStep(fetch) => w.(m := Fetch(w.m, fetch).0)
    case ConfirmStep => w.(m := Confirm(w.m))
  }

  /** The step hands out the value with number op. */
  predicate HandsOut(w: World, s: Step, op: nat) {
    s.FetchStep? && w.m.front.Some? && w.m.front.value.opNr == op && Fetch(w.m, s.fetch).1
  }

  ghost predicate Run(ws: seq<World>, ss: seq<Step>, limit: nat) {
    && |ws| == |ss| + 1 && Ascending(ws[0].m, ws[0].nextOp)
    && (forall i, n :: 0 <= i < |ss| && n == i + 1 ==> ws[n] == Do(ws[i], ss[i]))
    && (forall i :: 0 <= i < |ss| && ss[i].FetchStep? ==> ss[i].fetch.maxAttempts <= limit)
  }

  /** How often the value with number op is handed out in steps i to k - 1. */
  function HandOuts(ws: seq<World>, ss: seq<Step>, i: nat, k: nat, op: nat): nat
    requires k <= |ss| < |ws|
    decreases k
  {
    if k <= i then 0 else HandOuts(ws, ss, i, k - 1, op) + if HandsOut(ws[k - 1], ss[k - 1], op) then 1 else 0
  }

  function Left(limit: nat, v: MeterValue): nat { if v.attemptNr >= limit then 0 else limit - v.attemptNr }

  /** At most this many attempts are left for the value with number op. */
  ghost predicate AtMostLeft(w: World, limit: nat, op: nat, left: nat) {
    && (w.m.front.Some? && w.m.front.value.opNr == op ==> Left(limit, w.m.front.value) <= left)
    && (forall k :: 0 <= k < |w.m.queue| && w.m.queue[k].opNr == op ==> Left(limit, w.m.queue[k]) <= left)
    && (op >= w.nextOp ==> limit <= left)
  }

  lemma TakeKeepsLeft(w: World, txNr: int, limit: nat, op: nat, left: nat)
    requires Ascending(w.m, w.nextOp) && AtMostLeft(w, limit, op, left)
    ensures AtMostLeft(Do(w, TakeStep(txNr)), limit, op, left)
  {
    var q, v := w.m.queue, MeterValue(w.nextOp, txNr, 0, 0);
    var r := Take(w.m, v).queue;
    forall k | 0 <= k < |r| && r[k].opNr == op ensures Left(limit, r[k]) <= left {
      if k < |r| - 1 {
        assert r[k] == if |q| < 10 then q[k] else q[k + 1];
      }
    }
  }

  lemma PollKeepsLeft(w: World, limit: nat, op: nat, left: nat)
    requires AtMostLeft(w, limit, op, left)
    ensures AtMostLeft(Do(w, PollStep), limit, op, left)
  {
    var r := Poll(w.m).queue;
    forall k | 0 <= k < |r| && r[k].opNr == op ensures Left(limit, r[k]) <= left {
      assert r != w.m.queue ==> r[k] == w.m.queue[k + 1];
    }
  }

  lemma FetchUsesAttempt(w: World, i: MeterFetch, limit: nat, op: nat, left: nat)
    requires Ascending(w.m, w.nextOp) && AtMostLeft(w, limit, op, left) && i.maxAttempts <= limit
    ensures HandsOut(w, FetchStep(i), op) ==> left > 0 && AtMostLeft(Do(w, FetchStep(i)), limit, op, left - 1)
    ensures !HandsOut(w, FetchStep(i), op) ==> AtMostLeft(Do(w, FetchStep(i)), limit, op, left)
  {
  }

  lemma StepUsesAttempts(w: World, s: Step, limit: nat, op: nat, left: nat)
    requires Ascending(w.m, w.nextOp) && AtMostLeft(w, limit, op, left)
    requires s.FetchStep? ==> s.fetch.maxAttempts <= limit
    ensures Ascending(Do(w, s).m, Do(w, s).nextOp)
    ensures HandsOut(w, s, op) ==> left > 0 && AtMostLeft(Do(w, s), limit, op, left - 1)
    ensures !HandsOut(w, s, op) ==> AtMostLeft(Do(w, s), limit, op, left)
  {
    hide AtMostLeft, Ascending;
    match s
    case TakeStep(txNr) =>
      TakeKeepsAscending(w.m, MeterValue(w.nextOp, txNr, 0, 0), w.nextOp);
      TakeKeepsLeft(w, txNr, limit, op, left);
    case PollStep =>
      PollKeepsAscending(w.m, w.nextOp);
      PollKeepsLeft(w, limit, op, left);
    case FetchStep(fetch) =>
      FetchKeepsAscending(w.m, fetch, w.nextOp);
      FetchUsesAttempt(w, fetch, limit, op, left);
    case ConfirmStep => ConfirmKeeps(w, limit, op, left);
  }

  lemma ConfirmKeeps(w: World, limit: nat, op: nat, left: nat)
    requires Ascending(w.m, w.nextOp) && AtMostLeft(w, limit, op, left)
    ensures Ascending(Do(w, ConfirmStep).m, w.nextOp) && AtMostLeft(Do(w, ConfirmStep), limit, op, left)
  {
  }

  /** With at most limit attempts configured, no value is handed out more than limit times over any run. */
  lemma {:induction false} AttemptsAreBounded(ws: seq<World>, ss: seq<Step>, limit: nat, k: nat, op: nat)
    requires Run(ws, ss, limit) && k < |ws|
    ensures Ascending(ws[k].m, ws[k].nextOp)
    ensures HandOuts(ws, ss, 0, k, op) <= limit
    ensures AtMostLeft(ws[k], limit, op, limit - HandOuts(ws, ss, 0, k, op))
    decreases k
  {
    hide AtMostLeft, Ascending, Do, HandsOut;
    if k > 0 {
      AttemptsAreBounded(ws, ss, limit, k - 1, op);
      StepUsesAttempts(ws[k - 1], ss[k - 1], limit, op, limit - HandOuts(ws, ss, 0, k - 1, op));
      assert ws[k] == Do(ws[k - 1], ss[k - 1]);
    } else {
      NothingBeginsWithMore(ws[0], limit, op);
    }
  }

  /** Whatever was tried before, no value begins with more. */
  lemma NothingBeginsWithMore(w: World, limit: nat, op: nat)
    ensures AtMostLeft(w, limit, op, limit)
  {
  }
}
