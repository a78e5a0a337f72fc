/**
 Safety of the transaction journal over whole runs: any interleaving of the connector's loop, begin and
 end calls, polls and fetches of the request queue, and answers to the requests that were handed out.
 */
module JournalRuns {
  import opened Wrappers
  import opened Cyclic
  import opened Journal
  import opened JournalInvariant

  /**
   One call of the connector, the sender or the server. When loop() begins a FreeVend transaction at its end,
   that call is the two steps LoopStep and BeginStep(true, env), one right after the other.
   */
  datatype Step =
    | LoopStep(input: LoopInput)
    | BeginStep(authorized: bool, env: AllocEnv)
    | EndStep
    | PollStep
    | FetchStep(fetch: FetchInput)
    | ReplyStep(id: nat, reply: Reply)

  /** A journal and the next unused operation number. */
  datatype World = World(j: Journal, nextOp: nat)

  /** The server answers what it was asked. */
  ghost predicate Allowed(w: World, s: Step)
    requires Sound(w.j)
  {
    s.ReplyStep? ==> s.id < |w.j.objs| && ReplyExpected(w.j.objs[s.id], s.reply)
  }

  /** A begin finds an unused transaction number. */
  ghost predicate NumbersLeft(w: World, s: Step)
    requires Sound(w.j)
  {
    s.BeginStep? && w.j.transaction.None? ==> MakeRoom(w.j, s.env).0.WindowSize() + 1 < w.j.m
  }

  ghost predicate Enabled(w: World, s: Step)
    requires Sound(w.j)
  {
    Allowed(w, s) && NumbersLeft(w, s)
  }

  /** Before a transaction is begun the queue was polled since its front transaction was done. */
  ghost predicate PolledBefore(w: World, s: Step) {
    s.BeginStep? && w.j.Valid() && w.j.transaction.None? ==> Polled(w.j)
  }

  /** What loop() relies on: the number of the current transaction is in range. */
  predicate CurrentFits(j: Journal) {
    j.transaction.Some? ==> j.transaction.value < |j.objs| && j.objs[j.transaction.value].nr < j.m
  }

  lemma CurrentNumberFits(j: Journal)
    requires Sound(j)
    ensures CurrentFits(j)
  {
    if j.transaction.Some? {
      CurrentNumber(j);
    }
  }

  ghost function Do(w: World, s: Step): World
    requires Sound(w.j) && Allowed(w, s)
  {
    match s
    case LoopStep(input) =>
      CurrentNumberFits(w.j);
      var r := Loop(w.j, input, w.nextOp);
      World(r.0, r.2)
    case BeginStep(authorized, env) => w.(j := Begin(w.j, authorized, env))
    case EndStep => w.(j := End(w.j))
    case PollStep => w.(j := Poll(w.j))
    case FetchStep(fetch) => w.(j := Fetch(w.j, fetch).0)
    case ReplyStep(id, reply) => w.(j := w.j.Update(id, ApplyReply(w.j.objs[id], reply)))
  }

  /** The StartTx or StopTx that a step triggers. */
  ghost function TriggerOf(w: World, s: Step): Trigger {
    if s.LoopStep? && w.j.Valid() && CurrentFits(w.j) then Loop(w.j, s.input, w.nextOp).1 else NoTrigger
  }

  /** The message that a step hands to the request queue. */
  ghost function MessageOf(w: World, s: Step): Option<Message> {
    if s.FetchStep? && w.j.Valid() then Fetch(w.j, s.fetch).1 else None
  }

  lemma StepKeepsInv(w: World, s: Step)
    requires Sound(w.j) && Enabled(w, s)
    ensures Sound(Do(w, s).j)
    ensures Inv(w.j) && PolledBefore(w, s) ==> Inv(Do(w, s).j)
  {
    match s
    case LoopStep(input) => LoopKeepsInv(w.j, input, w.nextOp);
    case BeginStep(authorized, env) => BeginKeepsInv(w.j, authorized, env);
    case EndStep => EndKeepsInv(w.j);
    case PollStep => PollKeepsInv(w.j);
    case FetchStep(fetch) => FetchKeepsInv(w.j, fetch);
    case ReplyStep(id, reply) => ReplyKeepsInv(w.j, id, reply);
  }

  // ----- runs -----

  /** Step s leads from w to z. Nothing is assumed about a state that is not sound. */
  ghost predicate Takes(w: World, s: Step, z: World) {
    Sound(w.j) ==> Enabled(w, s) && z == Do(w, s)
  }

  /** ws are the states of a run that takes steps ss, one after the other. */
  ghost predicate Run(ws: seq<World>, ss: seq<Step>) {
    && |ws| == |ss| + 1
    && Sound(ws[0].j)
    && forall i, n :: 0 <= i < |ss| && n == i + 1 ==> Takes(ws[i], ss[i], ws[n])
  }

  /**
   A run with the whole invariant in the first state, and with a poll before every transaction. Module
   JournalStale shows that the poll is what it takes to lose no transaction.
   */
  ghost predicate PolledRun(ws: seq<World>, ss: seq<Step>) {
    && Run(ws, ss) && Inv(ws[0].j)
    && forall i :: 0 <= i < |ss| ==> PolledBefore(ws[i], ss[i])
  }

  /** All states of a run are sound. */
  lemma {:induction false} RunIsSound(ws: seq<World>, ss: seq<Step>, i: nat)
    requires Run(ws, ss) && i < |ws|
    ensures Sound(ws[i].j)
    decreases i
  {
    hide Sound, Do, Enabled;
    if i > 0 {
      RunIsSound(ws, ss, i - 1);
      assert Takes(ws[i - 1], ss[i - 1], ws[i]);
      StepKeepsInv(ws[i - 1], ss[i - 1]);
    }
  }

  lemma RunTakes(ws: seq<World>, ss: seq<Step>, i: nat)
    requires Run(ws, ss) && i < |ss|
    ensures Sound(ws[i].j) && Enabled(ws[i], ss[i]) && ws[i + 1] == Do(ws[i], ss[i])
  {
    hide Sound, Do, Enabled;
    RunIsSound(ws, ss, i);
    assert Takes(ws[i], ss[i], ws[i + 1]);
  }

  /** A polled run keeps the invariant of its first state. */
  lemma {:induction false} RunKeepsInv(ws: seq<World>, ss: seq<Step>, i: nat)
    requires PolledRun(ws, ss) && i < |ws|
    ensures Inv(ws[i].j)
    decreases i
  {
    hide Sound, Inv, Do, Enabled, PolledBefore;
    if i > 0 {
      RunKeepsInv(ws, ss, i - 1);
      RunTakes(ws, ss, i - 1);
      StepKeepsInv(ws[i - 1], ss[i - 1]);
    }
  }

  // ----- putting runs together -----

  lemma RunStarts(w: World)
    requires Sound(w.j)
    ensures Run([w], [])
  {
  }

  lemma RunGoesOn(ws: seq<World>, ss: seq<Step>, s: Step)
    requires Run(ws, ss)
    requires Sound(ws[|ss|].j) ==> Enabled(ws[|ss|], s)
    ensures Sound(ws[|ss|].j) && Enabled(ws[|ss|], s) && Run(ws + [Do(ws[|ss|], s)], ss + [s])
  {
    hide Sound, Do;
    RunIsSound(ws, ss, |ss|);
    var zs, ts := ws + [Do(ws[|ss|], s)], ss + [s];
    forall i, n | 0 <= i < |ts| && n == i + 1 ensures Takes(zs[i], ts[i], zs[n]) {
      if i < |ss| {
        assert Takes(ws[i], ss[i], ws[n]);
      }
    }
  }

  lemma LoopGoesOn(ws: seq<World>, ss: seq<Step>, input: LoopInput, j: Journal, nextOp: nat)
    requires Run(ws, ss)
    requires var w := ws[|ss|];
             && w.j.Valid() && CurrentFits(w.j)
             && Loop(w.j, input, w.nextOp).0 == j && Loop(w.j, input, w.nextOp).2 == nextOp
    ensures Run(ws + [World(j, nextOp)], ss + [LoopStep(input)])
  {
    hide Sound, Loop;
    RunGoesOn(ws, ss, LoopStep(input));
  }

  lemma BeginGoesOn(ws: seq<World>, ss: seq<Step>, authorized: bool, env: AllocEnv, j: Journal)
    requires Run(ws, ss)
    requires var w := ws[|ss|];
             && w.j.Valid() && NumbersRemain(w.j, env) && Begin(w.j, authorized, env) == j
    ensures Run(ws + [World(j, ws[|ss|].nextOp)], ss + [BeginStep(authorized, env)])
  {
    hide Sound, Begin, MakeRoom;
    RunGoesOn(ws, ss, BeginStep(authorized, env));
  }

  ghost predicate NumbersRemain(j: Journal, env: AllocEnv)
    requires j.Valid()
  {
    MakeRoom(j, env).0.WindowSize() + 1 < j.m
  }

  lemma EndGoesOn(ws: seq<World>, ss: seq<Step>, j: Journal)
    requires Run(ws, ss) && ws[|ss|].j.Valid() && End(ws[|ss|].j) == j
    ensures Run(ws + [World(j, ws[|ss|].nextOp)], ss + [EndStep])
  {
    hide Sound, End;
    RunGoesOn(ws, ss, EndStep);
  }

  lemma PollGoesOn(ws: seq<World>, ss: seq<Step>)
    requires Run(ws, ss) && ws[|ss|].j.Valid()
    ensures Run(ws + [World(Poll(ws[|ss|].j), ws[|ss|].nextOp)], ss + [PollStep])
  {
    hide Sound, Poll;
    RunGoesOn(ws, ss, PollStep);
  }

  /** In every reachable state the numbers are ordered and the current transaction is the newest one. */
  lemma WindowStaysInOrder(ws: seq<World>, ss: seq<Step>, i: nat)
    requires Run(ws, ss) && i < |ws|
    ensures var j := ws[i].j;
            j.Valid() && Dist(j.begin, j.front, j.m) <= Dist(j.begin, j.end, j.m) &&
            (j.transaction.Some? ==> j.objs[j.transaction.value].nr == Prev(j.end, j.m) && j.begin != j.end)
  {
    RunIsSound(ws, ss, i);
    if ws[i].j.transaction.Some? {
      CurrentNumber(ws[i].j);
    }
  }

  /**
   A transaction that the server has to learn about stays between front and end until its StopTx is
   confirmed or it is marked silent. No trimming, rollback or front advance skips it.
   */
  lemma NothingOwedIsSkipped(ws: seq<World>, ss: seq<Step>, i: nat, id: nat)
    requires PolledRun(ws, ss) && i < |ws| && id < |ws[i].j.objs|
    requires var t := ws[i].j.objs[id]; t.start.requested && !t.stop.confirmed && !t.silent
    ensures var j, nr := ws[i].j, ws[i].j.objs[id].nr;
            j.Valid() && nr < j.m && nr in j.store && j.store[nr] == id && InWindow(j.front, j.end, nr, j.m)
  {
    RunKeepsInv(ws, ss, i);
    var j := ws[i].j;
    assert GoodObject(j, id);
    assert GoodRecord(j, j.objs[id].nr);
    assert !InHistory(j, j.objs[id].nr);
  }

  // ----- bounded window -----

  lemma StepBoundsWindow(w: World, s: Step)
    requires Sound(w.j) && Enabled(w, s) && WindowBounded(w.j) && (s.BeginStep? ==> RemovalsSucceed(s.env))
    ensures Do(w, s).j.Valid() && WindowBounded(Do(w, s).j)
  {
    StepKeepsInv(w, s);
    match s
    case BeginStep(authorized, env) => BeginBoundsWindow(w.j, authorized, env);
    case PollStep => PollKeepsRecords(w.j);
    case LoopStep(input) => LoopBoundsWindow(w.j, input, w.nextOp);
    case ReplyStep(id, reply) => UpdateBoundsWindow(w.j, id, ApplyReply(w.j.objs[id], reply));
    case EndStep =>
      if w.j.transaction.Some? {
        UpdateBoundsWindow(w.j, w.j.transaction.value, w.j.objs[w.j.transaction.value].(active := false));
      }
    case FetchStep(fetch) => FetchBoundsWindow(w.j, fetch);
  }

  lemma UpdateBoundsWindow(j: Journal, id: nat, t: Tx)
    requires j.Valid() && id < |j.objs| && WindowBounded(j) && (j.objs[id].silent ==> t.silent)
    ensures WindowBounded(j.Update(id, t))
  {
  }

  lemma FetchBoundsWindow(j: Journal, i: FetchInput)
    requires j.Valid() && WindowBounded(j)
    ensures WindowBounded(Fetch(j, i).0)
  {
  }

  lemma {:induction false} AdvanceFrontKeepsRecords(j: Journal, k: nat)
    requires j.Valid()
    ensures var r := AdvanceFront(j, k);
            r.m == j.m && r.size == j.size && r.begin == j.begin && r.end == j.end && r.store == j.store &&
            r.objs == j.objs && r.transaction == j.transaction
    decreases k
  {
    if k > 0 {
      var j1 := if j.transactionFront.None? then j.(transactionFront := j.Lookup(j.front)) else j;
      if j1.transactionFront.Some? && j1.objs[j1.transactionFront.value].IsDone() {
        AdvanceFrontKeepsRecords(j1.(transactionFront := None, front := Next(j1.front, j1.m)), k - 1);
      }
    }
  }

  lemma PollKeepsRecords(j: Journal)
    requires j.Valid()
    ensures var r := Poll(j);
            r.m == j.m && r.size == j.size && r.begin == j.begin && r.end == j.end && r.store == j.store &&
            r.objs == j.objs && r.transaction == j.transaction
  {
    var k := Dist(j.front, j.end, j.m);
    AdvanceFrontKeepsRecords(if k == 0 then j.(transactionFront := None) else j, k);
  }

  lemma {:induction false} AdvanceFrontOnlyShrinks(j: Journal, k: nat, x: nat)
    requires j.Valid() && x < j.m && k <= Dist(j.front, j.end, j.m) && !InWindow(j.front, j.end, x, j.m)
    ensures var r := AdvanceFront(j, k); r.m == j.m && !InWindow(r.front, r.end, x, r.m)
    decreases k
  {
    if k > 0 {
      var j1 := if j.transactionFront.None? then j.(transactionFront := j.Lookup(j.front)) else j;
      if j1.transactionFront.Some? && j1.objs[j1.transactionFront.value].IsDone() {
        AdvanceFrontOnlyShrinks(j1.(transactionFront := None, front := Next(j1.front, j1.m)), k - 1, x);
      }
    }
  }

  lemma LoopBoundsWindow(j: Journal, i: LoopInput, nextOp: nat)
    requires Sound(j) && WindowBounded(j)
    ensures j.transaction.Some? ==> j.objs[j.transaction.value].nr < j.m
    ensures WindowBounded(Loop(j, i, nextOp).0)
  {
    CollectKeepsInv(j, i.removed);
    CollectBoundsWindow(j, i.removed);
    var j1 := Collect(j, i.removed);
    if j1.transaction.Some? {
      var id := j1.transaction.value;
      assert GoodObject(j1, id);
      DecideIsProgress(j1.objs[id], i, nextOp);
      UpdateBoundsWindow(j1, id, Decide(j1.objs[id], i, nextOp).0);
    }
  }

  lemma DropNewestBoundsWindow(j: Journal)
    requires j.Valid() && Ordered(j) && j.begin != j.end && WindowBounded(j)
    ensures WindowBounded(DropNewest(j))
  {
    DropNewestKeepsOrder(j);
  }

  /** Apart from the current transaction, Collect changes nothing or drops the newest record. */
  lemma CollectShape(j: Journal, removed: bool)
    requires Sound(j)
    ensures j.transaction.Some? ==> j.objs[j.transaction.value].nr < j.m
    ensures var r := Collect(j, removed).(transaction := None);
            r == j.(transaction := None) || (j.begin != j.end && r == DropNewest(j).(transaction := None))
  {
    if j.transaction.Some? {
      CurrentNumber(j);
    }
  }

  lemma CollectBoundsWindow(j: Journal, removed: bool)
    requires Sound(j) && WindowBounded(j)
    ensures j.transaction.Some? ==> j.objs[j.transaction.value].nr < j.m
    ensures WindowBounded(Collect(j, removed))
  {
    CollectShape(j, removed);
    if j.begin != j.end {
      DropNewestBoundsWindow(j);
    }
    var r := Collect(j, removed);
    assert WindowBounded(r.(transaction := None));
  }

  /** As long as the window is bounded, there is always an unused number. */
  lemma BoundedLeavesNumbers(w: World, s: Step)
    requires Sound(w.j) && Allowed(w, s) && WindowBounded(w.j) && (s.BeginStep? ==> RemovalsSucceed(s.env))
    ensures NumbersLeft(w, s)
  {
    if s.BeginStep? && w.j.transaction.None? {
      MakeRoomKeepsInv(w.j, s.env);
      MakeRoomBoundsWindow(w.j, s.env);
    }
  }

  /** Runs in which the files that have to make room can be removed. */
  ghost predicate TakesBounded(w: World, s: Step, z: World) {
    Sound(w.j) && WindowBounded(w.j) ==> Allowed(w, s) && (s.BeginStep? ==> RemovalsSucceed(s.env)) && z == Do(w, s)
  }

  ghost predicate BoundedRun(ws: seq<World>, ss: seq<Step>) {
    && |ws| == |ss| + 1
    && Sound(ws[0].j) && WindowBounded(ws[0].j)
    && forall i, n :: 0 <= i < |ss| && n == i + 1 ==> TakesBounded(ws[i], ss[i], ws[n])
  }

  lemma {:induction false} BoundedRunStays(ws: seq<World>, ss: seq<Step>, i: nat)
    requires BoundedRun(ws, ss) && i < |ws|
    ensures Sound(ws[i].j) && WindowBounded(ws[i].j)
    decreases i
  {
    hide Sound, Do, Allowed, NumbersLeft, WindowBounded;
    if i > 0 {
      BoundedRunStays(ws, ss, i - 1);
      assert TakesBounded(ws[i - 1], ss[i - 1], ws[i]);
      BoundedLeavesNumbers(ws[i - 1], ss[i - 1]);
      StepKeepsInv(ws[i - 1], ss[i - 1]);
      StepBoundsWindow(ws[i - 1], ss[i - 1]);
    }
  }

  /**
   With successful removals the window holds at most size + 1 numbers, in every reachable state, and the
   numbers never run out: the run is one of those that all other results are about.
   */
  lemma WindowStaysBounded(ws: seq<World>, ss: seq<Step>, i: nat)
    requires BoundedRun(ws, ss) && i < |ws|
    ensures ws[i].j.Valid() && WindowBounded(ws[i].j)
    ensures Run(ws, ss)
  {
    BoundedRunStays(ws, ss, i);
    hide Do, Allowed, NumbersLeft, WindowBounded;
    forall k, n | 0 <= k < |ss| && n == k + 1 ensures Takes(ws[k], ss[k], ws[n]) {
      BoundedRunStays(ws, ss, k);
      assert TakesBounded(ws[k], ss[k], ws[n]);
      BoundedLeavesNumbers(ws[k], ss[k]);
    }
  }

  // ----- life cycle -----

  ghost predicate AllProgress(j: Journal, r: Journal) {
    |j.objs| <= |r.objs| && forall id :: 0 <= id < |j.objs| ==> Progress(j.objs[id], r.objs[id])
  }

  lemma UpdateProgress(j: Journal, id: nat, t: Tx)
    requires j.Valid() && id < |j.objs| && Progress(j.objs[id], t)
    ensures AllProgress(j, j.Update(id, t))
  {
  }

  lemma LoopProgress(j: Journal, i: LoopInput, nextOp: nat)
    requires Sound(j)
    ensures j.transaction.Some? ==> j.objs[j.transaction.value].nr < j.m
    ensures AllProgress(j, Loop(j, i, nextOp).0)
  {
    CollectKeepsInv(j, i.removed);
    var j1 := Collect(j, i.removed);
    if j1.transaction.Some? {
      var id := j1.transaction.value;
      assert GoodObject(j1, id);
      DecideIsProgress(j1.objs[id], i, nextOp);
      UpdateProgress(j1, id, Decide(j1.objs[id], i, nextOp).0);
    }
  }

  lemma BeginProgress(j: Journal, authorized: bool, env: AllocEnv)
    requires Sound(j)
    ensures AllProgress(j, Begin(j, authorized, env))
  {
    if j.transaction.None? {
      MakeRoomKeepsInv(j, env);
    }
  }

  lemma GivingUpIsProgress(t: Tx, active: bool)
    requires active ==> t.active
    ensures Progress(t, t.(silent := true, active := active))
  {
  }

  lemma FetchStartIsProgress(t: Tx, i: FetchInput)
    ensures Progress(t, FetchStart(t, i).tx)
  {
    GivingUpIsProgress(t, false);
  }

  lemma FetchStopIsProgress(t: Tx, i: FetchInput)
    ensures Progress(t, FetchStop(t, i).tx)
  {
    GivingUpIsProgress(t, t.active);
  }

  lemma FetchProgress(j: Journal, i: FetchInput)
    requires j.Valid()
    ensures AllProgress(j, Fetch(j, i).0)
  {
    if j.transactionFront.Some? && !j.objs[j.transactionFront.value].silent {
      var id := j.transactionFront.value;
      var t := j.objs[id];
      FetchStartIsProgress(t, i);
      FetchStopIsProgress(t, i);
      if t.start.requested && !t.start.confirmed {
        UpdateProgress(j, id, FetchStart(t, i).tx);
      } else if t.stop.requested && !t.stop.confirmed {
        UpdateProgress(j, id, FetchStop(t, i).tx);
      }
    }
  }

  lemma EndProgress(j: Journal)
    requires Sound(j)
    ensures AllProgress(j, End(j))
  {
    if j.transaction.Some? {
      UpdateProgress(j, j.transaction.value, j.objs[j.transaction.value].(active := false));
    }
  }

  lemma ReplyProgress(j: Journal, id: nat, reply: Reply)
    requires Sound(j) && id < |j.objs|
    ensures AllProgress(j, j.Update(id, ApplyReply(j.objs[id], reply)))
  {
    ReplyIsProgress(j.objs[id], reply);
    UpdateProgress(j, id, ApplyReply(j.objs[id], reply));
  }

  lemma StepProgress(w: World, s: Step)
    requires Sound(w.j) && Enabled(w, s)
    ensures AllProgress(w.j, Do(w, s).j)
  {
    match s
    case LoopStep(input) => LoopProgress(w.j, input, w.nextOp);
    case BeginStep(authorized, env) => BeginProgress(w.j, authorized, env);
    case EndStep => EndProgress(w.j);
    case PollStep => PollKeepsRecords(w.j);
    case FetchStep(fetch) => FetchProgress(w.j, fetch);
    case ReplyStep(id, reply) => ReplyProgress(w.j, id, reply);
  }

  /** Over any stretch of a run, transactions only progress: nothing they did or decided is taken back. */
  lemma {:induction false} TransactionsOnlyProgress(ws: seq<World>, ss: seq<Step>, i: nat, k: nat, id: nat)
    requires Run(ws, ss) && i <= k < |ws| && id < |ws[i].j.objs|
    ensures id < |ws[k].j.objs| && Progress(ws[i].j.objs[id], ws[k].j.objs[id])
    decreases k
  {
    if i < k {
      hide Sound, Do, Enabled;
      TransactionsOnlyProgress(ws, ss, i, k - 1, id);
      RunTakes(ws, ss, k - 1);
      StepProgress(ws[k - 1], ss[k - 1]);
      ProgressIsTransitive(ws[i].j.objs[id], ws[k - 1].j.objs[id], ws[k].j.objs[id]);
    }
  }

  /** What a trigger says about the transaction before and after the step. */
  lemma TriggerMeaning(w: World, s: Step, id: nat)
    requires Sound(w.j) && Enabled(w, s)
    ensures TriggerOf(w, s) == StartTrigger(id) ==>
              id < |w.j.objs| <= |Do(w, s).j.objs| &&
              !w.j.objs[id].start.requested && Do(w, s).j.objs[id].start.requested &&
              w.j.objs[id].active && !w.j.objs[id].deauthorized && w.j.objs[id].authorized
    ensures TriggerOf(w, s) == StopTrigger(id) ==>
              id < |w.j.objs| <= |Do(w, s).j.objs| && w.j.objs[id].start.requested &&
              !w.j.objs[id].stop.requested && Do(w, s).j.objs[id].stop.requested
  {
    if s.LoopStep? && TriggerOf(w, s) != NoTrigger {
      CollectKeepsInv(w.j, s.input.removed);
      assert GoodObject(w.j, w.j.transaction.value);
      DecideIsProgress(w.j.objs[w.j.transaction.value], s.input, w.nextOp);
    }
  }

  lemma StartIsTriggeredAtMostOnce(ws: seq<World>, ss: seq<Step>, i: nat, k: nat, id: nat)
    requires Run(ws, ss) && i < |ss| && k < |ss|
    requires TriggerOf(ws[i], ss[i]) == StartTrigger(id) && TriggerOf(ws[k], ss[k]) == StartTrigger(id)
    ensures i == k
  {
    hide Sound, Do, Enabled, TriggerOf;
    RunTakes(ws, ss, i);
    RunTakes(ws, ss, k);
    TriggerMeaning(ws[i], ss[i], id);
    TriggerMeaning(ws[k], ss[k], id);
    if i < k {
      TransactionsOnlyProgress(ws, ss, i + 1, k, id);
    } else if k < i {
      TransactionsOnlyProgress(ws, ss, k + 1, i, id);
    }
  }

  lemma StopIsTriggeredAtMostOnce(ws: seq<World>, ss: seq<Step>, i: nat, k: nat, id: nat)
    requires Run(ws, ss) && i < |ss| && k < |ss|
    requires TriggerOf(ws[i], ss[i]) == StopTrigger(id) && TriggerOf(ws[k], ss[k]) == StopTrigger(id)
    ensures i == k
  {
    hide Sound, Do, Enabled, TriggerOf;
    RunTakes(ws, ss, i);
    RunTakes(ws, ss, k);
    TriggerMeaning(ws[i], ss[i], id);
    TriggerMeaning(ws[k], ss[k], id);
    if i < k {
      TransactionsOnlyProgress(ws, ss, i + 1, k, id);
    } else if k < i {
      TransactionsOnlyProgress(ws, ss, k + 1, i, id);
    }
  }

  /** A StopTx is triggered after the StartTx: never at the same time or before. */
  lemma StopComesAfterStart(ws: seq<World>, ss: seq<Step>, i: nat, k: nat, id: nat)
    requires Run(ws, ss) && i < |ss| && k < |ss|
    requires TriggerOf(ws[i], ss[i]) == StartTrigger(id) && TriggerOf(ws[k], ss[k]) == StopTrigger(id)
    ensures i < k
  {
    hide Sound, Do, Enabled, TriggerOf;
    RunTakes(ws, ss, i);
    RunTakes(ws, ss, k);
    TriggerMeaning(ws[i], ss[i], id);
    TriggerMeaning(ws[k], ss[k], id);
    if k <= i {
      TransactionsOnlyProgress(ws, ss, k, i, id);
      assert false;
    }
  }

  /** Once a transaction is inactive or deauthorized, it is never started. */
  lemma InactiveIsNeverStarted(ws: seq<World>, ss: seq<Step>, i: nat, k: nat, id: nat)
    requires Run(ws, ss) && i <= k < |ss| && id < |ws[i].j.objs|
    requires !ws[i].j.objs[id].active || ws[i].j.objs[id].deauthorized
    ensures TriggerOf(ws[k], ss[k]) != StartTrigger(id)
  {
    hide Sound, Do, Enabled, TriggerOf;
    RunTakes(ws, ss, k);
    TransactionsOnlyProgress(ws, ss, i, k, id);
    TriggerMeaning(ws[k], ss[k], id);
  }

  /** A StopTx is handed to the request queue only after the StartTx was confirmed. */
  lemma StopIsSentAfterStartConfirmed(ws: seq<World>, ss: seq<Step>, i: nat, id: nat)
    requires Run(ws, ss) && i < |ss| && MessageOf(ws[i], ss[i]) == Some(StopTx(id))
    ensures id < |ws[i].j.objs|
    ensures var t := ws[i].j.objs[id];
            t.start.requested && t.start.confirmed && t.stop.requested && !t.stop.confirmed && !t.silent
  {
    RunIsSound(ws, ss, i);
    assert GoodObject(ws[i].j, id);
  }

  // ----- charging -----

  /** The step creates a transaction: a begin call without a current one, for which there is room. */
  ghost predicate CreatesTransaction(w: World, s: Step) {
    s.BeginStep? && w.j.Valid() && w.j.transaction.None? && !MakeRoom(w.j, s.env).1.NoRoom?
  }

  lemma OnlyCreatingSetsTransaction(w: World, s: Step)
    requires Sound(w.j) && Enabled(w, s) && !CreatesTransaction(w, s)
    ensures Do(w, s).j.transaction == w.j.transaction || Do(w, s).j.transaction == None
  {
    CurrentNumberFits(w.j);
    PollKeepsRecords(w.j);
    if s.BeginStep? && w.j.transaction.None? {
      hide MakeRoom;
      MakeRoomKeepsInv(w.j, s.env);
    }
  }

  ghost predicate NotCharging(j: Journal)
    requires j.Valid()
  {
    j.transaction.Some? ==> !j.objs[j.transaction.value].active
  }

  lemma {:induction false} StaysNotCharging(ws: seq<World>, ss: seq<Step>, i: nat, k: nat)
    requires Run(ws, ss) && i <= k < |ws| && ws[i].j.Valid() && NotCharging(ws[i].j)
    requires forall n :: i <= n < k ==> !CreatesTransaction(ws[n], ss[n])
    ensures ws[k].j.Valid() && NotCharging(ws[k].j)
    decreases k
  {
    RunIsSound(ws, ss, k);
    if i < k {
      StaysNotCharging(ws, ss, i, k - 1);
      RunTakes(ws, ss, k - 1);
      OnlyCreatingSetsTransaction(ws[k - 1], ss[k - 1]);
      StepProgress(ws[k - 1], ss[k - 1]);
    }
  }

  /** After endTransaction the connector may not supply power until a transaction is created. */
  lemma NoChargingAfterEnd(ws: seq<World>, ss: seq<Step>, i: nat, k: nat, freeVend: bool, onPowerPathClosed: bool)
    requires Run(ws, ss) && i < k < |ws| && ss[i].EndStep?
    requires forall n :: i < n < k ==> !CreatesTransaction(ws[n], ss[n])
    ensures ws[k].j.Valid() && !PermitsCharge(ws[k].j, freeVend, onPowerPathClosed)
  {
    RunTakes(ws, ss, i);
    RunIsSound(ws, ss, i + 1);
    StaysNotCharging(ws, ss, i + 1, k);
  }
}
